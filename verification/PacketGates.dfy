/** When the packet assembler hands payload over: exactly on a yes of the congestion window
    and of the pacer. */
module AssemblerGates {
  import opened AssemblerSpec

  /** Twice what it was, at least 2 and at most 50 milliseconds. */
  function Doubled(backoff: nat): nat {
    var b := 2 * (if backoff < 1 then 1 else backoff);
    if b < 50 then b else 50
  }

  /** A flush hands over exactly the pending payload if there is some and both answers are
      yes, and nothing otherwise; the timer runs afterwards either way. */
  lemma FlushSendsIff(c: Conn, canSend: bool, paced: bool)
    ensures var c' := Flush(c, canSend, paced);
            var sends := Size(c.pend) > 0 && canSend && paced;
            && c'.sent == (if sends then c.sent + [c.pend] else c.sent)
            && c'.pend == (if sends then [] else c.pend)
            && c'.backoff == (if sends then 1 else if Size(c.pend) > 0 && !canSend then Doubled(c.backoff) else c.backoff)
            && c'.armed && c'.accepted == c.accepted && c'.acks == c.acks && c'.needAck == c.needAck
  {
  }

  /** An offered block is taken exactly if it fits beside what is pending, or fits alone and
      nothing is pending or the flush went through; it is then the last one pending. */
  lemma QueueTakesIff(c: Conn, block: Bytes, canSend: bool, canSend': bool, paced: bool)
    ensures var (c', ok) := QueueFrames(c, block, canSend, canSend', paced);
            var fits := Size(c.pend) == 0 || Size(c.pend) + |block| <= 1286;
            && (ok <==> |block| <= 1286 && (fits || (canSend && canSend' && paced)))
            && c'.sent == (if ok && !fits then c.sent + [c.pend] else c.sent)
            && c'.pend == (if !ok then c.pend else (if fits then c.pend else []) + [Frames(block)])
            && c'.accepted == (if ok then c.accepted + [block] else c.accepted)
            && (ok || |block| <= 1286 ==> c'.armed) && c'.acks == c.acks && c'.needAck == c.needAck
            && c'.backoff == (if |block| > 1286 || fits then c.backoff
                              else if ok then 1
                              else if canSend && !canSend' then Doubled(Doubled(c.backoff)) else Doubled(c.backoff))
  {
    FlushSendsIff(c, canSend', paced);
    hide Flush;
  }

  /** An acknowledgement that is due goes in front of the pending payload where both fit;
      where they do not, the payload goes out first if the window says yes, and otherwise the
      acknowledgement goes out alone. */
  lemma AckGoesWhere(c: Conn, ack: Bytes, encodes: bool, canSend: bool)
    ensures var c' := QueueAck(c, ack, encodes, canSend);
            var due := c.needAck && encodes;
            var full := Size(c.pend) > 0 && Size(c.pend) + |ack| > 1286;
            && c'.sent == (if !due || !full then c.sent else c.sent + [if canSend then c.pend else [Ack(ack)]])
            && c'.pend == (if !due || (full && !canSend) then c.pend else [Ack(ack)] + (if full then [] else c.pend))
            && c'.acks == (if due then c.acks + multiset{ack} else c.acks) && c'.accepted == c.accepted
            && !c'.needAck && (due ==> c'.armed) && (!due ==> c'.armed == c.armed)
            && c'.backoff == (if due && full && !canSend && !c.armed then Doubled(c.backoff) else c.backoff)
  {
  }

  /** One turn of the drain, with what the streams refilled if nothing was pending: a packet
      goes out exactly if there is payload and both answers are yes. */
  lemma TurnSendsIff(c: Conn, round: Round, n: nat)
    requires n < 128
    ensures var ready := if Size(c.pend) > 0 then c else Refilled(c, round.script);
            var t := DrainTurn(c, round, n);
            var sends := Size(ready.pend) > 0 && round.canSend && round.paced;
            && t.c.sent == (if sends then ready.sent + [ready.pend] else ready.sent)
            && t.c.pend == (if sends then [] else ready.pend)
            && (t.SentOne? <==> sends && n < 127)
            && (t.Ended? ==>
                  && t.result == (if sends then 128 else if n > 0 || Size(ready.pend) == 0 then n else -1)
                  && (sends || Size(ready.pend) > 0 ==> t.c.armed))
            && t.c.backoff == (if sends then 1
                               else if Size(ready.pend) > 0 && !round.canSend then Doubled(ready.backoff) else ready.backoff)
            && t.c.accepted == ready.accepted && t.c.acks == ready.acks && t.c.needAck == ready.needAck
  {
    hide Refilled;
  }

  // ------------------------------------------------------------------
  // Runs
  // ------------------------------------------------------------------

  predicate RefillAllows(r: Refill) {
    match r
    case Queue(_, canSend, canSend', paced) => canSend && canSend' && paced
    case FlushNow(canSend, paced) => canSend && paced
  }

  predicate RoundAllows(round: Round) {
    (round.canSend && round.paced) || exists i :: 0 <= i < |round.script| && RefillAllows(round.script[i])
  }

  /** The answers this event comes with let a payload go: window and pacer, for an
      acknowledgement the window alone. */
  ghost predicate Allows(e: Event) {
    match e
    case Offer(_, canSend, canSend', paced) => canSend && canSend' && paced
    case AckDue => false
    case WriteAck(_, _, canSend) => canSend
    case FlushCall(canSend, paced) => canSend && paced
    case Timer(env, _) => exists n :: 0 <= n < 128 && RoundAllows(env(n))
  }

  /** What was handed over stays, and what is new holds no frames. */
  predicate NoNewFrames(c: Conn, c': Conn) {
    c.sent <= c'.sent && forall i :: |c.sent| <= i < |c'.sent| ==> FramesOf(c'.sent[i]) == []
  }

  lemma {:induction false} RefillObeys(c: Conn, script: seq<Refill>)
    ensures c.sent <= Refilled(c, script).sent
    ensures (forall i :: 0 <= i < |script| ==> !RefillAllows(script[i])) ==> Refilled(c, script).sent == c.sent
    decreases |script|
  {
    hide Flush;
    hide QueueFrames;
    if script != [] {
      var n := |script| - 1;
      RefillObeys(c, script[..n]);
      var before := Refilled(c, script[..n]);
      match script[n]
      case Queue(block, canSend, canSend', paced) => QueueTakesIff(before, block, canSend, canSend', paced);
      case FlushNow(canSend, paced) => FlushSendsIff(before, canSend, paced);
    }
  }

  lemma TurnObeys(c: Conn, round: Round, n: nat)
    requires n < 128
    ensures c.sent <= DrainTurn(c, round, n).c.sent
    ensures !RoundAllows(round) ==> DrainTurn(c, round, n).c.sent == c.sent
  {
    hide Refilled;
    hide DrainTurn;
    RefillObeys(c, round.script);
    TurnSendsIff(c, round, n);
  }

  lemma {:induction false} DrainObeys(c: Conn, env: nat -> Round, n: nat)
    requires n < 128
    ensures c.sent <= Drain(c, env, n).0.sent
    ensures (forall k :: n <= k < 128 ==> !RoundAllows(env(k))) ==> Drain(c, env, n).0.sent == c.sent
    decreases 128 - n
  {
    hide RoundAllows;
    hide DrainTurn;
    TurnObeys(c, env(n), n);
    var t := DrainTurn(c, env(n), n);
    if t.SentOne? && n + 1 < 128 {
      DrainObeys(t.c, env, n + 1);
    }
  }

  lemma StepObeys(c: Conn, e: Event)
    ensures c.sent <= Do(c, e).sent
    ensures !Allows(e) ==> NoNewFrames(c, Do(c, e))
  {
    hide Flush;
    hide QueueFrames;
    hide QueueAck;
    hide Drain;
    hide RoundAllows;
    match e
    case Offer(block, canSend, canSend', paced) => QueueTakesIff(c, block, canSend, canSend', paced);
    case AckDue =>
    case WriteAck(ack, encodes, canSend) =>
      AckGoesWhere(c, ack, encodes, canSend);
      AloneHasNoFrames(ack);
    case FlushCall(canSend, paced) => FlushSendsIff(c, canSend, paced);
    case Timer(env, starved) => DrainObeys(c.(armed := false), env, 0);
  }

  lemma AloneHasNoFrames(ack: Bytes)
    ensures FramesOf([Ack(ack)]) == []
  {
    assert [Ack(ack)][..0] == [];
  }

  /** The event that handed the i-th payload over allowed it. */
  ghost predicate AllowedAt(c: Conn, events: seq<Event>, i: nat)
    decreases |events|
  {
    events != [] &&
    if i < |Do(c, events[0]).sent| then Allows(events[0]) else AllowedAt(Do(c, events[0]), events[1..], i)
  }

  /** Over every run: a payload with frames in it goes out only in an event whose answers
      allow it. */
  lemma {:induction false} RunObeys(c: Conn, events: seq<Event>, i: nat)
    requires |c.sent| <= i < |Run(c, events).sent| && FramesOf(Run(c, events).sent[i]) != []
    ensures AllowedAt(c, events, i)
    decreases |events|
  {
    hide Do;
    hide FramesOf;
    if events != [] {
      var c1 := Do(c, events[0]);
      StepObeys(c, events[0]);
      SentStays(c1, events[1..]);
      if i >= |c1.sent| {
        RunObeys(c1, events[1..], i);
      }
    }
  }

  lemma {:induction false} SentStays(c: Conn, events: seq<Event>)
    ensures c.sent <= Run(c, events).sent
    decreases |events|
  {
    hide Do;
    if events != [] {
      StepObeys(c, events[0]);
      SentStays(Do(c, events[0]), events[1..]);
    }
  }

  // ------------------------------------------------------------------
  // The timer
  // ------------------------------------------------------------------

  /** The result counts the packets of the drain; it is the number at the start only with
      nothing pending, and -1 only with the timer running. */
  lemma {:induction false} DrainCounts(c: Conn, env: nat -> Round, n: nat)
    requires n < 128
    ensures var (c', r) := Drain(c, env, n);
            && (r >= 0 ==> r >= n && |c'.sent| >= |c.sent| + (r - n))
            && (r == n == 0 ==> Size(c'.pend) == 0) && (r < 0 ==> c'.armed && r == -1) && (r == 128 ==> c'.armed)
    decreases 128 - n
  {
    hide DrainTurn;
    hide Refilled;
    TurnSendsIff(c, env(n), n);
    RefillObeys(c, env(n).script);
    var t := DrainTurn(c, env(n), n);
    if t.SentOne? && n + 1 < 128 {
      DrainCounts(t.c, env, n + 1);
    }
  }

  /** While some stream has data buffered, the timer fires again or a packet has gone out;
      a drain of 128 packets always goes on at the next tick, and one that finds nothing to do
      starts the backoff anew. */
  lemma TimerGoesOn(c: Conn, env: nat -> Round)
    ensures var c' := OnTimer(c, env, true); c'.armed || |c'.sent| > |c.sent|
    ensures forall starved :: Drain(c.(armed := false), env, 0).1 == 128 ==> OnTimer(c, env, starved).armed
    ensures forall starved ::
              var (d, r) := Drain(c.(armed := false), env, 0);
              OnTimer(c, env, starved).backoff == if r == 0 then 1 else d.backoff
  {
    hide Drain;
    DrainCounts(c.(armed := false), env, 0);
  }
}
