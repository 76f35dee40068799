/** The 1-RTT packet assembler: frame blocks and acknowledgements share one pending
    payload, held back by the congestion window and by pacing, and a timer makes sure
    that held payload is looked at again. The answers of the window and of the pacer are
    arbitrary, so they appear as inputs. */
module AssemblerSpec {
  import opened Octets

  type Bytes = seq<Octet>

  /** QUIC_MAX_PAYLOAD_LEN, QUIC_FLUSH_BACKOFF_MAX_MS, the packets of one drain */
  const MAX_PAYLOAD: nat := 1286
  const BACKOFF_MAX: nat := 50
  const MAX_DRAIN: nat := 128

  /** An encoded ACK frame is never larger than its scratch buffer. */
  const MAX_ACK: nat := 256

  /** What is put into a payload, never split: an ACK frame or a block of frames. */
  datatype Block = Ack(bytes: Bytes) | Frames(bytes: Bytes)

  datatype Conn = Conn(
    pend: seq<Block>,           // the pending payload
    armed: bool,                // flush timer active
    backoff: nat,
    needAck: bool,
    sent: seq<seq<Block>>,      // payloads handed to the packet layer
    accepted: seq<Bytes>,       // blocks the assembler took
    acks: multiset<Bytes>)      // ACK frames it was given

  const Fresh := Conn([], false, 0, false, [], [], multiset{})

  function Size(blocks: seq<Block>): nat
    decreases |blocks|
  {
    if blocks == [] then 0 else Size(blocks[..|blocks| - 1]) + |blocks[|blocks| - 1].bytes|
  }

  function Send(c: Conn): Conn {
    c.(sent := c.sent + [c.pend], pend := [])
  }

  /** arm_flush_backoff */
  function ArmBackoff(c: Conn): Conn {
    var b := if c.backoff < 1 then 1 else c.backoff;
    var b' := if b < BACKOFF_MAX then b * 2 else b;
    c.(backoff := if b' > BACKOFF_MAX then BACKOFF_MAX else b', armed := true)
  }

  /** quic_conn_flush_packet */
  function Flush(c: Conn, canSend: bool, paced: bool): Conn {
    if Size(c.pend) == 0 then c.(armed := true)
    else if !canSend then ArmBackoff(c)
    else if !paced then c.(armed := true)
    else Send(c).(backoff := 1, armed := true)
  }

  /** quic_conn_queue_frames: the window is asked once here and once in the flush. */
  function QueueFrames(c: Conn, block: Bytes, canSend: bool, canSend': bool, paced: bool): (r: (Conn, bool)) {
    if |block| > MAX_PAYLOAD then (c, false)
    else if Size(c.pend) + |block| <= MAX_PAYLOAD || Size(c.pend) == 0 then (Take(c, block), true)
    else if !canSend then (ArmBackoff(c), false)
    else
      var c1 := Flush(c, canSend', paced);
      if Size(c1.pend) + |block| > MAX_PAYLOAD then (ArmBackoff(c1), false) else (Take(c1, block), true)
  }

  function Take(c: Conn, block: Bytes): Conn {
    c.(pend := c.pend + [Frames(block)], armed := true, accepted := c.accepted + [block])
  }

  /** quic_conn_queue_ack; None when the frame cannot be encoded, which loses it. */
  function QueueAck(c: Conn, ack: Bytes, encodes: bool, canSend: bool): Conn {
    if !c.needAck then c
    else
      var c1 := c.(needAck := false);
      if !encodes then c1
      else
        var c2 := c1.(acks := c1.acks + multiset{ack});
        if Size(c2.pend) + |ack| > MAX_PAYLOAD && Size(c2.pend) > 0 && !canSend then
          var c3 := c2.(sent := c2.sent + [[Ack(ack)]]);
          if c3.armed then c3 else ArmBackoff(c3)
        else
          var c3 := if Size(c2.pend) + |ack| > MAX_PAYLOAD && Size(c2.pend) > 0 then Send(c2) else c2;
          c3.(pend := [Ack(ack)] + c3.pend, armed := true)
  }

  // ---- the flush timer ----

  /** What the stream layer does when it is asked for more. */
  datatype Refill = Queue(block: Bytes, canSend: bool, canSend': bool, paced: bool) | FlushNow(canSend: bool, paced: bool)

  function Refilled(c: Conn, script: seq<Refill>): Conn
    decreases |script|
  {
    if script == [] then c
    else
      var before := Refilled(c, script[..|script| - 1]);
      match script[|script| - 1]
      case Queue(block, canSend, canSend', paced) => QueueFrames(before, block, canSend, canSend', paced).0
      case FlushNow(canSend, paced) => Flush(before, canSend, paced)
  }

  datatype Round = Round(script: seq<Refill>, canSend: bool, paced: bool)

  /** One turn of the drain loop, after `n` packets: it ends with a result or has sent
      one more packet. */
  datatype Turn = Ended(c: Conn, result: int) | SentOne(c: Conn)

  function DrainTurn(c: Conn, round: Round, n: nat): Turn {
    var c1 := if Size(c.pend) == 0 then Refilled(c, round.script) else c;
    if Size(c1.pend) == 0 then Ended(c1, n)
    else if !round.canSend then Ended(ArmBackoff(c1), if n > 0 then n else -1)
    else if !round.paced then Ended(c1.(armed := true), if n > 0 then n else -1)
    else
      var c2 := Send(c1).(backoff := 1);
      if n + 1 >= MAX_DRAIN then Ended(c2.(armed := true), n + 1) else SentOne(c2)
  }

  /** pacing_drain from its `n`-th packet on; the number is what it returns. */
  function Drain(c: Conn, env: nat -> Round, n: nat): (r: (Conn, int))
    requires n < MAX_DRAIN
    decreases MAX_DRAIN - n
  {
    match DrainTurn(c, env(n), n)
    case Ended(c', result) => (c', result)
    case SentOne(c') => if n + 1 < MAX_DRAIN then Drain(c', env, n + 1) else (c', n + 1)
  }

  /** on_flush_timer, the timer just having fired; `starved` says that some stream still
      has buffered data. */
  function OnTimer(c: Conn, env: nat -> Round, starved: bool): Conn {
    var (c1, r) := Drain(c.(armed := false), env, 0);
    if r == 0 && Size(c1.pend) == 0 then c1.(backoff := 1, armed := c1.armed || starved) else c1
  }

  // ------------------------------------------------------------------
  // What every operation keeps
  // ------------------------------------------------------------------

  /** ACK frames only in front. */
  predicate AcksFirst(blocks: seq<Block>) {
    forall i, j :: 0 <= i < j < |blocks| && blocks[j].Ack? ==> blocks[i].Ack?
  }

  /** The frame blocks among these, in order. */
  function FramesOf(blocks: seq<Block>): seq<Bytes>
    decreases |blocks|
  {
    if blocks == [] then []
    else
      var b := blocks[|blocks| - 1];
      FramesOf(blocks[..|blocks| - 1]) + (if b.Frames? then [b.bytes] else [])
  }

  function AcksOf(blocks: seq<Block>): multiset<Bytes>
    decreases |blocks|
  {
    if blocks == [] then multiset{}
    else
      var b := blocks[|blocks| - 1];
      AcksOf(blocks[..|blocks| - 1]) + (if b.Ack? then multiset{b.bytes} else multiset{})
  }

  function AllFrames(packets: seq<seq<Block>>): seq<Bytes>
    decreases |packets|
  {
    if packets == [] then [] else AllFrames(packets[..|packets| - 1]) + FramesOf(packets[|packets| - 1])
  }

  function AllAcks(packets: seq<seq<Block>>): multiset<Bytes>
    decreases |packets|
  {
    if packets == [] then multiset{} else AllAcks(packets[..|packets| - 1]) + AcksOf(packets[|packets| - 1])
  }

  predicate GoodPacket(blocks: seq<Block>) {
    AcksFirst(blocks) && 0 < Size(blocks) <= MAX_PAYLOAD
  }

  /** Everything but the wakeup. */
  ghost predicate Kept(c: Conn) {
    && AcksFirst(c.pend) && Size(c.pend) <= MAX_PAYLOAD && c.backoff <= BACKOFF_MAX
    && (forall i :: 0 <= i < |c.sent| ==> GoodPacket(c.sent[i]))
    && AllFrames(c.sent) + FramesOf(c.pend) == c.accepted
    && AllAcks(c.sent) + AcksOf(c.pend) == c.acks
  }

  /** No lost wakeup: payload waiting means the timer is running. */
  ghost predicate Awake(c: Conn) {
    Size(c.pend) > 0 ==> c.armed
  }

  // ---- lists ----

  lemma PushBack(blocks: seq<Block>, b: Block)
    ensures Size(blocks + [b]) == Size(blocks) + |b.bytes|
    ensures FramesOf(blocks + [b]) == FramesOf(blocks) + (if b.Frames? then [b.bytes] else [])
    ensures AcksOf(blocks + [b]) == AcksOf(blocks) + (if b.Ack? then multiset{b.bytes} else multiset{})
  {
  }

  lemma {:induction false} FrontSize(b: Block, blocks: seq<Block>)
    ensures Size([b] + blocks) == |b.bytes| + Size(blocks)
    decreases |blocks|
  {
    var n := |blocks| - 1;
    if n < 0 {
      assert [b] + blocks == [b] && [b][..0] == [];
    } else {
      FrontSize(b, blocks[..n]);
      assert ([b] + blocks)[..n + 1] == [b] + blocks[..n];
    }
  }

  lemma {:induction false} FrontFrames(a: Bytes, blocks: seq<Block>)
    ensures FramesOf([Ack(a)] + blocks) == FramesOf(blocks)
    decreases |blocks|
  {
    var n := |blocks| - 1;
    if n < 0 {
      assert [Ack(a)] + blocks == [Ack(a)] && [Ack(a)][..0] == [];
    } else {
      FrontFrames(a, blocks[..n]);
      assert ([Ack(a)] + blocks)[..n + 1] == [Ack(a)] + blocks[..n];
    }
  }

  lemma {:induction false} FrontAcks(a: Bytes, blocks: seq<Block>)
    ensures AcksOf([Ack(a)] + blocks) == AcksOf(blocks) + multiset{a}
    decreases |blocks|
  {
    var n := |blocks| - 1;
    if n < 0 {
      assert [Ack(a)] + blocks == [Ack(a)] && [Ack(a)][..0] == [];
    } else {
      FrontAcks(a, blocks[..n]);
      assert ([Ack(a)] + blocks)[..n + 1] == [Ack(a)] + blocks[..n];
      MultisetSwap(AcksOf(blocks[..n]), multiset{a}, if blocks[n].Ack? then multiset{blocks[n].bytes} else multiset{});
    }
  }

  lemma MultisetSwap(x: multiset<Bytes>, y: multiset<Bytes>, z: multiset<Bytes>)
    ensures x + y + z == x + z + y
  {
  }

  lemma PushPacket(packets: seq<seq<Block>>, p: seq<Block>)
    ensures AllFrames(packets + [p]) == AllFrames(packets) + FramesOf(p)
    ensures AllAcks(packets + [p]) == AllAcks(packets) + AcksOf(p)
  {
  }

  // ---- operations ----

  /** The timer and its backoff have no part in what is kept. */
  lemma TimerKeeps(c: Conn, armed: bool, backoff: nat, needAck: bool)
    requires Kept(c) && backoff <= BACKOFF_MAX
    ensures Kept(c.(armed := armed, backoff := backoff, needAck := needAck))
  {
  }

  lemma BackoffBound(c: Conn)
    requires Kept(c)
    ensures ArmBackoff(c).backoff <= BACKOFF_MAX && c.backoff <= BACKOFF_MAX
  {
  }

  lemma SendKeeps(c: Conn)
    requires Kept(c) && Size(c.pend) > 0
    ensures Kept(Send(c))
  {
  }

  lemma FlushKeeps(c: Conn, canSend: bool, paced: bool)
    requires Kept(c)
    ensures Kept(Flush(c, canSend, paced)) && Flush(c, canSend, paced).armed
    ensures Flush(c, canSend, paced).accepted == c.accepted
  {
    if Size(c.pend) > 0 {
      SendKeeps(c);
    }
  }

  lemma TakeKeeps(c: Conn, block: Bytes)
    requires Kept(c) && Size(c.pend) + |block| <= MAX_PAYLOAD
    ensures Kept(Take(c, block))
  {
  }

  /** An offered block is taken whole at the end of the pending payload, or refused; a
      refusal leaves the pending payload alone or has sent it whole. */
  lemma QueueKeeps(c: Conn, block: Bytes, canSend: bool, canSend': bool, paced: bool)
    requires Kept(c) && Awake(c)
    ensures var (c', ok) := QueueFrames(c, block, canSend, canSend', paced);
            && Kept(c') && Awake(c')
            && c'.accepted == (if ok then c.accepted + [block] else c.accepted)
            && (!ok ==> (c'.pend == c.pend && c'.sent == c.sent) || (c'.pend == [] && c'.sent == c.sent + [c.pend]))
  {
    hide Kept;
    FlushKeeps(c, canSend', paced);
    BackoffBound(c);
    TimerKeeps(c, true, ArmBackoff(c).backoff, c.needAck);
    var flushed := Flush(c, canSend', paced);
    BackoffBound(flushed);
    TimerKeeps(flushed, true, ArmBackoff(flushed).backoff, flushed.needAck);
    if |block| <= MAX_PAYLOAD {
      if Size(c.pend) + |block| <= MAX_PAYLOAD {
        TakeKeeps(c, block);
      }
      if Size(flushed.pend) + |block| <= MAX_PAYLOAD {
        TakeKeeps(flushed, block);
      }
    }
  }

  lemma AckInFront(c: Conn, ack: Bytes)
    requires Kept(c) && 0 < |ack| && Size(c.pend) + |ack| <= MAX_PAYLOAD
    ensures Kept(c.(pend := [Ack(ack)] + c.pend, acks := c.acks + multiset{ack}))
  {
    FrontSize(Ack(ack), c.pend);
    FrontFrames(ack, c.pend);
    FrontAcks(ack, c.pend);
  }

  lemma AckAlone(c: Conn, ack: Bytes)
    requires Kept(c) && 0 < |ack| <= MAX_ACK
    ensures Kept(c.(sent := c.sent + [[Ack(ack)]], acks := c.acks + multiset{ack}))
  {
    PushBack([], Ack(ack));
    assert [] + [Ack(ack)] == [Ack(ack)];
    PushPacket(c.sent, [Ack(ack)]);
    assert AllFrames(c.sent + [[Ack(ack)]]) == AllFrames(c.sent) + [] == AllFrames(c.sent);
  }

  /** An acknowledgement goes in front of what is pending, or out alone. */
  lemma AckKeeps(c: Conn, ack: Bytes, encodes: bool, canSend: bool)
    requires Kept(c) && Awake(c) && 0 < |ack| <= MAX_ACK
    ensures var c' := QueueAck(c, ack, encodes, canSend); Kept(c') && Awake(c') && c'.accepted == c.accepted
  {
    var c1 := c.(needAck := false);
    TimerKeeps(c, c.armed, c.backoff, false);
    if c.needAck && encodes {
      if Size(c.pend) + |ack| > MAX_PAYLOAD && Size(c.pend) > 0 && !canSend {
        AckAlone(c1, ack);
      } else if Size(c.pend) + |ack| > MAX_PAYLOAD {
        SendKeeps(c1);
        AckInFront(Send(c1), ack);
      } else {
        AckInFront(c1, ack);
      }
    }
  }

  lemma {:induction false} RefillKeeps(c: Conn, script: seq<Refill>)
    requires Kept(c) && Awake(c)
    ensures Kept(Refilled(c, script)) && Awake(Refilled(c, script))
    decreases |script|
  {
    if script != [] {
      var before := Refilled(c, script[..|script| - 1]);
      RefillKeeps(c, script[..|script| - 1]);
      match script[|script| - 1]
      case Queue(block, canSend, canSend', paced) => QueueKeeps(before, block, canSend, canSend', paced);
      case FlushNow(canSend, paced) => FlushKeeps(before, canSend, paced);
    }
  }

  /** One turn ends with nothing waiting without a timer, or with nothing waiting. */
  lemma TurnKeeps(c: Conn, round: Round, n: nat)
    requires n < MAX_DRAIN && Kept(c)
    ensures var t := DrainTurn(c, round, n);
            && Kept(t.c)
            && (t.Ended? ==> Awake(t.c) && (t.result == -1 || n <= t.result <= n + 1))
            && (t.SentOne? ==> t.c.pend == [] && n + 1 < MAX_DRAIN)
  {
    hide Kept;
    hide Refilled;
    if Size(c.pend) == 0 {
      RefillKeeps(c, round.script);
    }
    var c1 := if Size(c.pend) == 0 then Refilled(c, round.script) else c;
    BackoffBound(c1);
    TimerKeeps(c1, true, ArmBackoff(c1).backoff, c1.needAck);
    TimerKeeps(c1, true, c1.backoff, c1.needAck);
    if Size(c1.pend) > 0 && round.canSend && round.paced {
      SendKeeps(c1);
      TimerKeeps(Send(c1), c1.armed, 1, c1.needAck);
      TimerKeeps(Send(c1), true, 1, c1.needAck);
    }
  }

  /** Whatever the window and the pacer answer, and wherever the drain stops: it leaves
      nothing waiting without a timer. */
  lemma {:induction false} DrainKeeps(c: Conn, env: nat -> Round, n: nat)
    requires n < MAX_DRAIN && Kept(c)
    ensures Kept(Drain(c, env, n).0) && Awake(Drain(c, env, n).0)
    ensures n <= Drain(c, env, n).1 <= MAX_DRAIN || Drain(c, env, n).1 == -1
    decreases MAX_DRAIN - n
  {
    TurnKeeps(c, env(n), n);
    var t := DrainTurn(c, env(n), n);
    if t.SentOne? {
      DrainKeeps(t.c, env, n + 1);
    }
  }

  // ------------------------------------------------------------------
  // Runs
  // ------------------------------------------------------------------

  datatype Event =
    | Offer(block: Bytes, canSend: bool, canSend': bool, paced: bool)
    | AckDue
    | WriteAck(ack: Bytes, encodes: bool, ackCanSend: bool)
    | FlushCall(flushCanSend: bool, flushPaced: bool)
    | Timer(env: nat -> Round, starved: bool)

  predicate Possible(c: Conn, e: Event) {
    match e
    case WriteAck(ack, _, _) => 0 < |ack| <= MAX_ACK
    case Timer(_, _) => c.armed
    case _ => true
  }

  function Do(c: Conn, e: Event): Conn {
    match e
    case Offer(block, canSend, canSend', paced) => QueueFrames(c, block, canSend, canSend', paced).0
    case AckDue => c.(needAck := true)
    case WriteAck(ack, encodes, canSend) => QueueAck(c, ack, encodes, canSend)
    case FlushCall(canSend, paced) => Flush(c, canSend, paced)
    case Timer(env, starved) => OnTimer(c, env, starved)
  }

  ghost predicate PossibleRun(c: Conn, events: seq<Event>)
    decreases |events|
  {
    events == [] || (Possible(c, events[0]) && PossibleRun(Do(c, events[0]), events[1..]))
  }

  ghost function Run(c: Conn, events: seq<Event>): Conn
    decreases |events|
  {
    if events == [] then c else Run(Do(c, events[0]), events[1..])
  }

  lemma StepKeeps(c: Conn, e: Event)
    requires Kept(c) && Awake(c) && Possible(c, e)
    ensures Kept(Do(c, e)) && Awake(Do(c, e))
  {
    match e
    case Offer(block, canSend, canSend', paced) => QueueKeeps(c, block, canSend, canSend', paced);
    case AckDue =>
    case WriteAck(ack, encodes, canSend) => AckKeeps(c, ack, encodes, canSend);
    case FlushCall(canSend, paced) => FlushKeeps(c, canSend, paced);
    case Timer(env, starved) => DrainKeeps(c.(armed := false), env, 0);
  }

  /** Conservation and no lost wakeup over every run: the blocks accepted so far are, in
      order and each once, those in the payloads handed over and then those pending;
      acknowledgements only ever lead a payload; no payload is empty or too large; and
      between callbacks pending payload has its timer running. */
  lemma {:induction false} RunKeeps(c: Conn, events: seq<Event>)
    requires Kept(c) && Awake(c) && PossibleRun(c, events)
    ensures Kept(Run(c, events)) && Awake(Run(c, events))
    decreases |events|
  {
    if events != [] {
      StepKeeps(c, events[0]);
      RunKeeps(Do(c, events[0]), events[1..]);
    }
  }

  lemma FreshIsKept()
    ensures Kept(Fresh) && Awake(Fresh)
  {
  }
}
