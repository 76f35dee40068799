/** Which received packet numbers get acknowledged: one pending block per level, sent and
    started anew when a gap appears. */
module AckSpec {

  /** The numbers lo..hi. */
  datatype Block = Block(lo: nat, hi: nat)

  /** `first` counts the numbers below `largest` in the pending block; `dropped` holds blocks
      that were given up because they could not be sent. */
  datatype Tracker = Tracker(
    need: bool, largest: nat, first: nat, largestRx: nat,
    sent: seq<Block>, dropped: seq<Block>)

  const NEW := Tracker(false, 0, 0, 0, [], [])

  function Pending(t: Tracker): Block {
    Block(if t.first <= t.largest then t.largest - t.first else 0, t.largest)
  }

  /** build_and_send_ack: not while draining; `canSend` says that encoding, keys and sealing
      work out. Once begun, the block is no longer pending either way. */
  function BuildAndSend(t: Tracker, draining: bool, canSend: bool): Tracker {
    if draining || !t.need then t
    else if canSend then t.(need := false, sent := t.sent + [Pending(t)])
    else t.(need := false, dropped := t.dropped + [Pending(t)])
  }

  /** quic_conn_queue_ack */
  function QueueAck(t: Tracker, canSend: bool): Tracker {
    BuildAndSend(t, false, canSend)
  }

  function Begin(t: Tracker, pn: nat): Tracker {
    t.(need := true, largest := pn, first := 0)
  }

  function RecordRx(t: Tracker, pn: nat, eliciting: bool, draining: bool, canSend: bool): Tracker {
    var t1 := t.(largestRx := if pn > t.largestRx then pn else t.largestRx);
    if !eliciting then t1
    else if !t1.need then Begin(t1, pn)
    else if pn == t1.largest + 1 then t1.(first := t1.first + 1, largest := pn)
    else if pn > t1.largest then
      var t2 := BuildAndSend(t1, draining, canSend);
      // Still pending only when draining: the block is then overwritten.
      Begin(if t2.need then t2.(dropped := t2.dropped + [Pending(t2)]) else t2, pn)
    else t1
  }

  datatype Event =
    | Rx(pn: nat, eliciting: bool, draining: bool, canSend: bool)
    | SendNow(draining: bool, canSend: bool)
    | Queue(canSend: bool)

  function Step(t: Tracker, e: Event): Tracker {
    match e
    case Rx(pn, eliciting, draining, canSend) => RecordRx(t, pn, eliciting, draining, canSend)
    case SendNow(draining, canSend) => BuildAndSend(t, draining, canSend)
    case Queue(canSend) => QueueAck(t, canSend)
  }

  function Run(t: Tracker, es: seq<Event>): Tracker
    decreases |es|
  {
    if es == [] then t else Step(Run(t, es[..|es| - 1]), es[|es| - 1])
  }

  // ---- when a block is let go ----

  /** The pending block is let go by every send and by an arrival behind a gap. It goes out
      exactly if sending works out, which a draining connection allows to a queued
      acknowledgement only; otherwise it is given up, but a send while draining leaves it
      pending. */
  lemma BlockLeavesIff(t: Tracker, e: Event)
    ensures var t' := Step(t, e);
            var leaves := t.need && (e.Rx? ==> e.eliciting && e.pn > t.largest + 1);
            var goes := e.canSend && (e.Queue? || !e.draining);
            && t'.sent == (if leaves && goes then t.sent + [Pending(t)] else t.sent)
            && t'.dropped == (if leaves && !goes && !(e.SendNow? && e.draining) then t.dropped + [Pending(t)] else t.dropped)
            && t'.need == if e.Rx? then t.need || e.eliciting else t.need && e.SendNow? && e.draining
  {
  }

  // ---- what is acknowledged ----

  predicate In(n: nat, b: Block) {
    b.lo <= n <= b.hi
  }

  predicate InAny(n: nat, bs: seq<Block>) {
    exists i :: 0 <= i < |bs| && In(n, bs[i])
  }

  /** All numbers that arrived, whether or not they ask for an acknowledgement. */
  function Received(es: seq<Event>): set<nat>
    decreases |es|
  {
    if es == [] then {}
    else
      var e := es[|es| - 1];
      Received(es[..|es| - 1]) + (if e.Rx? then {e.pn} else {})
  }

  /** The number kept for decoding is the largest that ever arrived. */
  lemma {:induction false} LargestIsKept(es: seq<Event>)
    ensures var t := Run(NEW, es);
            && (forall pn :: pn in Received(es) ==> pn <= t.largestRx)
            && (t.largestRx in Received(es) || t.largestRx == 0)
    decreases |es|
  {
    if es != [] {
      LargestIsKept(es[..|es| - 1]);
    }
  }

  /** In a block that is pending, was sent or was given up. */
  predicate Covered(t: Tracker, n: nat) {
    (t.need && In(n, Pending(t))) || InAny(n, t.sent) || InAny(n, t.dropped)
  }

  predicate WellFormed(t: Tracker) {
    t.need ==> t.first <= t.largest
  }

  lemma InAnyPush(n: nat, bs: seq<Block>, b: Block)
    ensures InAny(n, bs + [b]) <==> InAny(n, bs) || In(n, b)
  {
    var all := bs + [b];
    if InAny(n, bs) {
      var i :| 0 <= i < |bs| && In(n, bs[i]);
      assert In(n, all[i]);
    }
    if In(n, b) {
      assert In(n, all[|bs|]);
    }
  }

  /** The arrival that is passed over: it lies below the block still pending. */
  predicate PassedOver(t: Tracker, pn: nat) {
    t.need && pn < Pending(t).lo
  }

  /** What one step adds to the numbers covered: the ack-eliciting arrival, unless it is
      passed over. Nothing is ever taken away. */
  lemma StepCovers(t: Tracker, e: Event, n: nat)
    requires WellFormed(t)
    ensures WellFormed(Step(t, e))
    ensures Covered(Step(t, e), n) <==>
              Covered(t, n) || (e.Rx? && e.eliciting && e.pn == n && !PassedOver(t, n))
  {
    InAnyPush(n, t.sent, Pending(t));
    InAnyPush(n, t.dropped, Pending(t));
    hide InAny;
  }

  /** Some ack-eliciting packet with this number arrived and was not passed over. */
  ghost predicate Heeded(t: Tracker, es: seq<Event>, n: nat) {
    exists i :: 0 <= i < |es| && HeededAt(t, es, n, i)
  }

  ghost predicate HeededAt(t: Tracker, es: seq<Event>, n: nat, i: nat)
    requires i < |es|
  {
    es[i].Rx? && es[i].eliciting && es[i].pn == n && !PassedOver(Run(t, es[..i]), n)
  }

  lemma HeededSnoc(t: Tracker, es: seq<Event>, n: nat)
    requires es != []
    ensures var k := |es| - 1;
            Heeded(t, es, n) <==> Heeded(t, es[..k], n) || HeededAt(t, es, n, k)
  {
    hide Run;
    hide PassedOver;
    var k := |es| - 1;
    forall i | 0 <= i < k
      ensures HeededAt(t, es, n, i) <==> HeededAt(t, es[..k], n, i)
    {
      assert es[..k][..i] == es[..i];
    }
  }

  /** Soundness and conservation, over every run: a number is in a block exactly when some
      ack-eliciting packet with that number arrived that did not lie below the block then
      pending. */
  lemma {:induction false} RunCovers(es: seq<Event>, n: nat)
    ensures WellFormed(Run(NEW, es))
    ensures Covered(Run(NEW, es), n) <==> Heeded(NEW, es, n)
    decreases |es|
  {
    hide Covered;
    hide WellFormed;
    hide HeededAt;
    hide Heeded;
    hide Step;
    if es == [] {
      NothingYet(n);
    } else {
      var k := |es| - 1;
      RunCovers(es[..k], n);
      StepCovers(Run(NEW, es[..k]), es[k], n);
      HeededSnoc(NEW, es, n);
      HeededAtIs(es, n, k);
    }
  }

  lemma HeededAtIs(es: seq<Event>, n: nat, k: nat)
    requires k < |es|
    ensures HeededAt(NEW, es, n, k) <==>
              es[k].Rx? && es[k].eliciting && es[k].pn == n && !PassedOver(Run(NEW, es[..k]), n)
  {
  }

  lemma NothingYet(n: nat)
    ensures WellFormed(NEW) && !Covered(NEW, n) && !Heeded(NEW, [], n)
  {
  }

  // ---- when nothing is given up ----

  /** Not draining, and sending works. */
  predicate Healthy(es: seq<Event>) {
    forall i :: 0 <= i < |es| ==> es[i].canSend && (!es[i].Queue? ==> !es[i].draining)
  }

  lemma {:induction false} NothingDropped(es: seq<Event>)
    requires Healthy(es)
    ensures Run(NEW, es).dropped == []
    decreases |es|
  {
    if es != [] {
      NothingDropped(es[..|es| - 1]);
    }
  }

  /** Then every number in a sent or pending block was received in an ack-eliciting packet,
      and every one received is in such a block unless it was passed over. */
  lemma HealthyRunAcks(es: seq<Event>, n: nat)
    requires Healthy(es)
    ensures var t := Run(NEW, es);
            (t.need && In(n, Pending(t))) || InAny(n, t.sent) <==> Heeded(NEW, es, n)
  {
    RunCovers(es, n);
    NothingDropped(es);
  }

  /** Numbers 5 then 3: the 3 is never acknowledged. */
  lemma ReorderedIsPassedOver()
    ensures var es := [Rx(5, true, false, true), Rx(3, true, false, true), SendNow(false, true)];
            var t := Run(NEW, es);
            Healthy(es) && es[1] == Rx(3, true, false, true) && !Covered(t, 3) && Covered(t, 5)
  {
    var es := [Rx(5, true, false, true), Rx(3, true, false, true), SendNow(false, true)];
    assert es[..1] == [Rx(5, true, false, true)] && es[..1][..0] == [];
    assert es[..2][..1] == es[..1] && es[..2][1] == Rx(3, true, false, true);
    assert Run(NEW, es[..1]) == Tracker(true, 5, 0, 5, [], []);
    assert Run(NEW, es[..2]) == Tracker(true, 5, 0, 5, [], []);
    assert Run(NEW, es) == Tracker(false, 5, 0, 5, [Block(5, 5)], []);
    assert InAny(5, [Block(5, 5)]) by { assert In(5, [Block(5, 5)][0]); }
  }

  // ---- arrivals in order ----

  function Numbers(b: Block): seq<nat> {
    if b.lo <= b.hi then seq(b.hi - b.lo + 1, i requires 0 <= i => b.lo + i) else []
  }

  function Flat(bs: seq<Block>): seq<nat>
    decreases |bs|
  {
    if bs == [] then [] else Flat(bs[..|bs| - 1]) + Numbers(bs[|bs| - 1])
  }

  function Arrivals(es: seq<Event>): seq<nat>
    decreases |es|
  {
    if es == [] then []
    else
      var e := es[|es| - 1];
      Arrivals(es[..|es| - 1]) + (if e.Rx? && e.eliciting then [e.pn] else [])
  }

  /** Each ack-eliciting number is above those before it. */
  predicate Rising(s: seq<nat>) {
    forall i, j :: 0 <= i < j < |s| ==> s[i] < s[j]
  }

  /** All acknowledged numbers, block by block. */
  function Acked(t: Tracker): seq<nat> {
    Flat(t.sent) + (if t.need then Numbers(Pending(t)) else [])
  }

  lemma FlatPush(bs: seq<Block>, b: Block)
    ensures Flat(bs + [b]) == Flat(bs) + Numbers(b)
  {
  }

  lemma NumbersGrow(b: Block)
    requires b.lo <= b.hi
    ensures Numbers(Block(b.lo, b.hi + 1)) == Numbers(b) + [b.hi + 1]
    ensures Numbers(b) != [] && Numbers(b)[|Numbers(b)| - 1] == b.hi
  {
  }

  lemma NumbersOne(n: nat)
    ensures Numbers(Block(n, n)) == [n]
  {
  }

  lemma StepAcks(t: Tracker, e: Event)
    requires WellFormed(t) && t.dropped == [] && e.canSend && (!e.Queue? ==> !e.draining)
    requires e.Rx? && e.eliciting && t.need ==> e.pn > t.largest
    ensures Acked(Step(t, e)) == Acked(t) + (if e.Rx? && e.eliciting then [e.pn] else [])
  {
    hide Flat;
    hide Numbers;
    FlatPush(t.sent, Pending(t));
    if e.Rx? && e.eliciting {
      NumbersOne(e.pn);
      if t.need && e.pn == t.largest + 1 {
        NumbersGrow(Pending(t));
        assert Flat(t.sent) + (Numbers(Pending(t)) + [e.pn]) == Flat(t.sent) + Numbers(Pending(t)) + [e.pn];
      }
    }
  }

  lemma NothingAcked()
    ensures Acked(NEW) == []
  {
  }

  /** Received in order, each number is acknowledged exactly once, in the order of arrival. */
  lemma {:induction false} InOrderIsExact(es: seq<Event>)
    requires Healthy(es) && Rising(Arrivals(es))
    ensures Acked(Run(NEW, es)) == Arrivals(es)
    ensures var t := Run(NEW, es); WellFormed(t) && (t.need ==> t.largest in Arrivals(es))
    decreases |es|
  {
    hide Acked;
    if es == [] {
      NothingAcked();
    } else {
      var k := |es| - 1;
      var before := Arrivals(es[..k]);
      assert forall i :: 0 <= i < |before| ==> Arrivals(es)[i] == before[i];
      InOrderIsExact(es[..k]);
      NothingDropped(es[..k]);
      var t := Run(NEW, es[..k]);
      if es[k].Rx? && es[k].eliciting && t.need {
        var i :| 0 <= i < |before| && before[i] == t.largest;
        assert Arrivals(es)[i] < Arrivals(es)[|before|];
      }
      StepAcks(t, es[k]);
    }
  }
}

module AckRecord {
  import opened AckSpec

  /** The acknowledgement state of one encryption level. */
  class AckTracker {
    var needAck: bool
    var ackLargestPn: nat
    var ackFirstRange: nat
    var largestRxPn: nat
    ghost var sent: seq<Block>
    ghost var dropped: seq<Block>

    ghost function State(): Tracker
      reads this
    {
      Tracker(needAck, ackLargestPn, ackFirstRange, largestRxPn, sent, dropped)
    }

    constructor ()
      ensures State() == NEW
    {
      needAck, ackLargestPn, ackFirstRange, largestRxPn := false, 0, 0, 0;
      sent, dropped := [], [];
    }

    method RecordRxPn(pn: nat, ackEliciting: bool, draining: bool, canSend: bool)
      modifies this
      ensures State() == RecordRx(old(State()), pn, ackEliciting, draining, canSend)
    {
      if pn > largestRxPn {
        largestRxPn := pn;
      }
      if !ackEliciting {
        return;
      }
      if !needAck {
        ackLargestPn := pn;
        ackFirstRange := 0;
        needAck := true;
      } else if pn == ackLargestPn + 1 {
        ackFirstRange := ackFirstRange + 1;
        ackLargestPn := pn;
      } else if pn > ackLargestPn {
        BuildAndSendAck(draining, canSend);
        if needAck {
          dropped := dropped + [Pending(State())];
        }
        ackLargestPn := pn;
        ackFirstRange := 0;
        needAck := true;
      }
    }

    method BuildAndSendAck(draining: bool, canSend: bool)
      modifies this
      ensures State() == BuildAndSend(old(State()), draining, canSend)
    {
      if draining || !needAck {
        return;
      }
      needAck := false;
      if canSend {
        sent := sent + [Pending(State())];
      } else {
        dropped := dropped + [Pending(State())];
      }
    }

    method QueueAck(canSend: bool)
      modifies this
      ensures State() == AckSpec.QueueAck(old(State()), canSend)
    {
      if !needAck {
        return;
      }
      needAck := false;
      if canSend {
        sent := sent + [Pending(State())];
      } else {
        dropped := dropped + [Pending(State())];
      }
    }
  }
}
