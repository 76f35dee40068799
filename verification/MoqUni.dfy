/** A unidirectional stream of the peer as the session sees it. Its record is made by the
    first arrival and removed once it is done; the next arrival then makes a new one. */
module MoqUniSpec {
  import opened MoqParser
  import opened MoqWire
  import opened Options

  /** The record, if there is one, and the callbacks made through records removed before. */
  datatype Link = Link(rec: Option<Stream>, past: seq<Event>)

  const Unseen := Link(None, [])

  function Record(l: Link): Stream {
    if l.rec.Some? then l.rec.value else NewUni
  }

  /** All callbacks so far. */
  function Heard(l: Link): seq<Event> {
    l.past + (if l.rec.Some? then l.rec.value.ctl.log else [])
  }

  /** stream_remove, when the record is done. */
  function Settle(past: seq<Event>, st: Stream): Link {
    if st.ctl.done then Link(None, past + st.ctl.log) else Link(Some(st), past)
  }

  /** on_session_stream_data. A record that hit the receive limit is done but stays. */
  function Arrive(subs: set<nat>, l: Link, chunk: Bytes): Link {
    var st := Record(l);
    if st.ctl.done then l
    else if chunk != [] && |st.buf| + |chunk| > MAX_RECV_BUF then l.(rec := Some(Data(subs, st, chunk)))
    else Settle(l.past, Data(subs, st, chunk))
  }

  /** on_session_stream_fin; without a record the end is ignored. */
  function End(subs: set<nat>, l: Link): Link {
    if l.rec.None? || l.rec.value.ctl.done then l else Settle(l.past, Fin(subs, l.rec.value))
  }

  /** How the transport brings the end: an arrival of no bytes, then the notice. */
  function Closed(subs: set<nat>, l: Link): Link {
    End(subs, Arrive(subs, l, []))
  }

  /** An arrival that takes the buffer above its limit is refused with a reset, and nothing
      that comes afterwards is heard: the record stays, and so does what it was. */
  lemma OverflowSilences(subs: set<nat>, l: Link, chunk: Bytes, later: Bytes)
    requires !Record(l).ctl.done && chunk != [] && |Record(l).buf| + |chunk| > 0x400_0400
    ensures var l' := Arrive(subs, l, chunk);
            && Heard(l') == Heard(l) + [Reset(0)]
            && Arrive(subs, l', later) == l' && End(subs, l') == l'
  {
    assert l.past + [] + [Reset(0)] == l.past + [Reset(0)];
  }

  function ArriveAll(subs: set<nat>, chunks: seq<Bytes>): Link
    decreases |chunks|
  {
    if chunks == [] then Unseen
    else Arrive(subs, ArriveAll(subs, chunks[..|chunks| - 1]), chunks[|chunks| - 1])
  }

  /** A whole delivery, with the end of the stream or without. */
  function Deliver(subs: set<nat>, chunks: seq<Bytes>, fin: bool): seq<Event> {
    var l := ArriveAll(subs, chunks);
    Heard(if fin then Closed(subs, l) else l)
  }

  // ------------------------------------------------------------------
  // What one record makes of its bytes
  // ------------------------------------------------------------------

  function ByOne(subs: set<nat>, b: Bytes): Drained {
    Drain(subs, NewUni.Plus(b))
  }

  /** The stream is refused, or typed as a setup, within these bytes. */
  predicate Stops(subs: set<nat>, b: Bytes) {
    ByOne(subs, b).Stopped?
  }

  /** The callbacks of a single record for the bytes at once. */
  function Whole(subs: set<nat>, b: Bytes, fin: bool): seq<Event> {
    var d := ByOne(subs, b);
    if d.Waiting? && fin then Finish(subs, d.st.ctl).log else d.st.ctl.log
  }

  predicate Uni(ctl: Control) {
    !ctl.fin && !ctl.done && (!ctl.typed || ctl.kind.Group?)
  }

  lemma UnitOnUni(subs: set<nat>, ctl: Control, u: Unit)
    requires Uni(ctl) && u.Unit? && u.tag < TWO64
    ensures var v := OnUnit(subs, ctl, u);
            && ctl.log <= v.ctl.log && !v.ctl.fin && (v.Go? ==> Uni(v.ctl)) && (v.Halt? ==> v.ctl.done)
  {
    if ctl.typed && ctl.hdrDone {
      assert OnUnit(subs, ctl, u) == OnFrame(subs, ctl, u.tag, u.body);
    } else if ctl.typed {
      assert OnUnit(subs, ctl, u) == OnGroupHeader(subs, ctl, u.body);
    } else {
      assert OnUnit(subs, ctl, u) == OnType(ctl, u.tag);
    }
  }

  /** Parsing only adds callbacks; a record that waits can go on, one that stopped is done. */
  lemma {:induction false} DrainOnUni(subs: set<nat>, st: Stream)
    requires Uni(st.ctl)
    ensures var d := Drain(subs, st);
            && st.ctl.log <= d.st.ctl.log && |d.st.buf| <= |st.buf| && !d.st.ctl.fin
            && (d.Waiting? ==> Uni(d.st.ctl) && Step(subs, d.st).Wait?)
            && (d.Stopped? ==> d.st.ctl.done)
    decreases |st.buf|
  {
    hide OnUnit;
    TagBelow64(st.ctl, st.buf);
    var u := NextUnit(st.ctl, st.buf);
    if u.Unit? {
      UnitOnUni(subs, st.ctl, u);
    }
    var o := Step(subs, st);
    if o.More? {
      DrainOnUni(subs, o.st);
    }
  }

  /** More bytes go on from where the first ones led. */
  lemma ByOnePrefix(subs: set<nat>, b: Bytes, more: Bytes)
    ensures var d := ByOne(subs, b);
            && (d.Waiting? ==> ByOne(subs, b + more) == Drain(subs, d.st.Plus(more)))
            && (d.Stopped? ==> ByOne(subs, b + more) == Stopped(d.st.Plus(more)))
            && d.st.ctl.log <= ByOne(subs, b + more).st.ctl.log
            && |d.st.buf| <= |b| && !d.st.ctl.fin
            && (d.Waiting? ==> Uni(d.st.ctl) && Step(subs, d.st).Wait?) && (d.Stopped? ==> d.st.ctl.done)
  {
    hide Drain;
    assert NewUni.Plus(b).Plus(more) == NewUni.Plus(b + more);
    DrainPrefix(subs, NewUni.Plus(b), more);
    DrainOnUni(subs, NewUni.Plus(b));
    if ByOne(subs, b).Waiting? {
      DrainOnUni(subs, ByOne(subs, b).st.Plus(more));
    }
  }

  // ---- how a stream begins and ends ----

  /** A stream of the setup type is over with its type, whatever follows; every other type is
      that of a group. */
  lemma TypeIsRead(subs: set<nat>, t: nat, rest: Bytes, fin: bool)
    requires t <= VARINT_MAX
    ensures var b := VarintBytes(t) + rest;
            if t == 1 then Stops(subs, b) && Whole(subs, b, fin) == []
            else ByOne(subs, b) == Drain(subs, Stream(NewUni.ctl.(typed := true), rest))
  {
    hide VarintBytes;
    hide ReadVarint;
    hide Step;
    var b := VarintBytes(t) + rest;
    VarintRoundTrip(t, rest);
    TypeStep(subs, t, b, |VarintBytes(t)|);
    assert [] + b == b && b[|VarintBytes(t)|..] == rest;
    assert ByOne(subs, b) == Drain(subs, Stream(NewUni.ctl, b));
  }

  lemma TypeStep(subs: set<nat>, t: nat, b: Bytes, n: nat)
    requires n <= |b| && t < TWO64 && ReadVarint(b) == Some(Read(t, n))
    ensures Step(subs, Stream(NewUni.ctl, b)) ==
              if t == 1 then Stop(Stream(NewUni.ctl.(typed := true, kind := Setup, done := true), b[n..]))
              else More(Stream(NewUni.ctl.(typed := true), b[n..]))
  {
    hide ReadVarint;
    var u := Unit(t, [], n);
    assert NextUnit(NewUni.ctl, b) == u;
    assert OnUnit(subs, NewUni.ctl, u) == OnType(NewUni.ctl, t);
    hide OnUnit;
  }

  /** A header belongs to a subscription, and no end has been reported before the end. */
  predicate Begun(subs: set<nat>, ctl: Control) {
    Uni(ctl) && !ctl.endNotified && (ctl.hdrDone ==> ctl.typed && ctl.subId in subs)
  }

  lemma UnitBegins(subs: set<nat>, ctl: Control, u: Unit)
    requires Begun(subs, ctl) && u.Unit? && u.tag < TWO64
    ensures OnUnit(subs, ctl, u).Go? ==> Begun(subs, OnUnit(subs, ctl, u).ctl)
  {
    if ctl.typed && ctl.hdrDone {
      assert OnUnit(subs, ctl, u) == OnFrame(subs, ctl, u.tag, u.body);
    } else if ctl.typed {
      assert OnUnit(subs, ctl, u) == OnGroupHeader(subs, ctl, u.body);
    } else {
      assert OnUnit(subs, ctl, u) == OnType(ctl, u.tag);
    }
  }

  lemma {:induction false} DrainBegins(subs: set<nat>, st: Stream)
    requires Begun(subs, st.ctl)
    ensures Drain(subs, st).Waiting? ==> Begun(subs, Drain(subs, st).st.ctl)
    decreases |st.buf|
  {
    hide OnUnit;
    hide Begun;
    TagBelow64(st.ctl, st.buf);
    var u := NextUnit(st.ctl, st.buf);
    if u.Unit? {
      UnitBegins(subs, st.ctl, u);
    }
    var o := Step(subs, st);
    if o.More? {
      DrainBegins(subs, o.st);
    }
  }

  /** The end of a stream is reported, once and last, exactly if its header has come. */
  lemma EndIsReportedIff(subs: set<nat>, b: Bytes)
    requires !Stops(subs, b)
    ensures var c := ByOne(subs, b).st.ctl;
            Whole(subs, b, true) == c.log + (if c.hdrDone then [GroupEnd(c.subId, c.group)] else [])
  {
    hide Drain;
    DrainBegins(subs, NewUni.Plus(b));
  }

  lemma NoBytes(subs: set<nat>)
    ensures ByOne(subs, []) == Waiting(NewUni) && Whole(subs, [], true) == [] && Whole(subs, [], false) == []
  {
    assert NewUni.Plus([]) == NewUni;
    assert NextUnit(NewUni.ctl, []) == Incomplete;
  }

  lemma DataOnUni(subs: set<nat>, st: Stream, chunk: Bytes)
    requires Uni(st.ctl) && |st.buf| + |chunk| <= MAX_RECV_BUF
    ensures Data(subs, st, chunk) == Drain(subs, st.Plus(chunk)).st
  {
    DrainOnUni(subs, st.Plus(chunk));
  }

  // ------------------------------------------------------------------
  // Cutting
  // ------------------------------------------------------------------

  /** The record at hand is the one of the bytes from `q` on, `n` in all; before `q` the
      stream stopped, or `q` is 0. */
  predicate At(subs: set<nat>, b: Bytes, l: Link, q: nat, n: nat)
    requires q <= n <= |b|
  {
    && ByOne(subs, b[q..n]).Waiting? && Record(l) == ByOne(subs, b[q..n]).st
    && (if q == 0 && !Stops(subs, b[..n]) then l.past == []
        else Stops(subs, b[..q]) && l.past == ByOne(subs, b).st.ctl.log)
  }

  /** No record that starts behind the point where the stream stopped makes a callback. */
  ghost predicate SilentBehind(subs: set<nat>, b: Bytes, fin: bool) {
    forall p :: 0 <= p <= |b| && Stops(subs, b[..p]) ==> Whole(subs, b[p..], fin) == []
  }

  lemma StopsStay(subs: set<nat>, b: Bytes, p: nat, n: nat)
    requires p <= n <= |b| && Stops(subs, b[..p])
    ensures Stops(subs, b[..n]) && ByOne(subs, b[..n]).st.ctl.log == ByOne(subs, b).st.ctl.log
    ensures ByOne(subs, b[..p]).st.ctl.log == ByOne(subs, b).st.ctl.log
  {
    hide ByOne;
    assert b[..p] + b[p..n] == b[..n] && b[..n] + b[n..] == b;
    ByOnePrefix(subs, b[..p], b[p..n]);
    ByOnePrefix(subs, b[..n], b[n..]);
  }

  /** One arrival. */
  lemma ArriveAt(subs: set<nat>, b: Bytes, l: Link, q: nat, n: nat, c: Bytes, fin: bool) returns (q': nat)
    requires q <= n && n + |c| <= |b| && b[n..n + |c|] == c && |b| <= MAX_RECV_BUF
    requires At(subs, b, l, q, n) && SilentBehind(subs, b, fin)
    ensures q' <= n + |c| && At(subs, b, Arrive(subs, l, c), q', n + |c|)
  {
    hide ByOne;
    hide Whole;
    var m := n + |c|;
    var st := Record(l);
    assert b[q..n] + c == b[q..m];
    ByOnePrefix(subs, b[q..n], c);
    DataOnUni(subs, st, c);
    var d := ByOne(subs, b[q..m]);
    ByOnePrefix(subs, b[q..m], b[m..]);
    assert b[q..m] + b[m..] == b[q..];
    NoBytes(subs);
    assert b[0..m] == b[..m] && b[0..n] == b[..n] && b[0..] == b;
    if Stops(subs, b[..q]) {
      StopsStay(subs, b, q, m);
      StopsStay(subs, b, q, n);
      SilentLog(subs, b, q, fin);
    } else if d.Stopped? {
      StopsStay(subs, b, m, m);
    }
    if d.Stopped? {
      q' := m;
      assert b[m..m] == [];
    } else {
      q' := q;
    }
  }

  lemma SilentLog(subs: set<nat>, b: Bytes, q: nat, fin: bool)
    requires q <= |b| && Stops(subs, b[..q]) && SilentBehind(subs, b, fin)
    ensures ByOne(subs, b[q..]).st.ctl.log == []
  {
    hide ByOne;
    assert Whole(subs, b[q..], fin) == [];
    FinishGrows(subs, ByOne(subs, b[q..]).st.ctl);
  }

  lemma FinishGrows(subs: set<nat>, ctl: Control)
    ensures ctl.log <= Finish(subs, ctl).log
  {
  }

  lemma {:induction false} ArriveAllAt(subs: set<nat>, b: Bytes, chunks: seq<Bytes>, rest: Bytes, fin: bool) returns (q: nat)
    requires Concat(chunks) + rest == b && |b| <= MAX_RECV_BUF && SilentBehind(subs, b, fin)
    ensures q <= |Concat(chunks)| && At(subs, b, ArriveAll(subs, chunks), q, |Concat(chunks)|)
    decreases |chunks|
  {
    hide SilentBehind;
    if chunks == [] {
      NoBytes(subs);
      assert b[..0] == [] && b[0..0] == [];
      q := 0;
    } else {
      var n := |chunks| - 1;
      var before, c := chunks[..n], chunks[n];
      Assoc(Concat(before), c, rest);
      var q0 := ArriveAllAt(subs, b, before, c + rest, fin);
      assert b[|Concat(before)|..|Concat(before)| + |c|] == c;
      hide At;
      hide Arrive;
      q := ArriveAt(subs, b, ArriveAll(subs, before), q0, |Concat(before)|, c, fin);
    }
  }

  lemma FinOnUni(subs: set<nat>, st: Stream)
    requires Uni(st.ctl) && Step(subs, st).Wait?
    ensures Fin(subs, st).ctl.log == Finish(subs, st.ctl).log && Fin(subs, st).ctl.done
  {
    assert Step(subs, Stream(st.ctl.(fin := true), st.buf)).Wait?;
  }

  /** Closing a link adds what the end of the stream adds to the record at hand. */
  lemma EndHeard(subs: set<nat>, l: Link, fin: bool)
    requires Uni(Record(l).ctl) && Step(subs, Record(l)).Wait?
    ensures Heard(if fin then Closed(subs, l) else l)
            == l.past + (if fin then Finish(subs, Record(l).ctl) else Record(l).ctl).log
  {
    FinOnUni(subs, Record(l));
    assert Record(l).Plus([]) == Record(l);
  }

  /** A cut of a stream with silence behind its stop makes the callbacks of one record. */
  lemma CutsAgree(subs: set<nat>, b: Bytes, chunks: seq<Bytes>, fin: bool)
    requires Concat(chunks) == b && |b| <= MAX_RECV_BUF && SilentBehind(subs, b, fin)
    ensures Deliver(subs, chunks, fin) == Whole(subs, b, fin)
  {
    hide ByOne;
    hide Finish;
    assert Concat(chunks) + [] == b;
    var q := ArriveAllAt(subs, b, chunks, [], fin);
    var l := ArriveAll(subs, chunks);
    assert b[q..|b|] == b[q..] && b[..|b|] == b && b[0..] == b;
    ByOnePrefix(subs, b[q..], []);
    EndHeard(subs, l, fin);
    if Stops(subs, b[..q]) {
      StopsStay(subs, b, q, |b|);
      assert Whole(subs, b[q..], fin) == [];
    }
  }

  /** Bytes on a new record, at once. */
  lemma FreshArrival(subs: set<nat>, past: seq<Event>, b: Bytes, fin: bool)
    requires |b| <= MAX_RECV_BUF
    ensures var l := Arrive(subs, Link(None, past), b);
            && Heard(if fin then Closed(subs, l) else l) == past + Whole(subs, b, fin)
            && (Stops(subs, b) ==> l == Link(None, past + ByOne(subs, b).st.ctl.log))
  {
    hide Finish;
    hide Drain;
    DrainOnUni(subs, NewUni.Plus(b));
    DataOnUni(subs, NewUni, b);
    var l := Arrive(subs, Link(None, past), b);
    if Stops(subs, b) {
      NewUniWaits(subs);
      FreshFinish(subs);
    }
    EndHeard(subs, l, fin);
  }

  lemma FreshFinish(subs: set<nat>)
    ensures Finish(subs, NewUni.ctl).log == []
  {
  }

  /** Deliveries of one chunk and of two. */
  lemma OneOrTwo(subs: set<nat>, a: Bytes, b: Bytes, fin: bool)
    requires |a + b| <= MAX_RECV_BUF && Stops(subs, a)
    ensures Concat([a + b]) == Concat([a, b]) == a + b
    ensures Deliver(subs, [a + b], fin) == ByOne(subs, a).st.ctl.log
    ensures Deliver(subs, [a, b], fin) == ByOne(subs, a).st.ctl.log + Whole(subs, b, fin)
  {
    hide ByOne;
    hide Arrive;
    assert [a + b][..0] == [] && [a, b][..1] == [a] && [a][..0] == [];
    assert [] + (a + b) == a + b && [] + a == a;
    ByOnePrefix(subs, a, b);
    FreshArrival(subs, [], a + b, fin);
    FreshArrival(subs, [], a, fin);
    var log := ByOne(subs, a).st.ctl.log;
    assert [] + log == log;
    FreshArrival(subs, log, b, fin);
    assert ArriveAll(subs, [a]) == Arrive(subs, Unseen, a);
  }

  /** Every way of cutting the bytes makes the same callbacks. */
  ghost predicate SameForAllCuts(subs: set<nat>, b: Bytes, fin: bool) {
    forall cs, cs' :: CutOf(cs, b) && CutOf(cs', b) ==> Deliver(subs, cs, fin) == Deliver(subs, cs', fin)
  }

  /** On a unidirectional stream, any bytes: all cuts agree exactly if no record that starts
      behind the point where the stream was refused, or typed as a setup, makes a callback. */
  lemma UniStableIff(subs: set<nat>, b: Bytes, fin: bool)
    requires |b| <= MAX_RECV_BUF
    ensures SameForAllCuts(subs, b, fin) <==> SilentBehind(subs, b, fin)
  {
    hide Deliver;
    hide Whole;
    hide Stops;
    if SilentBehind(subs, b, fin) {
      forall cs | CutOf(cs, b)
        ensures Deliver(subs, cs, fin) == Whole(subs, b, fin)
      {
        CutsAgree(subs, b, cs, fin);
      }
    }
    if SameForAllCuts(subs, b, fin) {
      forall p | 0 <= p <= |b| && Stops(subs, b[..p])
        ensures Whole(subs, b[p..], fin) == []
      {
        assert b[..p] + b[p..] == b;
        NoBytes(subs);
        if p < |b| {
          NotStoppedAtStart(subs);
          OneOrTwo(subs, b[..p], b[p..], fin);
          assert CutOf([b], b) && CutOf([b[..p], b[p..]], b);
        } else {
          assert b[p..] == [];
        }
      }
    }
  }

  lemma NotStoppedAtStart(subs: set<nat>)
    ensures !Stops(subs, [])
  {
    NoBytes(subs);
  }

  /** A stream that is neither refused nor typed as a setup before its last byte is the same
      for all cuts. */
  lemma NotStoppedIsStable(subs: set<nat>, b: Bytes, fin: bool)
    requires |b| <= MAX_RECV_BUF && forall p :: 0 <= p < |b| ==> !Stops(subs, b[..p])
    ensures SameForAllCuts(subs, b, fin)
  {
    hide Stops;
    hide SameForAllCuts;
    NoBytes(subs);
    forall p | 0 <= p <= |b| && Stops(subs, b[..p])
      ensures Whole(subs, b[p..], fin) == []
    {
      assert b[|b|..] == [];
    }
    UniStableIff(subs, b, fin);
  }

  lemma {:induction false} RecordStays(subs: set<nat>, chunks: seq<Bytes>)
    requires Fits(subs, NewUni, chunks) && !Stops(subs, Concat(chunks))
    ensures var l := ArriveAll(subs, chunks);
            l.past == [] && Record(l) == DataAll(subs, NewUni, chunks) == ByOne(subs, Concat(chunks)).st
    decreases |chunks|
  {
    hide Drain;
    NewUniWaits(subs);
    if chunks == [] {
      NoBytes(subs);
    } else {
      var n := |chunks| - 1;
      ByOnePrefix(subs, Concat(chunks[..n]), chunks[n]);
      RecordStays(subs, chunks[..n]);
      ByOnePrefix(subs, Concat(chunks), []);
      ChunksAreOne(subs, NewUni, chunks);
    }
  }

  /** While nothing stops the record, of a stream of any length, the session sees what the
      record does. */
  lemma LinkIsRecord(subs: set<nat>, chunks: seq<Bytes>)
    requires Fits(subs, NewUni, chunks) && !Stops(subs, Concat(chunks))
    ensures Deliver(subs, chunks, true) == Fin(subs, DataAll(subs, NewUni, chunks)).ctl.log
    ensures Deliver(subs, chunks, false) == DataAll(subs, NewUni, chunks).ctl.log
  {
    hide Finish;
    hide Drain;
    hide DataAll;
    hide ArriveAll;
    hide Fin;
    hide Fits;
    RecordStays(subs, chunks);
    ByOnePrefix(subs, Concat(chunks), []);
    EndHeard(subs, ArriveAll(subs, chunks), true);
    EndHeard(subs, ArriveAll(subs, chunks), false);
    FinOnUni(subs, DataAll(subs, NewUni, chunks));
  }

  lemma NewUniWaits(subs: set<nat>)
    ensures Step(subs, NewUni).Wait?
  {
    assert NextUnit(NewUni.ctl, []) == Incomplete;
  }
}

/** The session's side of such a stream, in place. */
module MoqUniRecord {
  import opened MoqParser
  import opened MoqStreamRecord
  import opened MoqUniSpec
  import opened MoqWire
  import opened Options

  class UniStream {
    const subs: set<nat>
    var record: MoqStream?
    /** The callbacks made through records that are gone. */
    ghost var past: seq<Event>

    ghost predicate Valid()
      reads this, record
    {
      record != null ==> record.subs == subs
    }

    ghost function Abs(): Link
      reads this, record
    {
      Link(if record == null then None else Some(record.Abs()), past)
    }

    constructor (subs: set<nat>)
      ensures Valid() && this.subs == subs && Abs() == Unseen && record == null
    {
      this.subs, record, past := subs, null, [];
    }

    /** stream_remove */
    method RemoveIfDone(r: MoqStream)
      requires record == r
      modifies this
      ensures Abs() == Settle(old(past), r.Abs())
      ensures old(Valid()) ==> Valid()
      ensures record == null || record == r
    {
      if r.ctl.done {
        past := past + r.ctl.log;
        record := null;
      }
    }

    method OnStreamData(chunk: Bytes)
      requires Valid()
      modifies this, record
      ensures Valid() && Abs() == Arrive(subs, old(Abs()), chunk)
      ensures record != null && record != old(record) ==> fresh(record)
    {
      if record == null {
        record := new MoqStream(subs, NewUni);
      }
      var r := record;
      if r.ctl.done {
        return;
      }
      var over := chunk != [] && |r.buf| + |chunk| > MAX_RECV_BUF;
      r.OnData(chunk);
      if over {
        return;
      }
      RemoveIfDone(r);
    }

    method OnStreamFin()
      requires Valid()
      modifies this, record
      ensures Valid() && Abs() == End(subs, old(Abs()))
      ensures record != null ==> record == old(record)
    {
      if record == null || record.ctl.done {
        return;
      }
      var r := record;
      r.OnFin();
      RemoveIfDone(r);
    }
  }
}
