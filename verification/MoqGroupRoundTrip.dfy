/** What the publisher's group writer produces, the subscriber's group parser takes
    apart again: frame by frame, in order, for every way the bytes are cut. */
module MoqGroupRoundTrip {
  import opened MoqParser
  import opened MoqServeSpec
  import U = MoqUniSpec
  import opened MoqWire
  import opened Options

  /** The payload that travels: the absolute time stamp, then the media bytes. */
  function Payload(f: Media): Bytes
    requires GoodMedia(f)
  {
    VarintBytes(f.ts) + f.data
  }

  /** The callback for each frame of a group. */
  function Expected(sid: nat, group: nat, frames: seq<Media>): seq<Event>
    requires GoodGroup(frames)
    decreases |frames|
  {
    if frames == [] then []
    else
      var n := |frames| - 1;
      Expected(sid, group, frames[..n])
      + [Frame(sid, group, n, frames[n].ts - PrevTs(frames[..n]), Payload(frames[n]))]
  }

  function DeltaSum(events: seq<Event>): int
    decreases |events|
  {
    if events == [] then 0
    else
      var e := events[|events| - 1];
      DeltaSum(events[..|events| - 1]) + (if e.Frame? then e.delta else 0)
  }

  /** Callback `i` carries frame `i`. */
  lemma {:induction false} ExpectedAt(sid: nat, group: nat, frames: seq<Media>, i: nat)
    requires GoodGroup(frames) && i < |frames|
    ensures |Expected(sid, group, frames)| == |frames|
    ensures Expected(sid, group, frames)[i] == Frame(sid, group, i, frames[i].ts - PrevTs(frames[..i]), Payload(frames[i]))
    decreases |frames|
  {
    hide Payload;
    var n := |frames| - 1;
    if n == 0 {
      assert Expected(sid, group, frames[..0]) == [];
    } else {
      ExpectedAt(sid, group, frames[..n], if i < n then i else 0);
      assert i < n ==> frames[..n][..i] == frames[..i];
    }
  }

  /** The running sum of the differences is the absolute time stamp. */
  lemma {:induction false} DeltasSumUp(sid: nat, group: nat, frames: seq<Media>)
    requires GoodGroup(frames)
    ensures DeltaSum(Expected(sid, group, frames)) == PrevTs(frames)
    decreases |frames|
  {
    if frames != [] {
      var n := |frames| - 1;
      DeltasSumUp(sid, group, frames[..n]);
      var es := Expected(sid, group, frames[..n]);
      var last := Frame(sid, group, n, frames[n].ts - PrevTs(frames[..n]), Payload(frames[n]));
      assert (es + [last])[..|es|] == es;
    }
  }

  /** Stripping the container prefix gives the absolute time stamp and the media bytes. */
  lemma PayloadStrips(f: Media)
    requires GoodMedia(f)
    ensures ReadVarint(Payload(f)) == Some(Read(f.ts, VarintSize(f.ts)))
    ensures Payload(f)[VarintSize(f.ts)..] == f.data
  {
    VarintRoundTrip(f.ts, f.data);
  }

  /** The record after the header and the frames of a group were parsed. */
  function After(sid: nat, group: nat, frames: seq<Media>): Control
    requires GoodGroup(frames)
  {
    NewUni.ctl.(typed := true, hdrDone := true, subId := sid, group := group,
                frameIndex := |frames|, tsAcc := PrevTs(frames), log := Expected(sid, group, frames))
  }

  lemma FrameUnit(delta: int, payload: Bytes)
    requires ZIGZAG_MIN <= delta <= ZIGZAG_MAX && |payload| <= MAX_MESSAGE
    ensures FrameBytes(delta, payload).Some?
    ensures ZigzagEncode(delta).Some? && ZigzagEncode(delta).value <= VARINT_MAX &&
            ZigzagDecode(ZigzagEncode(delta).value) == delta
    ensures TaggedUnit(FrameBytes(delta, payload).value) ==
              Unit(ZigzagEncode(delta).value, payload, |FrameBytes(delta, payload).value|)
  {
    ZigzagRoundTrip(delta);
    var zz := ZigzagEncode(delta).value;
    var m := MsgBytes(payload);
    VarintRoundTrip(zz, m);
    MsgRoundTrip(payload, []);
    assert m + [] == m;
    assert (VarintBytes(zz) + m)[VarintSize(zz)..] == m;
    assert PlainUnit(m) == Unit(0, payload, |m|);
  }

  function NextFrame(c: Control, delta: int, payload: Bytes): Control {
    Deliver(c, delta, payload).(tsAcc := c.tsAcc + delta, frameIndex := c.frameIndex + 1)
  }

  lemma OnUnitFrame(subs: set<nat>, c: Control, u: Unit)
    requires c.typed && c.kind.Group? && c.hdrDone && c.subId in subs
    requires u.Unit? && u.tag < TWO64
    ensures OnUnit(subs, c, u) == Go(NextFrame(c, ZigzagDecode(u.tag), u.body))
  {
  }

  /** One frame alone in the buffer is one step of the parser. */
  lemma FrameStep(subs: set<nat>, c: Control, delta: int, payload: Bytes)
    requires ZIGZAG_MIN <= delta <= ZIGZAG_MAX && |payload| <= MAX_MESSAGE
    requires c.typed && c.kind.Group? && c.hdrDone && c.subId in subs
    ensures FrameBytes(delta, payload).Some?
    ensures Drain(subs, Stream(c, FrameBytes(delta, payload).value)) == Waiting(Stream(NextFrame(c, delta, payload), []))
  {
    FrameUnit(delta, payload);
    var s := FrameBytes(delta, payload).value;
    var u := TaggedUnit(s);
    OnUnitFrame(subs, c, u);
    OneUnit(subs, c, s, u, NextFrame(c, delta, payload));
  }

  lemma AfterNext(sid: nat, group: nat, before: seq<Media>, f: Media)
    requires GoodGroup(before) && GoodMedia(f)
    ensures NextFrame(After(sid, group, before), f.ts - PrevTs(before), Payload(f)) == After(sid, group, before + [f])
  {
    VarintRoundTrip(f.ts, f.data);
    assert !Marker(Payload(f));
    assert (before + [f])[..|before|] == before;
  }

  lemma OneMoreFrame(subs: set<nat>, sid: nat, group: nat, before: seq<Media>, f: Media)
    requires sid in subs && GoodGroup(before) && GoodMedia(f) && PrevTs(before) <= ZIGZAG_MAX
    ensures Drain(subs, Stream(After(sid, group, before), GoodBytes(PrevTs(before), f)))
            == Waiting(Stream(After(sid, group, before + [f]), []))
  {
    hide Drain;
    FrameStep(subs, After(sid, group, before), f.ts - PrevTs(before), Payload(f));
    AfterNext(sid, group, before, f);
  }

  lemma {:induction false} FramesDecode(subs: set<nat>, sid: nat, group: nat, frames: seq<Media>)
    requires sid in subs && GoodGroup(frames)
    ensures Drain(subs, Stream(After(sid, group, []), FramesBytes(frames))) == Waiting(Stream(After(sid, group, frames), []))
    decreases |frames|
  {
    hide Drain;
    hide After;
    var start := After(sid, group, []);
    if frames == [] {
      Idle(subs, start);
    } else {
      var n := |frames| - 1;
      var before, f := frames[..n], frames[n];
      FramesDecode(subs, sid, group, before);
      PrevIsSmall(before);
      DrainTwo(subs, start, FramesBytes(before), After(sid, group, before), GoodBytes(PrevTs(before), f));
      OneMoreFrame(subs, sid, group, before, f);
      assert before + [f] == frames;
    }
  }

  lemma HeadDecodes(subs: set<nat>, sid: nat, group: nat)
    requires sid in subs && sid <= VARINT_MAX && group <= VARINT_MAX
    ensures Drain(subs, Stream(NewUni.ctl, GroupHead(sid, group))) == Waiting(Stream(After(sid, group, []), []))
  {
    hide Drain;
    hide PlainUnit;
    hide After;
    var header := GroupHeaderBytes(sid, group, 0);
    var c := NewUni.ctl.(typed := true);
    TypeDecodes(subs);
    DrainTwo(subs, NewUni.ctl, VarintBytes(0), c, header);
    HeaderUnit(sid, group);
    TakenUnit(subs, c, header, sid, group);
    OneUnit(subs, c, header, PlainUnit(header), After(sid, group, []));
  }

  lemma TakenUnit(subs: set<nat>, c: Control, s: Bytes, sid: nat, group: nat)
    requires c == NewUni.ctl.(typed := true) && sid in subs
    requires PlainUnit(s).Unit? && PlainUnit(s).tag == 0 && ReadThree(PlainUnit(s).body) == Some((sid, group, 0))
    ensures NextUnit(c, s) == PlainUnit(s) && OnUnit(subs, c, PlainUnit(s)) == Go(After(sid, group, []))
  {
    assert OnUnit(subs, c, PlainUnit(s)) == OnGroupHeader(subs, c, PlainUnit(s).body);
  }

  lemma TypeDecodes(subs: set<nat>)
    ensures Drain(subs, Stream(NewUni.ctl, VarintBytes(0))) == Waiting(Stream(NewUni.ctl.(typed := true), []))
  {
    hide Drain;
    hide VarintBytes;
    hide NextUnit;
    TypeUnit();
    assert OnUnit(subs, NewUni.ctl, Unit(0, [], 1)) == OnType(NewUni.ctl, 0);
    OneUnit(subs, NewUni.ctl, VarintBytes(0), Unit(0, [], 1), NewUni.ctl.(typed := true));
  }

  lemma TypeUnit()
    ensures NextUnit(NewUni.ctl, VarintBytes(0)) == Unit(0, [], 1) && |VarintBytes(0)| == 1
  {
    VarintRoundTrip(0, []);
    assert VarintBytes(0) + [] == VarintBytes(0);
    hide ReadVarint;
  }

  lemma HeaderUnit(sid: nat, group: nat)
    requires sid <= VARINT_MAX && group <= VARINT_MAX
    ensures var header := GroupHeaderBytes(sid, group, 0);
            && PlainUnit(header).Unit? && PlainUnit(header).tag == 0 && PlainUnit(header).size == |header|
            && ReadThree(PlainUnit(header).body) == Some((sid, group, 0))
  {
    var header := GroupHeaderBytes(sid, group, 0);
    var body := VarintBytes(sid) + VarintBytes(group) + VarintBytes(0);
    ThreeFields(sid, group, 0);
    MsgRoundTrip(body, []);
    assert header + [] == header;
  }

  /** A closed group, parsed in one piece. */
  lemma GroupDecodes(subs: set<nat>, sid: nat, group: nat, frames: seq<Media>)
    requires sid in subs && sid <= VARINT_MAX && group <= VARINT_MAX && GoodGroup(frames)
    ensures Drain(subs, NewUni.Plus(ClosedGroup(sid, group, frames)))
            == Waiting(Stream(After(sid, group, frames).(frameIndex := |frames| + 1), []))
  {
    hide Drain;
    var head, body, end := GroupHead(sid, group), FramesBytes(frames), MarkerBytes(PrevTs(frames)).value;
    PrevIsSmall(frames);
    HeadDecodes(subs, sid, group);
    FramesDecode(subs, sid, group, frames);
    DrainTwo(subs, NewUni.ctl, head, After(sid, group, []), body);
    DrainTwo(subs, NewUni.ctl, head + body, After(sid, group, frames), end);
    MarkerDecodes(subs, After(sid, group, frames), PrevTs(frames));
    assert [] + ClosedGroup(sid, group, frames) == head + body + end;
  }

  lemma MarkerDecodes(subs: set<nat>, c: Control, ts: nat)
    requires ts <= VARINT_MAX && c.typed && c.kind.Group? && c.hdrDone && c.subId in subs
    ensures MarkerBytes(ts).Some?
    ensures Drain(subs, Stream(c, MarkerBytes(ts).value)) == Waiting(Stream(c.(frameIndex := c.frameIndex + 1), []))
  {
    hide Drain;
    var marker := VarintBytes(ts);
    FrameStep(subs, c, 0, marker);
    VarintRoundTrip(ts, []);
    assert marker + [] == marker;
    assert Marker(marker);
  }

  /** The round trip. Whatever run of writes, completed opens and closes the publisher
      makes, and however the bytes of a finished stream reach the subscriber: it is
      handed exactly the frames of that group, in order and numbered from zero, and then
      the end of the group, once. */
  lemma RoundTrip(sid: nat, ops: seq<Op>, subs: set<nat>, j: nat, chunks: seq<Bytes>)
    requires sid <= VARINT_MAX && sid in subs
    requires ProperRun(NewServe(sid), ops)
    requires j < |Execute(Run(NewServe(sid), Asked([], [])), ops).a.closed|
    requires Fits(subs, NewUni, chunks)
    requires var r := Execute(Run(NewServe(sid), Asked([], [])), ops);
             |r.s.streams| > j ==> Concat(chunks) == r.s.streams[j].bytes
    ensures var r := Execute(Run(NewServe(sid), Asked([], [])), ops);
            && j < |r.s.streams| && r.s.streams[j].fin && GoodGroup(r.a.closed[j])
            && U.Deliver(subs, chunks, true) == Expected(sid, j, r.a.closed[j]) + [GroupEnd(sid, j)]
  {
    var start := Run(NewServe(sid), Asked([], []));
    RunMatches(start, ops);
    SameSid(start, ops);
    var r := Execute(start, ops);
    Delivered(subs, sid, j, r.a.closed[j], chunks);
  }

  lemma Delivered(subs: set<nat>, sid: nat, group: nat, frames: seq<Media>, chunks: seq<Bytes>)
    requires sid in subs && sid <= VARINT_MAX && group <= VARINT_MAX && GoodGroup(frames)
    requires Fits(subs, NewUni, chunks) && Concat(chunks) == ClosedGroup(sid, group, frames)
    ensures U.Deliver(subs, chunks, true) == Expected(sid, group, frames) + [GroupEnd(sid, group)]
  {
    var c := After(sid, group, frames).(frameIndex := |frames| + 1);
    GroupDecodes(subs, sid, group, frames);
    Idle(subs, NewUni.ctl);
    ChunksAreOne(subs, NewUni, chunks);
    assert DataAll(subs, NewUni, chunks) == Stream(c, []);
    Idle(subs, c.(fin := true));
    FinEnds(subs, c);
    U.LinkIsRecord(subs, chunks);
  }

  lemma FinEnds(subs: set<nat>, c: Control)
    requires c.typed && c.kind.Group? && c.hdrDone && !c.endNotified && !c.done && c.subId in subs
    ensures Fin(subs, Stream(c, [])).ctl.log == c.log + [GroupEnd(c.subId, c.group)]
  {
  }

  lemma {:induction false} SameSid(r: Run, ops: seq<Op>)
    requires Valid(r.s) && ProperRun(r.s, ops)
    ensures Execute(r, ops).s.sid == r.s.sid
    decreases |ops|
  {
    if ops != [] {
      SameSid(Run(Do(r.s, ops[0]), Ask(r.s, r.a, ops[0])), ops[1..]);
    }
  }

  // ------------------------------------------------------------------
  // A refused stream that goes on
  // ------------------------------------------------------------------

  lemma RefusedHead(subs: set<nat>, sid: nat)
    requires sid !in subs && sid <= VARINT_MAX
    ensures U.Stops(subs, GroupHead(sid, 0)) && U.ByOne(subs, GroupHead(sid, 0)).st.ctl.log == [Reset(CANCELLED)]
  {
    hide Drain;
    var header := GroupHeaderBytes(sid, 0, 0);
    var c := NewUni.ctl.(typed := true);
    TypeDecodes(subs);
    DrainTwo(subs, NewUni.ctl, VarintBytes(0), c, header);
    HeaderUnit(sid, 0);
    assert NewUni.Plus(GroupHead(sid, 0)) == Stream(NewUni.ctl, VarintBytes(0) + header);
    RefusedUnit(subs, c, header, sid);
  }

  lemma RefusedUnit(subs: set<nat>, c: Control, s: Bytes, sid: nat)
    requires c == NewUni.ctl.(typed := true) && sid !in subs
    requires PlainUnit(s).Unit? && PlainUnit(s).tag == 0 && ReadThree(PlainUnit(s).body) == Some((sid, 0, 0))
    ensures Drain(subs, Stream(c, s)) == Stopped(Stream(Refuse(c, CANCELLED), s))
  {
    assert NextUnit(c, s) == PlainUnit(s);
    assert OnUnit(subs, c, PlainUnit(s)) == OnGroupHeader(subs, c, PlainUnit(s).body);
    assert Step(subs, Stream(c, s)) == Stop(Stream(Refuse(c, CANCELLED), s));
  }

  /** A group of an unknown subscription, and behind it on the same stream one of a known:
      in one piece the second is not seen, in two pieces its frame is delivered. */
  lemma RefusedThenGood(known: nat, unknown: nat, f: Media)
    requires known <= VARINT_MAX && unknown <= VARINT_MAX && known != unknown && GoodMedia(f)
    requires |GroupHead(unknown, 0) + OpenGroup(known, 0, [f])| <= MAX_RECV_BUF
    ensures var a, b := GroupHead(unknown, 0), OpenGroup(known, 0, [f]);
            && U.Deliver({known}, [a + b], false) == [Reset(CANCELLED)]
            && U.Deliver({known}, [a, b], false) == [Reset(CANCELLED), Frame(known, 0, 0, f.ts, Payload(f))]
            && !U.SameForAllCuts({known}, a + b, false)
  {
    hide Drain;
    hide U.Deliver;
    var subs := {known};
    var a, b := GroupHead(unknown, 0), OpenGroup(known, 0, [f]);
    RefusedHead(subs, unknown);
    HeadDecodes(subs, known, 0);
    FramesDecode(subs, known, 0, [f]);
    DrainTwo(subs, NewUni.ctl, GroupHead(known, 0), After(known, 0, []), FramesBytes([f]));
    assert NewUni.Plus(b) == Stream(NewUni.ctl, GroupHead(known, 0) + FramesBytes([f]));
    U.OneOrTwo(subs, a, b, false);
    assert [f][..0] == [];
    assert Expected(known, 0, [f]) == [Frame(known, 0, 0, f.ts, Payload(f))];
    assert U.Whole(subs, b, false) == Expected(known, 0, [f]);
  }
}
