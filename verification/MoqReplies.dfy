/** What a subscriber makes of the peer's replies: which callback each message becomes. */
module MoqSubscribeReplies {
  import opened MoqParser
  import opened MoqWire
  import opened Octets
  import opened Options

  /** The peer's messages on a subscribe stream; types other than the three are skipped. */
  datatype Reply = Start(group: nat) | End(group: nat) | Dropped(first: nat, last: nat, code: nat) | Other(tag: nat, body: Bytes)

  predicate Encodable(r: Reply) {
    match r
    case Start(g) => g <= VARINT_MAX
    case End(g) => g <= VARINT_MAX
    case Dropped(a, b, c) => a <= VARINT_MAX && b <= VARINT_MAX && c <= VARINT_MAX
    case Other(tag, body) => 3 <= tag <= VARINT_MAX && |body| <= MAX_MESSAGE
  }

  predicate AllEncodable(rs: seq<Reply>) {
    forall i :: 0 <= i < |rs| ==> Encodable(rs[i])
  }

  function Tag(r: Reply): nat {
    match r case Start(_) => 0 case End(_) => 1 case Dropped(_, _, _) => 2 case Other(tag, _) => tag
  }

  function Body(r: Reply): Bytes
    requires Encodable(r)
  {
    match r
    case Start(g) => VarintBytes(g)
    case End(g) => VarintBytes(g)
    case Dropped(a, b, c) => VarintBytes(a) + VarintBytes(b) + VarintBytes(c)
    case Other(_, body) => body
  }

  lemma BodyFits(r: Reply)
    requires Encodable(r)
    ensures |Body(r)| <= MAX_MESSAGE && Tag(r) <= VARINT_MAX
  {
  }

  function Wire(r: Reply): Bytes
    requires Encodable(r)
  {
    BodyFits(r);
    VarintBytes(Tag(r)) + MsgBytes(Body(r))
  }

  function WireAll(rs: seq<Reply>): Bytes
    requires AllEncodable(rs)
    decreases |rs|
  {
    if rs == [] then [] else WireAll(rs[..|rs| - 1]) + Wire(rs[|rs| - 1])
  }

  /** The callbacks of these replies, in their order. */
  function Callbacks(rs: seq<Reply>): seq<Event>
    decreases |rs|
  {
    if rs == [] then []
    else
      Callbacks(rs[..|rs| - 1]) +
      match rs[|rs| - 1]
      case Start(g) => [SubscribeStart(g)]
      case End(g) => [SubscribeEnd(g)]
      case Dropped(a, b, c) => [Drop(a, b, c)]
      case Other(_, _) => []
  }

  lemma OneField(a: nat)
    requires a <= VARINT_MAX
    ensures ReadOne(VarintBytes(a)) == Some(a)
  {
    VarintRoundTrip(a, []);
    assert VarintBytes(a) + [] == VarintBytes(a);
  }

  lemma ReplyIsRead(subs: set<nat>, c: Control, r: Reply)
    requires c.typed && c.kind.Subscribe? && Encodable(r)
    ensures Drain(subs, Stream(c, Wire(r))) == Waiting(Stream(c.(log := c.log + Callbacks([r])), []))
  {
    hide Drain;
    hide VarintBytes;
    hide MsgBytes;
    hide TaggedUnit;
    BodyFits(r);
    TaggedMessage(Tag(r), Body(r));
    var c' := c.(log := c.log + Callbacks([r]));
    assert [r][..0] == [];
    match r {
      case Start(g) =>
        OneField(g);
        assert Callbacks([r]) == [SubscribeStart(g)];
      case End(g) =>
        OneField(g);
        assert Callbacks([r]) == [SubscribeEnd(g)];
      case Dropped(a, b, d) =>
        ThreeFields(a, b, d);
        assert Callbacks([r]) == [Drop(a, b, d)];
      case Other(_, _) =>
        assert Callbacks([r]) == [] && c.log + [] == c.log;
    }
    assert OnUnit(subs, c, Unit(Tag(r), Body(r), |Wire(r)|)) == OnSubscribe(c, Tag(r), Body(r)) == Go(c');
    OneUnit(subs, c, Wire(r), Unit(Tag(r), Body(r), |Wire(r)|), c');
  }

  lemma CallbacksPush(rs: seq<Reply>, r: Reply)
    ensures Callbacks(rs + [r]) == Callbacks(rs) + Callbacks([r])
  {
    assert (rs + [r])[..|rs|] == rs && [r][..0] == [];
  }

  lemma {:induction false} RepliesAreRead(subs: set<nat>, c: Control, rs: seq<Reply>)
    requires c.typed && c.kind.Subscribe? && AllEncodable(rs)
    ensures Drain(subs, Stream(c, WireAll(rs))) == Waiting(Stream(c.(log := c.log + Callbacks(rs)), []))
    decreases |rs|
  {
    hide Drain;
    hide Wire;
    hide Callbacks;
    if rs == [] {
      Idle(subs, c);
      NoCallbacks(c);
    } else {
      var n := |rs| - 1;
      RepliesAreRead(subs, c, rs[..n]);
      var c1 := c.(log := c.log + Callbacks(rs[..n]));
      DrainTwo(subs, c, WireAll(rs[..n]), c1, Wire(rs[n]));
      ReplyIsRead(subs, c1, rs[n]);
      CallbacksPush(rs[..n], rs[n]);
      assert rs[..n] + [rs[n]] == rs;
      assert c.log + Callbacks(rs[..n]) + Callbacks([rs[n]]) == c.log + (Callbacks(rs[..n]) + Callbacks([rs[n]]));
    }
  }

  lemma NoCallbacks(c: Control)
    ensures Callbacks([]) == [] && c.log + [] == c.log
  {
  }

  /** However the bytes of a list of replies are cut: exactly their callbacks, in order, with
      the fields in their places. */
  lemma RepliesAreHeard(subs: set<nat>, rs: seq<Reply>, chunks: seq<Bytes>)
    requires AllEncodable(rs) && Concat(chunks) == WireAll(rs) && Fits(subs, NewLocal(Subscribe, []), chunks)
    ensures DataAll(subs, NewLocal(Subscribe, []), chunks).ctl.log == Callbacks(rs)
  {
    hide Drain;
    hide DataAll;
    var st := NewLocal(Subscribe, []);
    Idle(subs, st.ctl);
    RepliesAreRead(subs, st.ctl, rs);
    assert st.Plus(Concat(chunks)) == Stream(st.ctl, WireAll(rs));
    ChunksAreOne(subs, st, chunks);
    assert [] + Callbacks(rs) == Callbacks(rs);
  }

  /** What the publisher writes when it accepts. */
  lemma AcceptanceIsHeard(subs: set<nat>, c: Control, group: nat)
    requires c.typed && c.kind.Subscribe? && group <= VARINT_MAX
    ensures Drain(subs, Stream(c, SubscribeStartBytes(group)))
            == Waiting(Stream(c.(log := c.log + [SubscribeStart(group)]), []))
  {
    hide Drain;
    ReplyIsRead(subs, c, Start(group));
    assert [Start(group)][..0] == [];
    assert Callbacks([Start(group)]) == [SubscribeStart(group)];
  }

  /** A reply of one of the three types whose fields are not exactly the expected integers is
      consumed, asks for a reset, and makes no other callback. */
  lemma MalformedIsRefused(subs: set<nat>, c: Control, tag: nat, body: Bytes)
    requires c.typed && c.kind.Subscribe? && tag < 3 && |body| <= MAX_MESSAGE
    requires if tag < 2 then ReadOne(body).None? else ReadThree(body).None?
    ensures Drain(subs, Stream(c, VarintBytes(tag) + MsgBytes(body)))
            == Stopped(Stream(c.Emit(Reset(INTERNAL_ERROR)), []))
  {
    hide VarintBytes;
    hide MsgBytes;
    hide TaggedUnit;
    hide ReadOne;
    hide ReadThree;
    TaggedMessage(tag, body);
    var s := VarintBytes(tag) + MsgBytes(body);
    assert NextUnit(c, s) == Unit(tag, body, |s|);
    assert OnUnit(subs, c, Unit(tag, body, |s|)) == OnSubscribe(c, tag, body);
    assert Step(subs, Stream(c, s)) == Stop(Stream(c.Emit(Reset(INTERNAL_ERROR)), []));
  }
}

/** The same for an announce stream. The handles are the session's, so those of its other
    announce streams are in the list too. */
module MoqAnnounceReplies {
  import opened MoqParser
  import opened MoqWire
  import opened Octets
  import opened Options

  /** The peer's messages behind the answer; types other than the two are skipped. */
  datatype Msg =
    | Started(suffix: Bytes, hops: seq<nat>, warm: nat, cold: nat)
    | Ended(id: nat)
    | Other(tag: nat, body: Bytes)

  predicate Fields(m: Msg) {
    match m
    case Started(suffix, hops, warm, cold) =>
      && |suffix| <= MAX_MESSAGE && |hops| <= 32 && (forall i :: 0 <= i < |hops| ==> hops[i] <= VARINT_MAX)
      && warm <= VARINT_MAX && cold <= VARINT_MAX
    case Ended(id) => id <= VARINT_MAX
    case Other(tag, _) => 2 <= tag <= VARINT_MAX
  }

  function HopsBytes(hops: seq<nat>): Bytes
    requires forall i :: 0 <= i < |hops| ==> hops[i] <= VARINT_MAX
  {
    if hops == [] then [] else VarintBytes(hops[0]) + HopsBytes(hops[1..])
  }

  function Body(m: Msg): Bytes
    requires Fields(m)
  {
    match m
    case Started(suffix, hops, warm, cold) =>
      StrBytes(suffix) + VarintBytes(|hops|) + HopsBytes(hops) + VarintBytes(warm) + VarintBytes(cold)
    case Ended(id) => VarintBytes(id)
    case Other(_, body) => body
  }

  function Tag(m: Msg): nat {
    match m case Started(_, _, _, _) => 0 case Ended(_) => 1 case Other(tag, _) => tag
  }

  predicate Encodable(m: Msg) {
    Fields(m) && |Body(m)| <= MAX_MESSAGE
  }

  predicate AllEncodable(ms: seq<Msg>) {
    forall i :: 0 <= i < |ms| ==> Encodable(ms[i])
  }

  function Wire(m: Msg): Bytes
    requires Encodable(m)
  {
    VarintBytes(Tag(m)) + MsgBytes(Body(m))
  }

  function WireAll(ms: seq<Msg>): Bytes
    requires AllEncodable(ms)
    decreases |ms|
  {
    if ms == [] then [] else WireAll(ms[..|ms| - 1]) + Wire(ms[|ms| - 1])
  }

  // ------------------------------------------------------------------
  // What is reported
  // ------------------------------------------------------------------

  /** How many broadcasts were started. */
  function Starts(ms: seq<Msg>): nat
    decreases |ms|
  {
    if ms == [] then 0 else Starts(ms[..|ms| - 1]) + (if ms[|ms| - 1].Started? then 1 else 0)
  }

  /** The path of the k-th. */
  function PathOf(prefix: Bytes, ms: seq<Msg>, k: nat): Bytes
    requires k < Starts(ms)
    decreases |ms|
  {
    var n := |ms| - 1;
    if ms[n].Started? && k == Starts(ms[..n]) then JoinPath(prefix, CString(ms[n].suffix))
    else PathOf(prefix, ms[..n], k)
  }

  /** The k-th was started and then ended. */
  predicate Over(ms: seq<Msg>, k: nat)
    decreases |ms|
  {
    ms != [] &&
    (var n := |ms| - 1;
     Over(ms[..n], k) || (ms[n] == Ended(k) && k < Starts(ms[..n])))
  }

  /** The handles of other streams with this number that are alive. */
  function AliveWith(others: seq<Broadcast>, id: nat): seq<Event>
    decreases |others|
  {
    if others == [] then []
    else
      var b := others[|others| - 1];
      AliveWith(others[..|others| - 1], id) + (if !b.dead && b.id == id then [AnnounceEnded(b.path)] else [])
  }

  /** What one more message reports: a start its path; an end the broadcast of this stream
      with that number, if it was started and not ended before, and those of other streams
      with the same number. */
  function Report(prefix: Bytes, others: seq<Broadcast>, before: seq<Msg>, m: Msg): seq<Event> {
    match m
    case Started(suffix, _, _, _) => [Announced(JoinPath(prefix, CString(suffix)), CString(suffix))]
    case Ended(id) =>
      (if Ended(id) in before then [] else AliveWith(others, id))
      + (if id < Starts(before) && !Over(before, id) then [AnnounceEnded(PathOf(prefix, before, id))] else [])
    case Other(_, _) => []
  }

  function Reports(prefix: Bytes, others: seq<Broadcast>, ms: seq<Msg>): seq<Event>
    decreases |ms|
  {
    if ms == [] then []
    else Reports(prefix, others, ms[..|ms| - 1]) + Report(prefix, others, ms[..|ms| - 1], ms[|ms| - 1])
  }

  // ------------------------------------------------------------------
  // The handles
  // ------------------------------------------------------------------

  lemma {:induction false} NotOver(ms: seq<Msg>, k: nat)
    ensures Over(ms, k) ==> k < Starts(ms)
    decreases |ms|
  {
    if ms != [] {
      NotOver(ms[..|ms| - 1], k);
    }
  }

  function Own(prefix: Bytes, ms: seq<Msg>): seq<Broadcast> {
    seq(Starts(ms), i requires 0 <= i < Starts(ms) => Broadcast(i, PathOf(prefix, ms, i), Over(ms, i)))
  }

  function Others(others: seq<Broadcast>, ms: seq<Msg>): seq<Broadcast> {
    seq(|others|, i requires 0 <= i < |others| =>
      others[i].(dead := others[i].dead || Ended(others[i].id) in ms))
  }

  /** The record behind these messages. */
  function After(c: Control, ms: seq<Msg>): Control {
    c.(log := c.log + Reports(c.prefix, c.bcs, ms),
       annNext := Starts(ms),
       annExpect := if c.annExpect > Starts(ms) then c.annExpect - Starts(ms) else 0,
       bcs := Others(c.bcs, ms) + Own(c.prefix, ms))
  }

  lemma EndEventsPush(bcs: seq<Broadcast>, b: Broadcast, id: nat)
    ensures EndEvents(bcs + [b], id) == EndEvents(bcs, id) + (if !b.dead && b.id == id then [AnnounceEnded(b.path)] else [])
  {
    assert (bcs + [b])[..|bcs|] == bcs;
  }

  lemma NoEndEvents(id: nat)
    ensures EndEvents([], id) == []
  {
  }

  lemma Regroup<T>(a: seq<T>, b: seq<T>, c: seq<T>)
    ensures (a + b) + c == a + (b + c)
  {
  }

  lemma {:induction false} EndEventsSplit(a: seq<Broadcast>, b: seq<Broadcast>, id: nat)
    ensures EndEvents(a + b, id) == EndEvents(a, id) + EndEvents(b, id)
    decreases |b|
  {
    hide EndEvents;
    if b == [] {
      NoEndEvents(id);
      assert a + b == a;
    } else {
      var front, last := b[..|b| - 1], b[|b| - 1];
      EndEventsSplit(a, front, id);
      EndEventsPush(a + front, last, id);
      EndEventsPush(front, last, id);
      Regroup(a, front, [last]);
      Regroup(EndEvents(a, id), EndEvents(front, id), if !last.dead && last.id == id then [AnnounceEnded(last.path)] else []);
      assert front + [last] == b;
    }
  }

  lemma EndBroadcastsSplit(a: seq<Broadcast>, b: seq<Broadcast>, id: nat)
    ensures EndBroadcasts(a + b, id) == EndBroadcasts(a, id) + EndBroadcasts(b, id)
  {
  }

  /** Handles whose numbers are their places. */
  lemma {:induction false} OwnEvents(bcs: seq<Broadcast>, id: nat)
    requires forall i :: 0 <= i < |bcs| ==> bcs[i].id == i
    ensures EndEvents(bcs, id) == if id < |bcs| && !bcs[id].dead then [AnnounceEnded(bcs[id].path)] else []
    decreases |bcs|
  {
    if bcs != [] {
      var n := |bcs| - 1;
      OwnEvents(bcs[..n], id);
      var last := if !bcs[n].dead && n == id then [AnnounceEnded(bcs[n].path)] else [];
      assert EndEvents(bcs, id) == EndEvents(bcs[..n], id) + last;
      assert [] + last == last && EndEvents(bcs[..n], id) + [] == EndEvents(bcs[..n], id);
    }
  }

  lemma {:induction false} OtherEvents(others: seq<Broadcast>, ms: seq<Msg>, id: nat)
    ensures EndEvents(Others(others, ms), id) == if Ended(id) in ms then [] else AliveWith(others, id)
    decreases |others|
  {
    if others != [] {
      var n := |others| - 1;
      OtherEvents(others[..n], ms, id);
      assert Others(others, ms)[..n] == Others(others[..n], ms);
    }
  }

  lemma EndMarks(prefix: Bytes, others: seq<Broadcast>, ms: seq<Msg>, id: nat)
    ensures EndBroadcasts(Others(others, ms), id) == Others(others, ms + [Ended(id)])
    ensures EndBroadcasts(Own(prefix, ms), id) == Own(prefix, ms + [Ended(id)])
  {
    var all := ms + [Ended(id)];
    assert all[..|ms|] == ms;
    assert Starts(all) == Starts(ms);
    forall i | 0 <= i < Starts(ms)
      ensures EndBroadcasts(Own(prefix, ms), id)[i] == Own(prefix, all)[i]
    {
    }
  }

  lemma StartAdds(prefix: Bytes, others: seq<Broadcast>, ms: seq<Msg>, m: Msg)
    requires m.Started?
    ensures Others(others, ms + [m]) == Others(others, ms)
    ensures Own(prefix, ms + [m]) == Own(prefix, ms) + [Broadcast(Starts(ms), JoinPath(prefix, CString(m.suffix)), false)]
  {
    var all := ms + [m];
    assert all[..|ms|] == ms;
    NotOver(ms, Starts(ms));
    forall i | 0 <= i < Starts(ms)
      ensures Own(prefix, all)[i] == Own(prefix, ms)[i]
    {
    }
  }

  lemma OtherAdds(prefix: Bytes, others: seq<Broadcast>, ms: seq<Msg>, m: Msg)
    requires m.Other?
    ensures Others(others, ms + [m]) == Others(others, ms) && Own(prefix, ms + [m]) == Own(prefix, ms)
    ensures Starts(ms + [m]) == Starts(ms)
  {
    assert (ms + [m])[..|ms|] == ms;
  }

  // ------------------------------------------------------------------
  // Reading them
  // ------------------------------------------------------------------

  lemma {:induction false} HopsAreSkipped(hops: seq<nat>, rest: Bytes)
    requires forall i :: 0 <= i < |hops| ==> hops[i] <= VARINT_MAX
    ensures SkipVarints(HopsBytes(hops) + rest, |hops|) == Some(rest)
    decreases |hops|
  {
    hide VarintBytes;
    hide ReadVarint;
    if hops == [] {
      assert [] + rest == rest;
    } else {
      var h, more := VarintBytes(hops[0]), HopsBytes(hops[1..]);
      assert HopsBytes(hops) + rest == h + (more + rest);
      VarintRoundTrip(hops[0], more + rest);
      assert (h + (more + rest))[|h|..] == more + rest;
      HopsAreSkipped(hops[1..], rest);
    }
  }

  lemma StartBody(m: Msg)
    requires m.Started? && Fields(m)
    ensures ReadAnnounceStart(Body(m)) == Some(m.suffix)
  {
    hide VarintBytes;
    hide ReadVarint;
    hide StrBytes;
    hide ReadStr;
    hide SkipVarints;
    hide HopsBytes;
    hide ReadTwo;
    var str, count, hops, costs := StrBytes(m.suffix), VarintBytes(|m.hops|), HopsBytes(m.hops), VarintBytes(m.warm) + VarintBytes(m.cold);
    assert Body(m) == str + (count + (hops + costs));
    StrRoundTrip(m.suffix, count + (hops + costs));
    assert Body(m)[|str|..] == count + (hops + costs);
    VarintRoundTrip(|m.hops|, hops + costs);
    assert Body(m)[|str| + |count|..] == hops + costs;
    HopsAreSkipped(m.hops, costs);
    TwoFields(m.warm, m.cold);
  }

  lemma ReportsPush(prefix: Bytes, others: seq<Broadcast>, ms: seq<Msg>, m: Msg)
    ensures Reports(prefix, others, ms + [m]) == Reports(prefix, others, ms) + Report(prefix, others, ms, m)
    ensures Starts(ms + [m]) == Starts(ms) + (if m.Started? then 1 else 0)
  {
    assert (ms + [m])[..|ms|] == ms;
  }

  lemma StepIsAfter(c: Control, ms: seq<Msg>, m: Msg)
    requires Fields(m)
    ensures OnAnnounce(After(c, ms), Tag(m), Body(m)) == Go(After(c, ms + [m]))
  {
    hide *;
    match m
    case Started(_, _, _, _) => StartIsAfter(c, ms, m);
    case Ended(id) => EndIsAfter(c, ms, id);
    case Other(_, _) => OtherIsAfter(c, ms, m);
  }

  lemma StartIsAfter(c: Control, ms: seq<Msg>, m: Msg)
    requires Fields(m) && m.Started?
    ensures Tag(m) == 0 && OnAnnounce(After(c, ms), Tag(m), Body(m)) == Go(After(c, ms + [m]))
  {
    hide Reports;
    hide Report;
    hide Own;
    hide Others;
    hide Body;
    hide JoinPath;
    hide CString;
    hide ReadAnnounceStart;
    var a, b := After(c, ms), After(c, ms + [m]);
    ReportsPush(c.prefix, c.bcs, ms, m);
    StartBody(m);
    StartAdds(c.prefix, c.bcs, ms, m);
    ReportIs(c.prefix, c.bcs, ms, m);
    var path := JoinPath(c.prefix, CString(m.suffix));
    assert a.bcs + [Broadcast(Starts(ms), path, false)] == b.bcs;
    assert a.log + [Announced(path, CString(m.suffix))] == b.log;
  }

  lemma EndIsAfter(c: Control, ms: seq<Msg>, id: nat)
    requires Fields(Ended(id))
    ensures OnAnnounce(After(c, ms), Tag(Ended(id)), Body(Ended(id))) == Go(After(c, ms + [Ended(id)]))
  {
    hide Reports;
    hide Report;
    hide Own;
    hide Others;
    hide Body;
    hide EndEvents;
    hide EndBroadcasts;
    hide ReadOne;
    var a, b := After(c, ms), After(c, ms + [Ended(id)]);
    ReportsPush(c.prefix, c.bcs, ms, Ended(id));
    assert id <= VARINT_MAX;
    EndBody(id);
    EndMarks(c.prefix, c.bcs, ms, id);
    EndIsReported(c.prefix, c.bcs, ms, id);
    EndBroadcastsSplit(Others(c.bcs, ms), Own(c.prefix, ms), id);
    assert a.log + Report(c.prefix, c.bcs, ms, Ended(id)) == b.log;
  }

  lemma OtherIsAfter(c: Control, ms: seq<Msg>, m: Msg)
    requires Fields(m) && m.Other?
    ensures OnAnnounce(After(c, ms), Tag(m), Body(m)) == Go(After(c, ms + [m]))
  {
    hide Reports;
    hide Report;
    hide Own;
    hide Others;
    hide Body;
    ReportsPush(c.prefix, c.bcs, ms, m);
    OtherAdds(c.prefix, c.bcs, ms, m);
    ReportIs(c.prefix, c.bcs, ms, m);
    assert After(c, ms + [m]) == After(c, ms);
  }

  lemma EndBody(id: nat)
    requires id <= VARINT_MAX
    ensures ReadOne(Body(Ended(id))) == Some(id)
  {
    VarintRoundTrip(id, []);
    assert VarintBytes(id) + [] == VarintBytes(id);
  }

  lemma ReportIs(prefix: Bytes, others: seq<Broadcast>, ms: seq<Msg>, m: Msg)
    requires !m.Ended?
    ensures Report(prefix, others, ms, m) ==
              if m.Started? then [Announced(JoinPath(prefix, CString(m.suffix)), CString(m.suffix))] else []
    ensures Reports(prefix, others, ms) + [] == Reports(prefix, others, ms)
  {
  }

  lemma EndIsReported(prefix: Bytes, others: seq<Broadcast>, ms: seq<Msg>, id: nat)
    ensures EndEvents(Others(others, ms) + Own(prefix, ms), id) == Report(prefix, others, ms, Ended(id))
  {
    EndEventsSplit(Others(others, ms), Own(prefix, ms), id);
    OtherEvents(others, ms, id);
    OwnEvents(Own(prefix, ms), id);
  }

  lemma {:induction false} MessagesAreRead(subs: set<nat>, c: Control, ms: seq<Msg>)
    requires c.typed && c.kind.Announce? && c.annOk && c.annNext == 0 && AllEncodable(ms)
    ensures Drain(subs, Stream(c, WireAll(ms))) == Waiting(Stream(After(c, ms), []))
    decreases |ms|
  {
    hide Drain;
    hide VarintBytes;
    hide MsgBytes;
    hide After;
    hide Body;
    hide TaggedUnit;
    if ms == [] {
      Idle(subs, c);
      NothingAfter(c);
    } else {
      var n := |ms| - 1;
      var m := ms[n];
      MessagesAreRead(subs, c, ms[..n]);
      var c1 := After(c, ms[..n]);
      AfterKeeps(c, ms[..n]);
      DrainTwo(subs, c, WireAll(ms[..n]), c1, Wire(m));
      TaggedMessage(Tag(m), Body(m));
      StepIsAfter(c, ms[..n], m);
      assert ms[..n] + [m] == ms;
      var u := Unit(Tag(m), Body(m), |Wire(m)|);
      assert OnUnit(subs, c1, u) == OnAnnounce(c1, Tag(m), Body(m));
      OneUnit(subs, c1, Wire(m), u, After(c, ms));
    }
  }

  lemma AfterKeeps(c: Control, ms: seq<Msg>)
    ensures var a := After(c, ms); a.typed == c.typed && a.kind == c.kind && a.annOk == c.annOk
  {
  }

  lemma NothingAfter(c: Control)
    requires c.annNext == 0
    ensures After(c, []) == c
  {
    assert Others(c.bcs, []) == c.bcs && Own(c.prefix, []) == [];
  }

  lemma OkIsRead(subs: set<nat>, c: Control, origin: nat, active: nat)
    requires origin <= VARINT_MAX && active <= VARINT_MAX && c.typed && c.kind.Announce? && !c.annOk
    ensures Drain(subs, Stream(c, AnnounceOkBytes(origin, active)))
            == Waiting(Stream(c.(annOk := true, annExpect := active), []))
  {
    hide Drain;
    var body := VarintBytes(origin) + VarintBytes(active);
    var msg := MsgBytes(body);
    TwoFields(origin, active);
    MsgRoundTrip(body, []);
    assert msg + [] == msg;
    hide ReadMsg;
    hide MsgBytes;
    hide VarintBytes;
    OneUnit(subs, c, msg, Unit(0, body, |msg|), c.(annOk := true, annExpect := active));
  }

  /** However the bytes of an answer and the messages behind it are cut: exactly the reports
      of those messages, in order. With one announce stream in the session there are no other
      handles, and ANNOUNCE_END n reports the end of the n-th broadcast started, once. */
  lemma MessagesAreHeard(subs: set<nat>, prefix: Bytes, others: seq<Broadcast>, origin: nat, active: nat,
                         ms: seq<Msg>, chunks: seq<Bytes>)
    requires origin <= VARINT_MAX && active <= VARINT_MAX && AllEncodable(ms)
    requires var st := Stream(NewLocal(Announce, prefix).ctl.(bcs := others), []);
             Fits(subs, st, chunks) && Concat(chunks) == AnnounceOkBytes(origin, active) + WireAll(ms)
    ensures var c := DataAll(subs, Stream(NewLocal(Announce, prefix).ctl.(bcs := others), []), chunks).ctl;
            && c.log == Reports(prefix, others, ms)
            && c.annExpect == (if active > Starts(ms) then active - Starts(ms) else 0)
  {
    hide Drain;
    hide DataAll;
    var st := Stream(NewLocal(Announce, prefix).ctl.(bcs := others), []);
    var c := st.ctl.(annOk := true, annExpect := active);
    Idle(subs, st.ctl);
    OkIsRead(subs, st.ctl, origin, active);
    DrainTwo(subs, st.ctl, AnnounceOkBytes(origin, active), c, WireAll(ms));
    MessagesAreRead(subs, c, ms);
    assert st.Plus(Concat(chunks)) == Stream(st.ctl, AnnounceOkBytes(origin, active) + WireAll(ms));
    ChunksAreOne(subs, st, chunks);
    assert [] + Reports(prefix, others, ms) == Reports(prefix, others, ms);
  }

  lemma {:induction false} AliveWithNone(others: seq<Broadcast>, id: nat)
    ensures AliveWith(others, id) == [] <==> forall i :: 0 <= i < |others| ==> others[i].dead || others[i].id != id
    decreases |others|
  {
    if others != [] {
      var n := |others| - 1;
      AliveWithNone(others[..n], id);
      assert forall i :: 0 <= i < n ==> others[..n][i] == others[i];
    }
  }

  /** The numbers count per stream, but the handles are searched in the whole session: an
      ANNOUNCE_END concerns its own stream only exactly if no broadcast of another announce
      stream with that number is alive (or it was ended so before). */
  lemma EndIsOwnIff(prefix: Bytes, others: seq<Broadcast>, before: seq<Msg>, id: nat)
    ensures Report(prefix, others, before, Ended(id)) == Report(prefix, [], before, Ended(id)) <==>
              Ended(id) in before || forall i :: 0 <= i < |others| ==> others[i].dead || others[i].id != id
  {
    AliveWithNone(others, id);
    var own := if id < Starts(before) && !Over(before, id) then [AnnounceEnded(PathOf(prefix, before, id))] else [];
    var alive := if Ended(id) in before then [] else AliveWith(others, id);
    assert [] + own == own;
    assert |alive + own| == |alive| + |own|;
  }

  /** Nothing was started on this stream, and still the end of another one's broadcast is
      reported. */
  lemma EndCrossesStreams(prefix: Bytes, path: Bytes)
    ensures Reports(prefix, [Broadcast(0, path, false)], [Ended(0)]) == [AnnounceEnded(path)]
  {
    var others := [Broadcast(0, path, false)];
    assert [Ended(0)][..0] == [] && others[..0] == [];
    assert AliveWith(others, 0) == [AnnounceEnded(path)];
    assert Report(prefix, others, [], Ended(0)) == [AnnounceEnded(path)];
  }

  /** A message of one of the two types with other fields than expected stays in the buffer,
      asks for a reset, and makes no other callback. */
  lemma MalformedIsKept(subs: set<nat>, c: Control, tag: nat, body: Bytes)
    requires c.typed && c.kind.Announce? && c.annOk && tag < 2 && |body| <= MAX_MESSAGE
    requires if tag == 0 then ReadAnnounceStart(body).None? else ReadOne(body).None?
    ensures var s := VarintBytes(tag) + MsgBytes(body);
            Drain(subs, Stream(c, s)) == Stopped(Stream(c.Emit(Reset(INTERNAL_ERROR)), s))
  {
    hide VarintBytes;
    hide MsgBytes;
    hide TaggedUnit;
    hide ReadOne;
    hide ReadAnnounceStart;
    TaggedMessage(tag, body);
    var s := VarintBytes(tag) + MsgBytes(body);
    assert OnUnit(subs, c, Unit(tag, body, |s|)) == OnAnnounce(c, tag, body);
    assert Step(subs, Stream(c, s)) == Stop(Stream(c.Emit(Reset(INTERNAL_ERROR)), s));
  }

  /** A start with more than 32 hops is such a message. */
  lemma TooManyHops(suffix: Bytes, count: nat, rest: Bytes)
    requires |suffix| <= MAX_MESSAGE && 32 < count <= VARINT_MAX
    ensures ReadAnnounceStart(StrBytes(suffix) + VarintBytes(count) + rest) == None
  {
    hide StrBytes;
    hide ReadStr;
    hide VarintBytes;
    hide ReadVarint;
    var str, body := StrBytes(suffix), StrBytes(suffix) + VarintBytes(count) + rest;
    assert body == str + (VarintBytes(count) + rest);
    StrRoundTrip(suffix, VarintBytes(count) + rest);
    assert body[|str|..] == VarintBytes(count) + rest;
    VarintRoundTrip(count, rest);
  }
}
