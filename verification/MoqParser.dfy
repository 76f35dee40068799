/** The resumable parsers of moq-lite: group streams, announce replies and subscribe
    replies. All progress lives in the stream record; each arrival of data appends to
    its buffer and parses as far as it goes. */
module MoqParser {
  import opened MoqWire
  import opened Octets
  import opened Options

  // ------------------------------------------------------------------
  // The stream record
  // ------------------------------------------------------------------

  datatype Kind = Setup | Announce | Group | Subscribe

  /** kStreamInternalError, kStreamCancelled */
  const INTERNAL_ERROR: nat := 0
  const CANCELLED: nat := 1

  /** MOQ_MAX_HOPS */
  const MAX_HOPS: nat := 32

  /** MOQ_MAX_RECV_BUF */
  const MAX_RECV_BUF: nat := MAX_MESSAGE + 1024

  /** The callbacks made, and the resets asked for. */
  datatype Event =
    | Frame(sub: nat, group: nat, index: nat, delta: int, payload: Bytes)
    | GroupEnd(sub: nat, group: nat)
    | Announced(path: Bytes, suffix: Bytes)
    | AnnounceEnded(path: Bytes)
    | SubscribeStart(group: nat)
    | SubscribeEnd(group: nat)
    | Drop(first: nat, last: nat, code: nat)
    | Reset(code: nat)

  /** A broadcast handle. */
  datatype Broadcast = Broadcast(id: nat, path: Bytes, dead: bool)

  /** Everything in the record but the unparsed bytes. */
  datatype Control = Control(
    kind: Kind, typed: bool, done: bool, fin: bool,
    hdrDone: bool, endNotified: bool, subId: nat, group: nat, frameIndex: nat, tsAcc: int,
    annOk: bool, annExpect: nat, annNext: nat, prefix: Bytes, bcs: seq<Broadcast>,
    log: seq<Event>)
  {
    function Emit(e: Event): Control { this.(log := log + [e]) }
  }

  datatype Stream = Stream(ctl: Control, buf: Bytes) {
    function Plus(more: Bytes): Stream { Stream(ctl, buf + more) }
  }

  /** A peer's unidirectional stream seen for the first time. */
  const NewUni := Stream(Control(Group, false, false, false, false, false, 0, 0, 0, 0, false, 0, 0, [], [], []), [])

  /** A stream of our own: the peer only sends replies on it, without a stream type. */
  function NewLocal(kind: Kind, prefix: Bytes): Stream {
    Stream(NewUni.ctl.(kind := kind, typed := true, prefix := prefix), [])
  }

  // ------------------------------------------------------------------
  // Message bodies: every field present and nothing behind the last one
  // ------------------------------------------------------------------

  function ReadOne(s: Bytes): Option<nat> {
    match ReadVarint(s)
    case None => None
    case Some(a) => if a.size == |s| then Some(a.value) else None
  }

  function ReadTwo(s: Bytes): Option<(nat, nat)> {
    match ReadVarint(s)
    case None => None
    case Some(a) =>
      match ReadOne(s[a.size..])
      case None => None
      case Some(b) => Some((a.value, b))
  }

  function ReadThree(s: Bytes): Option<(nat, nat, nat)> {
    match ReadVarint(s)
    case None => None
    case Some(a) =>
      match ReadTwo(s[a.size..])
      case None => None
      case Some(b) => Some((a.value, b.0, b.1))
  }

  /** What is left behind `n` integers. */
  function SkipVarints(s: Bytes, n: nat): Option<Bytes>
    decreases n
  {
    if n == 0 then Some(s)
    else
      match ReadVarint(s)
      case None => None
      case Some(a) => SkipVarints(s[a.size..], n - 1)
  }

  /** ANNOUNCE_START: suffix, hop ids, warm and cold cost. */
  function ReadAnnounceStart(s: Bytes): Option<Bytes> {
    match ReadStr(s)
    case None => None
    case Some(suffix) =>
      match ReadVarint(s[suffix.size..])
      case None => None
      case Some(hops) =>
        if hops.value > MAX_HOPS then None
        else
          match SkipVarints(s[suffix.size + hops.size..], hops.value)
          case None => None
          case Some(costs) => if ReadTwo(costs).Some? then Some(suffix.value) else None
  }

  // Bodies are exact: with anything behind the last field they are malformed, and so, as a
  // body that is read has no front that is, with anything missing.

  lemma ExactOne(s: Bytes, more: Bytes)
    requires ReadOne(s).Some? && more != []
    ensures ReadOne(s + more) == None
  {
    hide ReadVarint;
    VarintPrefix(s, more);
  }

  lemma ExactTwo(s: Bytes, more: Bytes)
    requires ReadTwo(s).Some? && more != []
    ensures ReadTwo(s + more) == None
  {
    hide ReadVarint;
    hide ReadOne;
    VarintPrefix(s, more);
    var n := ReadVarint(s).value.size;
    assert (s + more)[n..] == s[n..] + more;
    ExactOne(s[n..], more);
  }

  lemma ExactThree(s: Bytes, more: Bytes)
    requires ReadThree(s).Some? && more != []
    ensures ReadThree(s + more) == None
  {
    hide ReadVarint;
    hide ReadTwo;
    VarintPrefix(s, more);
    var n := ReadVarint(s).value.size;
    assert (s + more)[n..] == s[n..] + more;
    ExactTwo(s[n..], more);
  }

  lemma {:induction false} SkipPrefix(s: Bytes, n: nat, more: Bytes)
    requires SkipVarints(s, n).Some?
    ensures SkipVarints(s + more, n) == Some(SkipVarints(s, n).value + more)
    decreases n
  {
    if n > 0 {
      hide ReadVarint;
      VarintPrefix(s, more);
      var k := ReadVarint(s).value.size;
      assert (s + more)[k..] == s[k..] + more;
      SkipPrefix(s[k..], n - 1, more);
    }
  }

  lemma ExactAnnounceStart(s: Bytes, more: Bytes)
    requires ReadAnnounceStart(s).Some? && more != []
    ensures ReadAnnounceStart(s + more) == None
  {
    hide ReadVarint;
    hide ReadStr;
    hide ReadTwo;
    hide SkipVarints;
    StrPrefix(s, more);
    var n := ReadStr(s).value.size;
    assert (s + more)[n..] == s[n..] + more;
    VarintPrefix(s[n..], more);
    var hops := ReadVarint(s[n..]).value;
    var k := n + hops.size;
    assert (s + more)[k..] == s[k..] + more;
    SkipPrefix(s[k..], hops.value, more);
    ExactTwo(SkipVarints(s[k..], hops.value).value, more);
  }

  /** A wire string as the C string it is copied into: up to the first NUL. */
  function CString(s: Bytes): Bytes {
    if s == [] || s[0] == 0 then [] else [s[0]] + CString(s[1..])
  }

  const SLASH: Octet := 0x2F

  /** The front up to the first NUL. */
  lemma {:induction false} CStringIsFront(s: Bytes)
    ensures var n := |CString(s)|;
            && n <= |s| && CString(s) == s[..n] && (n < |s| ==> s[n] == 0) && forall i :: 0 <= i < n ==> s[i] != 0
  {
    if s != [] && s[0] != 0 {
      CStringIsFront(s[1..]);
      assert s[..|CString(s)|] == [s[0]] + s[1..][..|CString(s[1..])|];
    }
  }

  /** join_path */
  function JoinPath(prefix: Bytes, suffix: Bytes): Bytes {
    if prefix == [] then suffix
    else if suffix == [] then prefix
    else prefix + [SLASH] + suffix
  }

  // ------------------------------------------------------------------
  // One unit of parsing
  // ------------------------------------------------------------------

  /** The next thing in the buffer: a stream type, a message, or a message behind an
      integer (a message type or a time stamp difference). */
  datatype Unit = Incomplete | Oversize | Unit(tag: nat, body: Bytes, size: nat)

  function TypeUnit(s: Bytes): Unit {
    match ReadVarint(s)
    case None => Incomplete
    case Some(t) => Unit(t.value, [], t.size)
  }

  function PlainUnit(s: Bytes): Unit {
    match ReadMsg(s)
    case NeedMore => Incomplete
    case TooLarge => Oversize
    case Message(start, end) => Unit(0, s[start..end], end)
  }

  function TaggedUnit(s: Bytes): Unit {
    match ReadVarint(s)
    case None => Incomplete
    case Some(t) =>
      match PlainUnit(s[t.size..])
      case Incomplete => Incomplete
      case Oversize => Oversize
      case Unit(_, body, size) => Unit(t.value, body, t.size + size)
  }

  /** The first message of a group or an announce reply carries no tag. */
  predicate PlainPhase(ctl: Control) {
    ctl.typed && ((ctl.kind.Group? && !ctl.hdrDone) || (ctl.kind.Announce? && !ctl.annOk))
  }

  function NextUnit(ctl: Control, s: Bytes): (u: Unit)
    ensures u.Unit? ==> 1 <= u.size <= |s|
  {
    if !ctl.typed then TypeUnit(s)
    else if PlainPhase(ctl) then PlainUnit(s)
    else TaggedUnit(s)
  }

  /** The unit was used and parsing goes on, or the parser returns early, with the unit
      consumed or left in the buffer. */
  datatype Verdict = Go(ctl: Control) | Halt(ctl: Control, eaten: bool)

  /** The stream type of a unidirectional stream: 1 is the peer's setup, read and
      forgotten; anything else is a group. */
  function OnType(ctl: Control, tag: nat): Verdict {
    if tag == 1 then Halt(ctl.(typed := true, kind := Setup, done := true), true)
    else Go(ctl.(typed := true, kind := Group))
  }

  function Refuse(ctl: Control, code: nat): Control {
    ctl.Emit(Reset(code)).(done := true)
  }

  function OnGroupHeader(subs: set<nat>, ctl: Control, body: Bytes): Verdict {
    match ReadThree(body)
    case None => Halt(Refuse(ctl, INTERNAL_ERROR), false)
    case Some(h) =>
      if h.0 !in subs then Halt(Refuse(ctl, CANCELLED), false)
      else Go(ctl.(hdrDone := true, subId := h.0, group := h.1, frameIndex := h.2, tsAcc := 0))
  }

  /** The end-of-group marker: a time stamp and nothing behind it. */
  predicate Marker(payload: Bytes) {
    ReadVarint(payload).Some? && ReadVarint(payload).value.size >= |payload|
  }

  /** sub_deliver_frame: empty frames and the marker are not handed on. */
  function Deliver(ctl: Control, delta: int, payload: Bytes): Control {
    if payload == [] || Marker(payload) then ctl
    else ctl.Emit(Frame(ctl.subId, ctl.group, ctl.frameIndex, delta, payload))
  }

  function OnFrame(subs: set<nat>, ctl: Control, tag: nat, body: Bytes): Verdict
    requires tag < TWO64
  {
    var delta := ZigzagDecode(tag);
    var ctl' := if ctl.subId in subs then Deliver(ctl, delta, body) else ctl;
    Go(ctl'.(tsAcc := ctl.tsAcc + delta, frameIndex := ctl.frameIndex + 1))
  }

  function OnAnnounceOk(ctl: Control, body: Bytes): Verdict {
    match ReadTwo(body)
    case None => Halt(ctl.Emit(Reset(INTERNAL_ERROR)), false)
    case Some(h) => Go(ctl.(annOk := true, annExpect := h.1))
  }

  /** Marks the handles of an announce id dead. */
  function EndBroadcasts(bcs: seq<Broadcast>, id: nat): seq<Broadcast> {
    seq(|bcs|, i requires 0 <= i < |bcs| => if bcs[i].id == id then bcs[i].(dead := true) else bcs[i])
  }

  /** One report for each of them that was alive. */
  function EndEvents(bcs: seq<Broadcast>, id: nat): seq<Event>
    decreases |bcs|
  {
    if bcs == [] then []
    else
      var n := |bcs| - 1;
      EndEvents(bcs[..n], id)
      + (if !bcs[n].dead && bcs[n].id == id then [AnnounceEnded(bcs[n].path)] else [])
  }

  /** A malformed announce message is left in the buffer. */
  function OnAnnounce(ctl: Control, tag: nat, body: Bytes): Verdict {
    if tag == 0 then
      match ReadAnnounceStart(body)
      case None => Halt(ctl.Emit(Reset(INTERNAL_ERROR)), false)
      case Some(suffix) =>
        var sfx := CString(suffix);
        var path := JoinPath(ctl.prefix, sfx);
        Go(ctl.Emit(Announced(path, sfx)).(
           annNext := ctl.annNext + 1,
           annExpect := if ctl.annExpect > 0 then ctl.annExpect - 1 else 0,
           bcs := ctl.bcs + [Broadcast(ctl.annNext, path, false)]))
    else if tag == 1 then
      match ReadOne(body)
      case None => Halt(ctl.Emit(Reset(INTERNAL_ERROR)), false)
      case Some(id) => Go(ctl.(bcs := EndBroadcasts(ctl.bcs, id), log := ctl.log + EndEvents(ctl.bcs, id)))
    else Go(ctl)
  }

  /** A malformed subscribe reply is consumed before the parser returns. */
  function OnSubscribe(ctl: Control, tag: nat, body: Bytes): Verdict {
    var bad := Halt(ctl.Emit(Reset(INTERNAL_ERROR)), true);
    if tag == 0 then
      match ReadOne(body) case None => bad case Some(g) => Go(ctl.Emit(SubscribeStart(g)))
    else if tag == 1 then
      match ReadOne(body) case None => bad case Some(g) => Go(ctl.Emit(SubscribeEnd(g)))
    else if tag == 2 then
      match ReadThree(body) case None => bad case Some(d) => Go(ctl.Emit(Drop(d.0, d.1, d.2)))
    else Go(ctl)
  }

  /** A message above the size limit ends a group stream; on a reply stream the parser
      only asks for the reset. */
  function OnOversize(ctl: Control): Verdict {
    Halt(if ctl.kind.Group? then Refuse(ctl, INTERNAL_ERROR) else ctl.Emit(Reset(INTERNAL_ERROR)), false)
  }

  function OnUnit(subs: set<nat>, ctl: Control, u: Unit): Verdict
    requires u.Unit? && u.tag < TWO64
  {
    if !ctl.typed then OnType(ctl, u.tag)
    else
      match ctl.kind
      case Setup => Halt(ctl.(done := true), false)
      case Group => if ctl.hdrDone then OnFrame(subs, ctl, u.tag, u.body) else OnGroupHeader(subs, ctl, u.body)
      case Announce => if ctl.annOk then OnAnnounce(ctl, u.tag, u.body) else OnAnnounceOk(ctl, u.body)
      case Subscribe => OnSubscribe(ctl, u.tag, u.body)
  }

  datatype Outcome = More(st: Stream) | Wait | Stop(st: Stream)

  function Step(subs: set<nat>, st: Stream): (o: Outcome)
    ensures o.More? ==> |o.st.buf| < |st.buf|
  {
    match NextUnit(st.ctl, st.buf)
    case Incomplete => Wait
    case Oversize => Stop(Stream(OnOversize(st.ctl).ctl, st.buf))
    case Unit(tag, body, size) =>
      TagBelow64(st.ctl, st.buf);
      match OnUnit(subs, st.ctl, Unit(tag, body, size))
      case Go(ctl) => More(Stream(ctl, st.buf[size..]))
      case Halt(ctl, eaten) => Stop(Stream(ctl, if eaten then st.buf[size..] else st.buf))
  }

  lemma TagBelow64(ctl: Control, s: Bytes)
    ensures NextUnit(ctl, s).Unit? ==> NextUnit(ctl, s).tag < TWO64
  {
    if ReadVarint(s).Some? {
      VarintBelow64(s);
    }
  }

  lemma VarintBelow64(s: Bytes)
    requires ReadVarint(s).Some?
    ensures ReadVarint(s).value.value < TWO64
  {
    var n := Width(s[0]);
    FoldBound(s[0] % 64, s[1..n]);
  }

  lemma FoldBound(acc: nat, s: Bytes)
    requires acc < 64 && |s| <= 7
    ensures Fold(acc, s) <= VARINT_MAX
  {
    FoldBelow(acc, s);
  }

  /** Room left: `acc` and |s| further bytes stay below 64 * 256 ^ |s|. */
  function Room(n: nat): nat {
    if n == 0 then 64 else 256 * Room(n - 1)
  }

  lemma {:induction false} FoldBelow(acc: nat, s: Bytes)
    requires acc < 64
    ensures Fold(acc, s) < Room(|s|)
    ensures |s| <= 7 ==> Room(|s|) <= VARINT_MAX + 1
    decreases |s|
  {
    if s != [] {
      FoldBelow(acc, s[..|s| - 1]);
    }
    RoomIsSmall(|s|);
  }

  lemma RoomIsSmall(n: nat)
    ensures n <= 7 ==> Room(n) <= VARINT_MAX + 1
  {
    assert Room(1) == 64 * 256 && Room(2) == 64 * 256 * 256 && Room(3) == 0x4000_0000;
    assert Room(4) == 0x40_0000_0000 && Room(5) == 0x4000_0000_0000;
    assert Room(6) == 0x40_0000_0000_0000 && Room(7) == 0x4000_0000_0000_0000;
  }

  // ------------------------------------------------------------------
  // Parsing as far as it goes
  // ------------------------------------------------------------------

  datatype Drained = Waiting(st: Stream) | Stopped(st: Stream)

  function Drain(subs: set<nat>, st: Stream): Drained
    decreases |st.buf|
  {
    match Step(subs, st)
    case Wait => Waiting(st)
    case Stop(st') => Stopped(st')
    case More(st') => Drain(subs, st')
  }

  /** What the end of the stream does once no unit is left. */
  function Finish(subs: set<nat>, ctl: Control): Control {
    if ctl.typed && ctl.kind.Group? && ctl.hdrDone && !ctl.endNotified then
      var ctl' := ctl.(endNotified := true, done := true);
      if ctl.subId in subs then ctl'.Emit(GroupEnd(ctl.subId, ctl.group)) else ctl'
    else ctl.(done := true)
  }

  /** stream_parse */
  function Parse(subs: set<nat>, st: Stream): Stream {
    if st.ctl.done then st
    else
      match Drain(subs, st)
      case Waiting(st') => if st'.ctl.fin then Stream(Finish(subs, st'.ctl), st'.buf) else st'
      case Stopped(st') => st'
  }

  /** on_session_stream_data */
  function Data(subs: set<nat>, st: Stream, chunk: Bytes): Stream {
    if st.ctl.done then st
    else if chunk != [] && |st.buf| + |chunk| > MAX_RECV_BUF then
      Stream(Refuse(st.ctl, INTERNAL_ERROR), [])
    else Parse(subs, st.Plus(chunk))
  }

  /** on_session_stream_fin */
  function Fin(subs: set<nat>, st: Stream): Stream {
    if st.ctl.done then st else Parse(subs, Stream(st.ctl.(fin := true), st.buf))
  }

  function DataAll(subs: set<nat>, st: Stream, chunks: seq<Bytes>): Stream
    decreases |chunks|
  {
    if chunks == [] then st
    else Data(subs, DataAll(subs, st, chunks[..|chunks| - 1]), chunks[|chunks| - 1])
  }

  function Concat(chunks: seq<Bytes>): Bytes
    decreases |chunks|
  {
    if chunks == [] then [] else Concat(chunks[..|chunks| - 1]) + chunks[|chunks| - 1]
  }

  // ------------------------------------------------------------------
  // Chunk independence
  // ------------------------------------------------------------------

  /** A unit that is complete, or already oversize, stays what it is. */
  lemma UnitPrefix(ctl: Control, s: Bytes, more: Bytes)
    requires !NextUnit(ctl, s).Incomplete?
    ensures NextUnit(ctl, s + more) == NextUnit(ctl, s)
  {
    if !ctl.typed {
      VarintPrefix(s, more);
    } else if PlainPhase(ctl) {
      MsgPrefix(s, more);
    } else {
      VarintPrefix(s, more);
      var n := ReadVarint(s).value.size;
      DropAppend(s, more, n);
      MsgPrefix(s[n..], more);
    }
  }

  /** Whatever a step decides, it decides the same with more bytes behind. */
  lemma StepPrefix(subs: set<nat>, st: Stream, more: Bytes)
    requires !Step(subs, st).Wait?
    ensures Step(subs, st.Plus(more)) ==
              match Step(subs, st) { case More(st') => More(st'.Plus(more)) case Stop(st') => Stop(st'.Plus(more)) }
  {
    UnitPrefix(st.ctl, st.buf, more);
    var u := NextUnit(st.ctl, st.buf);
    if u.Unit? {
      DropAppend(st.buf, more, u.size);
    }
  }

  /** Parsing what is there and then the rest is parsing everything. */
  lemma {:induction false} DrainPrefix(subs: set<nat>, st: Stream, more: Bytes)
    ensures match Drain(subs, st)
            case Waiting(st') => Drain(subs, st.Plus(more)) == Drain(subs, st'.Plus(more))
            case Stopped(st') => Drain(subs, st.Plus(more)) == Stopped(st'.Plus(more))
    decreases |st.buf|
  {
    match Step(subs, st)
    case Wait =>
    case Stop(_) => StepPrefix(subs, st, more);
    case More(st') =>
      StepPrefix(subs, st, more);
      DrainPrefix(subs, st', more);
  }

  lemma GoKeeps(subs: set<nat>, ctl: Control, u: Unit)
    requires u.Unit? && u.tag < TWO64 && OnUnit(subs, ctl, u).Go?
    ensures OnUnit(subs, ctl, u).ctl.done == ctl.done && OnUnit(subs, ctl, u).ctl.fin == ctl.fin
  {
    if !ctl.typed {
      assert OnUnit(subs, ctl, u) == OnType(ctl, u.tag);
    } else if ctl.kind.Group? && ctl.hdrDone {
      assert OnUnit(subs, ctl, u) == OnFrame(subs, ctl, u.tag, u.body);
    } else if ctl.kind.Group? {
      assert OnUnit(subs, ctl, u) == OnGroupHeader(subs, ctl, u.body);
    } else if ctl.kind.Announce? && ctl.annOk {
      assert OnUnit(subs, ctl, u) == OnAnnounce(ctl, u.tag, u.body);
    } else if ctl.kind.Announce? {
      assert OnUnit(subs, ctl, u) == OnAnnounceOk(ctl, u.body);
    } else {
      assert OnUnit(subs, ctl, u) == OnSubscribe(ctl, u.tag, u.body);
    }
  }

  lemma StepKeeps(subs: set<nat>, st: Stream)
    requires Step(subs, st).More?
    ensures Step(subs, st).st.ctl.done == st.ctl.done && Step(subs, st).st.ctl.fin == st.ctl.fin
  {
    TagBelow64(st.ctl, st.buf);
    GoKeeps(subs, st.ctl, NextUnit(st.ctl, st.buf));
  }

  /** Waiting means that the next unit is incomplete; nothing was ended on the way. */
  lemma {:induction false} DrainWaits(subs: set<nat>, st: Stream)
    requires Drain(subs, st).Waiting?
    ensures Step(subs, Drain(subs, st).st).Wait?
    ensures Drain(subs, st).st.ctl.done == st.ctl.done && Drain(subs, st).st.ctl.fin == st.ctl.fin
    decreases |st.buf|
  {
    var o := Step(subs, st);
    if o.More? {
      StepKeeps(subs, st);
      DrainWaits(subs, o.st);
    }
  }

  /** A buffer that is exactly one unit: it is consumed, and the parser waits. */
  lemma OneUnit(subs: set<nat>, c: Control, s: Bytes, u: Unit, c': Control)
    requires NextUnit(c, s) == u && u.Unit? && u.size == |s| && u.tag < TWO64
    requires OnUnit(subs, c, u) == Go(c')
    ensures Drain(subs, Stream(c, s)) == Waiting(Stream(c', []))
  {
  }

  /** An empty buffer holds no unit. */
  lemma Idle(subs: set<nat>, c: Control)
    ensures Step(subs, Stream(c, [])) == Wait && Drain(subs, Stream(c, [])) == Waiting(Stream(c, []))
  {
  }

  /** Parsing a first part to the end, then the rest. */
  lemma DrainTwo(subs: set<nat>, c: Control, s: Bytes, c': Control, more: Bytes)
    requires Drain(subs, Stream(c, s)) == Waiting(Stream(c', []))
    ensures Drain(subs, Stream(c, s + more)) == Drain(subs, Stream(c', more))
  {
    DrainPrefix(subs, Stream(c, s), more);
    assert [] + more == more;
  }

  /** A message behind an integer is found as it was written. */
  lemma TaggedMessage(tag: nat, body: Bytes)
    requires tag <= VARINT_MAX && |body| <= MAX_MESSAGE
    ensures var s := VarintBytes(tag) + MsgBytes(body); TaggedUnit(s) == Unit(tag, body, |s|)
  {
    hide ReadMsg;
    hide MsgBytes;
    hide VarintBytes;
    hide ReadVarint;
    var t, m := VarintBytes(tag), MsgBytes(body);
    VarintRoundTrip(tag, m);
    MsgRoundTrip(body, []);
    assert m + [] == m;
    assert (t + m)[|t|..] == m;
  }

  lemma TwoFields(a: nat, b: nat)
    requires a <= VARINT_MAX && b <= VARINT_MAX
    ensures ReadTwo(VarintBytes(a) + VarintBytes(b)) == Some((a, b))
  {
    hide VarintBytes;
    hide ReadVarint;
    var x, y := VarintBytes(a), VarintBytes(b);
    VarintRoundTrip(a, y);
    VarintRoundTrip(b, []);
    assert y + [] == y;
    assert (x + y)[|x|..] == y;
  }

  lemma ThreeFields(a: nat, b: nat, c: nat)
    requires a <= VARINT_MAX && b <= VARINT_MAX && c <= VARINT_MAX
    ensures ReadThree(VarintBytes(a) + VarintBytes(b) + VarintBytes(c)) == Some((a, b, c))
  {
    hide VarintBytes;
    hide ReadVarint;
    var x, y, z := VarintBytes(a), VarintBytes(b), VarintBytes(c);
    Assoc(x, y, z);
    VarintRoundTrip(a, y + z);
    VarintRoundTrip(b, z);
    VarintRoundTrip(c, []);
    assert z + [] == z;
    assert (x + (y + z))[|x|..] == y + z;
    assert (y + z)[|y|..] == z;
  }

  /** What stays buffered is at most one incomplete unit: 64 MiB and 15 bytes. */
  lemma QuiescentIsSmall(subs: set<nat>, st: Stream)
    requires Step(subs, st).Wait?
    ensures |st.buf| <= MAX_MESSAGE + 15
  {
  }

  /** No arrival takes the buffer above the receive limit. */
  predicate Fits(subs: set<nat>, st: Stream, chunks: seq<Bytes>)
    decreases |chunks|
  {
    chunks == [] ||
    (var n := |chunks| - 1;
     && Fits(subs, st, chunks[..n])
     && (chunks[n] == [] || |DataAll(subs, st, chunks[..n]).buf| + |chunks[n]| <= MAX_RECV_BUF))
  }

  /** However the bytes are cut into chunks, as long as the parser does not halt on them:
      the record ends up the same as if they had come at once. */
  lemma {:induction false} ChunksAreOne(subs: set<nat>, st: Stream, chunks: seq<Bytes>)
    requires Step(subs, st).Wait? && !st.ctl.done && !st.ctl.fin && Fits(subs, st, chunks)
    requires Drain(subs, st.Plus(Concat(chunks))).Waiting?
    ensures DataAll(subs, st, chunks) == Drain(subs, st.Plus(Concat(chunks))).st
    decreases |chunks|
  {
    if chunks == [] {
      assert st.Plus([]) == st;
    } else {
      var n := |chunks| - 1;
      var before, last := chunks[..n], chunks[n];
      var front := st.Plus(Concat(before));
      assert front.Plus(last) == st.Plus(Concat(chunks));
      DrainPrefix(subs, front, last);
      ChunksAreOne(subs, st, before);
      DrainWaits(subs, front);
      DrainWaits(subs, DataAll(subs, st, before).Plus(last));
    }
  }

  /** Two ways of cutting the same bytes, each followed by the end of the stream or not:
      the same callbacks. */
  lemma ChunkIndependence(subs: set<nat>, st: Stream, chunks: seq<Bytes>, chunks': seq<Bytes>)
    requires Step(subs, st).Wait? && !st.ctl.done && !st.ctl.fin
    requires Fits(subs, st, chunks) && Fits(subs, st, chunks') && Concat(chunks) == Concat(chunks')
    requires Drain(subs, st.Plus(Concat(chunks))).Waiting?
    ensures DataAll(subs, st, chunks).ctl == DataAll(subs, st, chunks').ctl
    ensures Fin(subs, DataAll(subs, st, chunks)).ctl == Fin(subs, DataAll(subs, st, chunks')).ctl
  {
    ChunksAreOne(subs, st, chunks);
    ChunksAreOne(subs, st, chunks');
  }

  /** The largest chunk that fits beside any incomplete unit. */
  const SAFE_CHUNK: nat := 1009

  predicate SafeChunks(chunks: seq<Bytes>) {
    forall i :: 0 <= i < |chunks| ==> |chunks[i]| <= SAFE_CHUNK
  }

  /** Chunks of that size never reach the receive limit, however many there are. */
  lemma {:induction false} SafeChunksFit(subs: set<nat>, st: Stream, chunks: seq<Bytes>)
    requires Step(subs, st).Wait? && !st.ctl.done && !st.ctl.fin && SafeChunks(chunks)
    requires Drain(subs, st.Plus(Concat(chunks))).Waiting?
    ensures Fits(subs, st, chunks)
    decreases |chunks|
  {
    if chunks != [] {
      var n := |chunks| - 1;
      var before := chunks[..n];
      var front := st.Plus(Concat(before));
      assert front.Plus(chunks[n]) == st.Plus(Concat(chunks));
      DrainPrefix(subs, front, chunks[n]);
      SafeChunksFit(subs, st, before);
      ChunksAreOne(subs, st, before);
      DrainWaits(subs, front);
      QuiescentIsSmall(subs, DataAll(subs, st, before));
    }
  }

  // ---- what a group stream is refused for ----

  /** A header that is not exactly three integers. */
  lemma BadHeaderIsRefused(subs: set<nat>, c: Control, s: Bytes)
    requires c.typed && c.kind.Group? && !c.hdrDone
    requires PlainUnit(s).Unit? && PlainUnit(s).tag == 0 && ReadThree(PlainUnit(s).body).None?
    ensures Drain(subs, Stream(c, s)) == Stopped(Stream(c.(log := c.log + [Reset(0)], done := true), s))
  {
    assert NextUnit(c, s) == PlainUnit(s);
    assert OnUnit(subs, c, PlainUnit(s)) == OnGroupHeader(subs, c, PlainUnit(s).body);
    assert Step(subs, Stream(c, s)) == Stop(Stream(Refuse(c, INTERNAL_ERROR), s));
  }

  /** A message above the limit, and an arrival that takes the buffer above its own. */
  lemma OversizeIsRefused(subs: set<nat>, st: Stream, chunk: Bytes)
    requires st.ctl.typed && st.ctl.kind.Group? && !st.ctl.done
    ensures NextUnit(st.ctl, st.buf).Oversize? ==>
              Drain(subs, st) == Stopped(Stream(st.ctl.(log := st.ctl.log + [Reset(0)], done := true), st.buf))
    ensures |st.buf| + |chunk| > 0x400_0400 && chunk != [] ==>
              Data(subs, st, chunk) == Stream(st.ctl.(log := st.ctl.log + [Reset(0)], done := true), [])
  {
  }

  // ------------------------------------------------------------------
  // Where the parser halts: reply streams
  // ------------------------------------------------------------------

  /** A stream of our own with the peer's replies. */
  predicate Reply(ctl: Control) {
    ctl.typed && (ctl.kind.Announce? || ctl.kind.Subscribe?) && !ctl.done && !ctl.fin
  }

  lemma UnitOnReply(subs: set<nat>, ctl: Control, u: Unit)
    requires Reply(ctl) && u.Unit? && u.tag < TWO64
    ensures var v := OnUnit(subs, ctl, u);
            && Reply(v.ctl) && v.ctl.kind == ctl.kind && ctl.log <= v.ctl.log
            && (v.Halt? ==> v.ctl == ctl.Emit(Reset(INTERNAL_ERROR)) && v.eaten == ctl.kind.Subscribe?)
  {
    if ctl.kind.Announce? && ctl.annOk {
      assert OnUnit(subs, ctl, u) == OnAnnounce(ctl, u.tag, u.body);
    } else if ctl.kind.Announce? {
      assert OnUnit(subs, ctl, u) == OnAnnounceOk(ctl, u.body);
    } else {
      assert OnUnit(subs, ctl, u) == OnSubscribe(ctl, u.tag, u.body);
    }
  }

  /** Parsing only adds callbacks, and a halt adds a reset. */
  lemma {:induction false} DrainOnReply(subs: set<nat>, st: Stream)
    requires Reply(st.ctl)
    ensures var d := Drain(subs, st);
            && Reply(d.st.ctl) && d.st.ctl.kind == st.ctl.kind
            && st.ctl.log <= d.st.ctl.log && |d.st.buf| <= |st.buf|
            && (d.Stopped? ==> |st.ctl.log| < |d.st.ctl.log|)
    decreases |st.buf|
  {
    hide OnUnit;
    TagBelow64(st.ctl, st.buf);
    var u := NextUnit(st.ctl, st.buf);
    if u.Unit? {
      UnitOnReply(subs, st.ctl, u);
    }
    var o := Step(subs, st);
    if o.More? {
      DrainOnReply(subs, o.st);
    }
  }

  /** Parsing what is in the buffer makes no callback. */
  predicate Quiet(subs: set<nat>, st: Stream) {
    Drain(subs, st).st.ctl.log == st.ctl.log
  }

  lemma QuietPrefix(subs: set<nat>, st: Stream, more: Bytes)
    requires Reply(st.ctl) && Quiet(subs, st.Plus(more))
    ensures Drain(subs, st).Waiting? && Quiet(subs, st) && Quiet(subs, Drain(subs, st).st.Plus(more))
  {
    DrainPrefix(subs, st, more);
    DrainOnReply(subs, st);
    DrainOnReply(subs, st.Plus(more));
    DrainOnReply(subs, Drain(subs, st).st.Plus(more));
  }

  lemma DataOnReply(subs: set<nat>, st: Stream, chunk: Bytes)
    requires Reply(st.ctl) && |st.buf| + |chunk| <= MAX_RECV_BUF
    ensures Data(subs, st, chunk) == Drain(subs, st.Plus(chunk)).st
    ensures Reply(Data(subs, st, chunk).ctl) && |Data(subs, st, chunk).buf| <= |st.buf| + |chunk|
  {
    DrainOnReply(subs, st.Plus(chunk));
  }

  /** After part of the bytes the record is where parsing that part leads, or the parser
      has halted and nothing that came or comes behind makes a callback. */
  lemma {:induction false} CutSoFar(subs: set<nat>, st: Stream, chunks: seq<Bytes>, rest: Bytes)
    requires Reply(st.ctl) && Step(subs, st).Wait? && |st.buf| + |Concat(chunks)| + |rest| <= MAX_RECV_BUF
    requires var d := Drain(subs, st.Plus(Concat(chunks) + rest)); d.Waiting? || Quiet(subs, d.st)
    ensures var now := DataAll(subs, st, chunks);
            && Reply(now.ctl) && |now.buf| <= |st.buf| + |Concat(chunks)|
            && (if Drain(subs, st.Plus(Concat(chunks))).Waiting? then now == Drain(subs, st.Plus(Concat(chunks))).st
                else now.ctl.log == Drain(subs, st.Plus(Concat(chunks) + rest)).st.ctl.log && Quiet(subs, now.Plus(rest)))
    decreases |chunks|
  {
    hide Drain;
    hide Quiet;
    if chunks == [] {
      assert st.Plus([]) == st;
      WaitDrains(subs, st);
    } else {
      var n := |chunks| - 1;
      var before, c := chunks[..n], chunks[n];
      Assoc(Concat(before), c, rest);
      assert Concat(chunks) == Concat(before) + c;
      CutSoFar(subs, st, before, c + rest);
      var was := DataAll(subs, st, before);
      DataOnReply(subs, was, c);
      assert (was.Plus(c)).Plus(rest) == was.Plus(c + rest);
      CutOneMore(subs, st, Concat(before), c, rest, was);
    }
  }

  lemma WaitDrains(subs: set<nat>, st: Stream)
    requires Step(subs, st).Wait?
    ensures Drain(subs, st) == Waiting(st)
  {
  }

  lemma CutOneMore(subs: set<nat>, st: Stream, front: Bytes, c: Bytes, rest: Bytes, was: Stream)
    requires Reply(st.ctl) && Reply(was.ctl)
    requires var d := Drain(subs, st.Plus(front + (c + rest))); d.Waiting? || Quiet(subs, d.st)
    requires if Drain(subs, st.Plus(front)).Waiting? then was == Drain(subs, st.Plus(front)).st
             else was.ctl.log == Drain(subs, st.Plus(front + (c + rest))).st.ctl.log && Quiet(subs, was.Plus(c + rest))
    ensures var now := Drain(subs, was.Plus(c)).st;
            if Drain(subs, st.Plus(front + c)).Waiting? then now == Drain(subs, st.Plus(front + c)).st
            else now.ctl.log == Drain(subs, st.Plus(front + (c + rest))).st.ctl.log && Quiet(subs, now.Plus(rest))
  {
    hide Drain;
    hide Quiet;
    assert st.Plus(front).Plus(c) == st.Plus(front + c);
    assert st.Plus(front + c).Plus(rest) == st.Plus(front + (c + rest));
    assert was.Plus(c).Plus(rest) == was.Plus(c + rest);
    DrainPrefix(subs, st.Plus(front), c);
    DrainPrefix(subs, st.Plus(front + c), rest);
    if Drain(subs, st.Plus(front)).Stopped? {
      QuietPrefix(subs, was.Plus(c), rest);
      QuietKeepsLog(subs, was.Plus(c));
    }
  }

  lemma QuietKeepsLog(subs: set<nat>, st: Stream)
    requires Quiet(subs, st)
    ensures Drain(subs, st).st.ctl.log == st.ctl.log
  {
  }

  /** The bytes in arrivals as the transport makes them: none is empty. */
  predicate CutOf(chunks: seq<Bytes>, b: Bytes) {
    Concat(chunks) == b && [] !in chunks
  }

  /** Every way of cutting the bytes makes the same callbacks. */
  ghost predicate SameForAllCuts(subs: set<nat>, st: Stream, b: Bytes) {
    forall cs, cs' :: CutOf(cs, b) && CutOf(cs', b) ==>
      DataAll(subs, st, cs).ctl.log == DataAll(subs, st, cs').ctl.log
  }

  /** The parser halts before it has seen the last byte. */
  ghost predicate HaltsEarly(subs: set<nat>, st: Stream, b: Bytes) {
    exists p :: 0 <= p < |b| && Drain(subs, st.Plus(b[..p])).Stopped?
  }

  /** One more parse of what is there. */
  function Again(subs: set<nat>, st: Stream): Stream {
    Drain(subs, st).st
  }

  function Times(subs: set<nat>, st: Stream, n: nat): Stream {
    if n == 0 then st else Again(subs, Times(subs, st, n - 1))
  }

  /** On a reply stream that holds exactly if the parser does not halt before the last byte,
      or what lies behind the halt makes no callback when it is parsed. */
  lemma ReplyStableIff(subs: set<nat>, st: Stream, b: Bytes)
    requires Reply(st.ctl) && Step(subs, st).Wait? && |st.buf| + |b| <= MAX_RECV_BUF
    ensures SameForAllCuts(subs, st, b) <==>
              !HaltsEarly(subs, st, b) || Quiet(subs, Again(subs, st.Plus(b)))
  {
    hide Drain;
    hide DataAll;
    hide Quiet;
    if !HaltsEarly(subs, st, b) || Quiet(subs, Again(subs, st.Plus(b))) {
      forall cs | CutOf(cs, b)
        ensures DataAll(subs, st, cs).ctl.log == Again(subs, st.Plus(b)).ctl.log
      {
        if HaltsEarly(subs, st, b) {
          assert b + [] == b;
          CutSoFar(subs, st, cs, []);
        } else {
          LastHalts(subs, st, b, cs);
        }
      }
    } else {
      var p := EarlyCuts(subs, st, b);
      NotQuiet(subs, Again(subs, st.Plus(b)));
    }
  }

  lemma NotQuiet(subs: set<nat>, st: Stream)
    ensures Quiet(subs, st) <==> Again(subs, st).ctl.log == st.ctl.log
  {
  }

  /** A halt that comes with the last arrival: the record is that of the bytes at once. */
  lemma LastHalts(subs: set<nat>, st: Stream, b: Bytes, cs: seq<Bytes>)
    requires Reply(st.ctl) && Step(subs, st).Wait? && |st.buf| + |b| <= MAX_RECV_BUF
    requires CutOf(cs, b) && !HaltsEarly(subs, st, b)
    ensures DataAll(subs, st, cs) == Again(subs, st.Plus(b))
  {
    hide Drain;
    if cs == [] {
      assert st.Plus([]) == st;
      WaitDrains(subs, st);
    } else {
      var n := |cs| - 1;
      var front, c := Concat(cs[..n]), cs[n];
      assert c != [] && front == b[..|front|] && front + [] == front;
      CutSoFar(subs, st, cs[..n], []);
      var was := DataAll(subs, st, cs[..n]);
      DataOnReply(subs, was, c);
      assert st.Plus(front).Plus(c) == st.Plus(b);
      DrainPrefix(subs, st.Plus(front), c);
    }
  }

  /** The bytes at once, and cut where the parser halts early. */
  lemma EarlyCuts(subs: set<nat>, st: Stream, b: Bytes) returns (p: nat)
    requires Reply(st.ctl) && Step(subs, st).Wait? && |st.buf| + |b| <= MAX_RECV_BUF
    requires HaltsEarly(subs, st, b)
    ensures p < |b| && CutOf([b], b) && CutOf([b[..p], b[p..]], b) && Drain(subs, st.Plus(b)).Stopped?
    ensures DataAll(subs, st, [b]) == Again(subs, st.Plus(b))
    ensures DataAll(subs, st, [b[..p], b[p..]]) == Again(subs, Again(subs, st.Plus(b)))
  {
    hide Drain;
    p :| 0 <= p < |b| && Drain(subs, st.Plus(b[..p])).Stopped?;
    var front, more := b[..p], b[p..];
    WaitDrains(subs, st);
    assert st.Plus([]) == st;
    assert front != [] && front + more == b;
    assert st.Plus(front).Plus(more) == st.Plus(b);
    OneAndTwo(subs, st, b, front, more);
    DataOnReply(subs, st, b);
    DataOnReply(subs, st, front);
    DrainPrefix(subs, st.Plus(front), more);
    DataOnReply(subs, Data(subs, st, front), more);
  }

  lemma OneAndTwo(subs: set<nat>, st: Stream, b: Bytes, front: Bytes, more: Bytes)
    ensures Concat([b]) == b && DataAll(subs, st, [b]) == Data(subs, st, b)
    ensures Concat([front, more]) == front + more
    ensures DataAll(subs, st, [front, more]) == Data(subs, Data(subs, st, front), more)
  {
    hide Data;
    assert [b][..0] == [] && [front, more][..1] == [front] && [front][..0] == [];
    assert [] + b == b && [] + front == front;
  }

  /** A malformed or oversize announce reply stays in the buffer, so every later arrival
      asks for a reset again: on such a stream all cuts agree exactly if the parser does
      not halt before the last byte. */
  lemma AnnounceStableIff(subs: set<nat>, st: Stream, b: Bytes)
    requires Reply(st.ctl) && st.ctl.kind.Announce? && Step(subs, st).Wait? && |st.buf| + |b| <= MAX_RECV_BUF
    ensures SameForAllCuts(subs, st, b) <==> !HaltsEarly(subs, st, b)
  {
    hide HaltsEarly;
    hide SameForAllCuts;
    ReplyStableIff(subs, st, b);
    if HaltsEarly(subs, st, b) {
      var _ := EarlyCuts(subs, st, b);
      AnnounceHaltsAgain(subs, st.Plus(b));
    }
  }

  lemma {:induction false} AnnounceHaltsAgain(subs: set<nat>, st: Stream)
    requires Reply(st.ctl) && st.ctl.kind.Announce?
    ensures Drain(subs, st).Stopped? ==>
              Drain(subs, Drain(subs, st).st) ==
                Stopped(Stream(Drain(subs, st).st.ctl.Emit(Reset(INTERNAL_ERROR)), Drain(subs, st).st.buf))
    decreases |st.buf|
  {
    TagBelow64(st.ctl, st.buf);
    var u := NextUnit(st.ctl, st.buf);
    if u.Unit? {
      UnitOnReply(subs, st.ctl, u);
      if st.ctl.annOk {
        assert OnUnit(subs, st.ctl, u) == OnAnnounce(st.ctl, u.tag, u.body);
      } else {
        assert OnUnit(subs, st.ctl, u) == OnAnnounceOk(st.ctl, u.body);
      }
    }
    var o := Step(subs, st);
    if o.More? {
      AnnounceHaltsAgain(subs, o.st);
    } else if o.Stop? {
      HaltRepeats(subs, st, u);
    }
  }

  lemma HaltRepeats(subs: set<nat>, st: Stream, u: Unit)
    requires Reply(st.ctl) && st.ctl.kind.Announce? && u == NextUnit(st.ctl, st.buf) && Step(subs, st).Stop?
    ensures var h := Stream(st.ctl.Emit(Reset(INTERNAL_ERROR)), st.buf);
            Step(subs, st) == Stop(h) && Step(subs, h) == Stop(Stream(h.ctl.Emit(Reset(INTERNAL_ERROR)), st.buf))
  {
    var h := Stream(st.ctl.Emit(Reset(INTERNAL_ERROR)), st.buf);
    TagBelow64(st.ctl, st.buf);
    assert NextUnit(h.ctl, h.buf) == u;
  }

  // ---- the end of a reply stream ----

  /** The transport brings the end as an arrival of no bytes and the notice behind it. */
  function Ended(subs: set<nat>, st: Stream): Stream {
    Fin(subs, Data(subs, st, []))
  }

  ghost predicate SameForAllEnds(subs: set<nat>, st: Stream, b: Bytes) {
    forall cs, cs' :: CutOf(cs, b) && CutOf(cs', b) ==>
      Ended(subs, DataAll(subs, st, cs)).ctl.log == Ended(subs, DataAll(subs, st, cs')).ctl.log
  }

  /** Parsing does not look at the end of the stream. */
  lemma {:induction false} DrainAtEnd(subs: set<nat>, st: Stream)
    requires Reply(st.ctl)
    ensures var d, e := Drain(subs, st), Drain(subs, Stream(st.ctl.(fin := true), st.buf));
            d.Waiting? == e.Waiting? && e.st == Stream(d.st.ctl.(fin := true), d.st.buf) && Reply(d.st.ctl)
    decreases |st.buf|
  {
    hide OnUnit;
    TagBelow64(st.ctl, st.buf);
    var u := NextUnit(st.ctl, st.buf);
    if u.Unit? {
      UnitOnReply(subs, st.ctl, u);
      UnitAtEnd(subs, st.ctl, u);
    }
    var o := Step(subs, st);
    if o.More? {
      DrainAtEnd(subs, o.st);
    }
  }

  /** A reply record goes with the end of its stream exactly if the parser does not halt; it
      then makes no further callback. */
  lemma EndRemovesIff(subs: set<nat>, st: Stream)
    requires Reply(st.ctl)
    ensures Fin(subs, st).ctl.done <==> Drain(subs, st).Waiting?
    ensures Fin(subs, st).ctl.log == Drain(subs, st).st.ctl.log
  {
    hide Drain;
    DrainAtEnd(subs, st);
  }

  lemma UnitAtEnd(subs: set<nat>, ctl: Control, u: Unit)
    requires Reply(ctl) && u.Unit? && u.tag < TWO64
    ensures SameAtEnd(OnUnit(subs, ctl, u), OnUnit(subs, ctl.(fin := true), u))
  {
    hide SameAtEnd;
    hide OnAnnounce;
    hide OnAnnounceOk;
    hide OnSubscribe;
    var ctl' := ctl.(fin := true);
    AnnounceAtEnd(ctl, u.tag, u.body);
    AnnounceOkAtEnd(ctl, u.body);
    SubscribeAtEnd(ctl, u.tag, u.body);
    if ctl.kind.Announce? && ctl.annOk {
      assert OnUnit(subs, ctl, u) == OnAnnounce(ctl, u.tag, u.body);
      assert OnUnit(subs, ctl', u) == OnAnnounce(ctl', u.tag, u.body);
    } else if ctl.kind.Announce? {
      assert OnUnit(subs, ctl, u) == OnAnnounceOk(ctl, u.body);
      assert OnUnit(subs, ctl', u) == OnAnnounceOk(ctl', u.body);
    } else {
      assert OnUnit(subs, ctl, u) == OnSubscribe(ctl, u.tag, u.body);
      assert OnUnit(subs, ctl', u) == OnSubscribe(ctl', u.tag, u.body);
    }
  }

  predicate SameAtEnd(v: Verdict, w: Verdict) {
    v.Go? == w.Go? && w.ctl == v.ctl.(fin := true) && (v.Halt? ==> w.eaten == v.eaten)
  }

  lemma EmitAtEnd(ctl: Control, e: Event)
    ensures ctl.(fin := true).Emit(e) == ctl.Emit(e).(fin := true)
  {
  }

  lemma AnnounceAtEnd(ctl: Control, tag: nat, body: Bytes)
    ensures SameAtEnd(OnAnnounce(ctl, tag, body), OnAnnounce(ctl.(fin := true), tag, body))
  {
    hide ReadAnnounceStart;
    hide ReadOne;
    hide CString;
    hide JoinPath;
    hide EndBroadcasts;
    hide EndEvents;
    EmitAtEnd(ctl, Reset(INTERNAL_ERROR));
    if tag == 0 {
      var m := ReadAnnounceStart(body);
      if m.Some? {
        EmitAtEnd(ctl, Announced(JoinPath(ctl.prefix, CString(m.value)), CString(m.value)));
      }
    }
  }

  lemma AnnounceOkAtEnd(ctl: Control, body: Bytes)
    ensures SameAtEnd(OnAnnounceOk(ctl, body), OnAnnounceOk(ctl.(fin := true), body))
  {
    hide ReadTwo;
  }

  lemma SubscribeAtEnd(ctl: Control, tag: nat, body: Bytes)
    ensures SameAtEnd(OnSubscribe(ctl, tag, body), OnSubscribe(ctl.(fin := true), tag, body))
  {
    hide ReadOne;
    hide ReadThree;
    hide Control.Emit;
    EmitAtEnd(ctl, Reset(INTERNAL_ERROR));
    if tag < 2 {
      var m := ReadOne(body);
      if m.Some? {
        EmitAtEnd(ctl, if tag == 0 then SubscribeStart(m.value) else SubscribeEnd(m.value));
      }
    } else if tag == 2 {
      var m := ReadThree(body);
      if m.Some? {
        EmitAtEnd(ctl, Drop(m.value.0, m.value.1, m.value.2));
      }
    }
  }

  /** Each of the two parses what is there once more. */
  lemma EndParsesTwice(subs: set<nat>, st: Stream)
    requires Reply(st.ctl)
    ensures Ended(subs, st).ctl.log == Times(subs, st, 2).ctl.log
  {
    hide Drain;
    var once := Again(subs, st);
    DrainOnReply(subs, st);
    assert st.Plus([]) == st;
    assert Data(subs, st, []) == once;
    DrainAtEnd(subs, once);
    assert Times(subs, st, 2) == Again(subs, once) by {
      assert Times(subs, st, 1) == once;
    }
  }

  /** However often what the bytes at once leave has been parsed in a cut that halts: the
      record is as after `j + 1` parses. */
  lemma {:induction false} CutLater(subs: set<nat>, st: Stream, chunks: seq<Bytes>, rest: Bytes) returns (j: nat)
    requires Reply(st.ctl) && Step(subs, st).Wait? && |st.buf| + |Concat(chunks)| + |rest| <= MAX_RECV_BUF
    ensures var now := DataAll(subs, st, chunks);
            && Reply(now.ctl) && |now.buf| <= |st.buf| + |Concat(chunks)|
            && (if Drain(subs, st.Plus(Concat(chunks))).Waiting? then now == Again(subs, st.Plus(Concat(chunks)))
                else Again(subs, now.Plus(rest)) == Times(subs, Again(subs, st.Plus(Concat(chunks) + rest)), j + 1))
    decreases |chunks|
  {
    hide Drain;
    hide Data;
    if chunks == [] {
      assert st.Plus([]) == st;
      WaitDrains(subs, st);
      j := 0;
    } else {
      var n := |chunks| - 1;
      var before, c := chunks[..n], chunks[n];
      Assoc(Concat(before), c, rest);
      assert Concat(chunks) == Concat(before) + c;
      var i := CutLater(subs, st, before, c + rest);
      var was := DataAll(subs, st, before);
      DataOnReply(subs, was, c);
      j := LaterOneMore(subs, st, Concat(before), c, rest, was, i);
    }
  }

  lemma LaterOneMore(subs: set<nat>, st: Stream, front: Bytes, c: Bytes, rest: Bytes, was: Stream, i: nat) returns (j: nat)
    requires if Drain(subs, st.Plus(front)).Waiting? then was == Again(subs, st.Plus(front))
             else Again(subs, was.Plus(c + rest)) == Times(subs, Again(subs, st.Plus(front + (c + rest))), i + 1)
    ensures var now := Again(subs, was.Plus(c));
            if Drain(subs, st.Plus(front + c)).Waiting? then now == Again(subs, st.Plus(front + c))
            else Again(subs, now.Plus(rest)) == Times(subs, Again(subs, st.Plus(front + (c + rest))), j + 1)
  {
    hide Drain;
    assert st.Plus(front).Plus(c) == st.Plus(front + c);
    assert st.Plus(front + c).Plus(rest) == st.Plus(front + (c + rest));
    assert was.Plus(c).Plus(rest) == was.Plus(c + rest);
    var full := Again(subs, st.Plus(front + (c + rest)));
    DrainPrefix(subs, st.Plus(front), c);
    DrainPrefix(subs, st.Plus(front + c), rest);
    DrainPrefix(subs, was.Plus(c), rest);
    if Drain(subs, st.Plus(front)).Waiting? {
      j := 0;
      assert Times(subs, full, 0) == full;
    } else if Drain(subs, was.Plus(c)).Waiting? {
      j := i;
    } else {
      j := i + 1;
    }
  }

  /** Once a parse makes no callback no later one does. */
  lemma {:induction false} QuietStays(subs: set<nat>, st: Stream, n: nat)
    requires Reply(st.ctl) && Quiet(subs, st)
    ensures Times(subs, st, n).ctl.log == st.ctl.log && (n > 0 ==> Times(subs, st, n) == Again(subs, st))
    decreases n
  {
    hide Again;
    if n > 0 {
      QuietStays(subs, st, n - 1);
      AgainSettles(subs, st);
      assert Times(subs, st, n) == Again(subs, Times(subs, st, n - 1));
    }
  }

  lemma AgainSettles(subs: set<nat>, st: Stream)
    requires Reply(st.ctl) && Quiet(subs, st)
    ensures Again(subs, Again(subs, st)) == Again(subs, st) && Again(subs, st).ctl.log == st.ctl.log
  {
    hide Drain;
    NotQuiet(subs, st);
    DrainOnReply(subs, st);
    DrainWaits(subs, st);
    WaitDrains(subs, Again(subs, st));
  }

  lemma {:induction false} TimesAdd(subs: set<nat>, st: Stream, m: nat, n: nat)
    ensures Times(subs, st, m + n) == Times(subs, Times(subs, st, m), n)
    decreases n
  {
    hide Again;
    if n > 0 {
      TimesAdd(subs, st, m, n - 1);
      assert Times(subs, st, m + n) == Again(subs, Times(subs, st, m + n - 1));
    }
  }

  lemma {:induction false} TimesOnReply(subs: set<nat>, st: Stream, n: nat)
    requires Reply(st.ctl)
    ensures Reply(Times(subs, st, n).ctl)
  {
    if n > 0 {
      TimesOnReply(subs, st, n - 1);
      DrainOnReply(subs, Times(subs, st, n - 1));
    }
  }

  /** For a stream that is ended, all cuts agree exactly if the parser does not halt before
      the last byte, or what lies behind the halt makes no callback any more after the two
      parses of the end. */
  lemma ReplyEndStableIff(subs: set<nat>, st: Stream, b: Bytes)
    requires Reply(st.ctl) && Step(subs, st).Wait? && |st.buf| + |b| <= MAX_RECV_BUF
    ensures SameForAllEnds(subs, st, b) <==>
              !HaltsEarly(subs, st, b) || Quiet(subs, Times(subs, Again(subs, st.Plus(b)), 2))
  {
    hide Drain;
    hide DataAll;
    hide Quiet;
    hide Ended;
    hide Times;
    hide HaltsEarly;
    var left := Again(subs, st.Plus(b));
    if !HaltsEarly(subs, st, b) {
      forall cs | CutOf(cs, b)
        ensures DataAll(subs, st, cs) == left
      {
        LastHalts(subs, st, b, cs);
      }
    } else if Quiet(subs, Times(subs, left, 2)) {
      forall cs | CutOf(cs, b)
        ensures Ended(subs, DataAll(subs, st, cs)).ctl.log == Times(subs, left, 2).ctl.log
      {
        QuietEnd(subs, st, b, cs);
      }
    } else {
      var p := EarlyCuts(subs, st, b);
      EarlyEnds(subs, st, b);
    }
  }

  lemma QuietEnd(subs: set<nat>, st: Stream, b: Bytes, cs: seq<Bytes>)
    requires Reply(st.ctl) && Step(subs, st).Wait? && |st.buf| + |b| <= MAX_RECV_BUF && CutOf(cs, b)
    requires HaltsEarly(subs, st, b) && Quiet(subs, Times(subs, Again(subs, st.Plus(b)), 2))
    ensures Ended(subs, DataAll(subs, st, cs)).ctl.log == Times(subs, Again(subs, st.Plus(b)), 2).ctl.log
  {
    hide Drain;
    hide Quiet;
    hide Ended;
    hide Times;
    hide DataAll;
    hide HaltsEarly;
    var left := Again(subs, st.Plus(b));
    assert b + [] == b;
    var j := CutLater(subs, st, cs, []);
    var now := DataAll(subs, st, cs);
    var _ := EarlyCuts(subs, st, b);
    assert now.Plus([]) == now;
    DrainOnReply(subs, st.Plus(b));
    EndParsesTwice(subs, now);
    TwoMore(subs, now, left, j);
    TimesAdd(subs, left, 2, j);
    TimesOnReply(subs, left, 2);
    QuietStays(subs, Times(subs, left, 2), j);
  }

  lemma TwoMore(subs: set<nat>, now: Stream, left: Stream, j: nat)
    requires Again(subs, now) == Times(subs, left, j + 1)
    ensures Times(subs, now, 2) == Times(subs, left, 2 + j)
  {
    hide Again;
    assert Times(subs, now, 1) == Again(subs, Times(subs, now, 0)) == Again(subs, now);
    assert Times(subs, now, 2) == Again(subs, Times(subs, now, 1));
  }

  lemma ThreeTimes(subs: set<nat>, st: Stream)
    ensures Times(subs, st, 2) == Again(subs, Again(subs, st)) && Times(subs, st, 3) == Again(subs, Times(subs, st, 2))
  {
    hide Again;
    assert Times(subs, st, 1) == Again(subs, Times(subs, st, 0)) == Again(subs, st);
    assert Times(subs, st, 2) == Again(subs, Times(subs, st, 1));
  }

  /** The bytes at once are parsed twice more, those cut at the halt three times. */
  lemma EarlyEnds(subs: set<nat>, st: Stream, b: Bytes)
    requires Reply(st.ctl) && Step(subs, st).Wait? && |st.buf| + |b| <= MAX_RECV_BUF
    requires HaltsEarly(subs, st, b)
    ensures var left := Again(subs, st.Plus(b));
            && Ended(subs, left).ctl.log == Times(subs, left, 2).ctl.log
            && (Ended(subs, Again(subs, left)).ctl.log == Times(subs, left, 2).ctl.log
                <==> Quiet(subs, Times(subs, left, 2)))
  {
    hide Drain;
    hide Quiet;
    hide Ended;
    hide HaltsEarly;
    var left := Again(subs, st.Plus(b));
    DrainOnReply(subs, st.Plus(b));
    DrainOnReply(subs, left);
    EndParsesTwice(subs, left);
    EndParsesTwice(subs, Again(subs, left));
    hide Again;
    ThreeTimes(subs, left);
    TwoMore(subs, Again(subs, left), left, 1);
    NotQuiet(subs, Times(subs, left, 2));
  }

  /** On an announce stream again exactly if the parser does not halt before the last byte. */
  lemma AnnounceEndStableIff(subs: set<nat>, st: Stream, b: Bytes)
    requires Reply(st.ctl) && st.ctl.kind.Announce? && Step(subs, st).Wait? && |st.buf| + |b| <= MAX_RECV_BUF
    ensures SameForAllEnds(subs, st, b) <==> !HaltsEarly(subs, st, b)
  {
    hide HaltsEarly;
    hide SameForAllEnds;
    hide Drain;
    hide Quiet;
    ReplyEndStableIff(subs, st, b);
    if HaltsEarly(subs, st, b) {
      var _ := EarlyCuts(subs, st, b);
      NeverQuiet(subs, st.Plus(b), 3);
      TimesAdd(subs, st.Plus(b), 1, 2);
      assert Times(subs, st.Plus(b), 0) == st.Plus(b);
    }
  }

  lemma {:induction false} NeverQuiet(subs: set<nat>, st: Stream, n: nat)
    requires Reply(st.ctl) && st.ctl.kind.Announce? && Drain(subs, st).Stopped?
    ensures var st' := Times(subs, st, n);
            Reply(st'.ctl) && st'.ctl.kind.Announce? && Drain(subs, st').Stopped? && !Quiet(subs, st')
  {
    hide Drain;
    if n == 0 {
      DrainOnReply(subs, st);
    } else {
      NeverQuiet(subs, st, n - 1);
      var before := Times(subs, st, n - 1);
      DrainOnReply(subs, before);
      AnnounceHaltsAgain(subs, before);
      DrainOnReply(subs, Again(subs, before));
    }
  }

  /** When a parser returns early without ending the stream, what lies behind the
      offending message waits for the next arrival: bytes that come with it are only
      buffered, bytes that come after it are parsed. */
  lemma EarlyReturnDependsOnChunks(subs: set<nat>, st: Stream, bad: Bytes, good: Bytes)
    requires !st.ctl.done && |st.buf| + |bad| + |good| <= MAX_RECV_BUF
    requires Step(subs, st.Plus(bad)).Stop? && !Step(subs, st.Plus(bad)).st.ctl.done
    ensures var halted := Step(subs, st.Plus(bad)).st;
            Data(subs, st, bad) == halted && Data(subs, st, bad + good) == halted.Plus(good)
  {
    var one, all := st.Plus(bad), st.Plus(bad + good);
    Assoc(st.buf, bad, good);
    assert one.Plus(good) == all;
    StepPrefix(subs, one, good);
    StopParses(subs, one);
    StopParses(subs, all);
  }

  lemma StopParses(subs: set<nat>, st: Stream)
    requires !st.ctl.done && Step(subs, st).Stop?
    ensures Parse(subs, st) == Step(subs, st).st
  {
  }

  lemma MoreParses(subs: set<nat>, st: Stream)
    requires !st.ctl.done && !st.ctl.fin && Step(subs, st).More? && Step(subs, Step(subs, st).st).Wait?
    ensures Parse(subs, st) == Step(subs, st).st
  {
    var next := Step(subs, st).st;
    StepKeeps(subs, st);
    assert Drain(subs, next) == Waiting(next);
    assert Drain(subs, st) == Drain(subs, next);
  }

  /** Such a pair exists: an empty SUBSCRIBE_START, then a good one. */
  lemma MalformedSubscribeIsLate()
    ensures var st, bad, good := NewLocal(Subscribe, []), [0, 0], [0, 1, 5];
            && Data({}, st, bad + good).ctl.log == [Reset(INTERNAL_ERROR)]
            && Data({}, Data({}, st, bad), good).ctl.log == [Reset(INTERNAL_ERROR), SubscribeStart(5)]
  {
    var st: Stream, bad: Bytes, good: Bytes := NewLocal(Subscribe, []), [0, 0], [0, 1, 5];
    var c := st.ctl.Emit(Reset(INTERNAL_ERROR));
    SubscribeStep(st.ctl, 0, [], []);
    assert st.Plus(bad) == Stream(st.ctl, [0, 0] + [] + []);
    EarlyReturnDependsOnChunks({}, st, bad, good);
    assert Data({}, st, bad) == Stream(c, []);
    GoodStart(c, good);
  }

  lemma GoodStart(c: Control, good: Bytes)
    requires c.typed && c.kind.Subscribe? && !c.done && !c.fin && good == [0, 1, 5]
    ensures Data({}, Stream(c, []), good).ctl == c.Emit(SubscribeStart(5))
  {
    SubscribeStep(c, 0, [5], []);
    assert good == [0, |[5]|] + [5] + [];
    assert Stream(c, []).Plus(good) == Stream(c, good);
    OneByte(5, []);
    assert [5] + [] == [5];
    var next := Stream(c.Emit(SubscribeStart(5)), []);
    assert Step({}, Stream(c, good)) == More(next);
    assert Step({}, next) == Wait;
    MoreParses({}, Stream(c, good));
  }

  lemma SubscribeStep(c: Control, tag: nat, body: Bytes, rest: Bytes)
    requires c.typed && c.kind.Subscribe? && tag < 64 && |body| < 64
    ensures var s := [tag, |body|] + body + rest;
            Step({}, Stream(c, s)) ==
              match OnSubscribe(c, tag, body)
              case Go(c') => More(Stream(c', rest))
              case Halt(c', _) => Stop(Stream(c', rest))
  {
    OneMessage(tag, body, rest);
  }

  lemma OneByte(v: nat, rest: Bytes)
    requires v < 64
    ensures ReadVarint([v] + rest) == Some(Read(v, 1))
  {
  }

  lemma OneMessage(tag: nat, body: Bytes, rest: Bytes)
    requires tag < 64 && |body| < 64
    ensures TaggedUnit([tag, |body|] + body + rest) == Unit(tag, body, 2 + |body|)
    ensures ([tag, |body|] + body + rest)[2 + |body|..] == rest
  {
    var s := [tag, |body|] + body + rest;
    OneByte(tag, [|body|] + body + rest);
    assert s == [tag] + ([|body|] + body + rest);
    assert s[1..] == MsgBytes(body) + rest by {
      assert VarintBytes(|body|) == [|body|];
    }
    MsgRoundTrip(body, rest);
  }
}
