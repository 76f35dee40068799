/** The publisher's group writer: frames for one subscription go out in groups, one
    unidirectional stream a group. Streams open asynchronously, so the first frames of
    a group wait in a buffer until the stream is there. */
module MoqServeSpec {
  import opened MoqWire
  import opened Options

  datatype Media = Media(ts: nat, data: Bytes)

  /** What was written to a stream of ours, and whether it was finished. */
  datatype Wire = Wire(bytes: Bytes, fin: bool)

  /** MOQ_MAX_PEND_FRAMES */
  const MAX_PEND: nat := 64

  datatype Serve = Serve(
    sid: nat, groupSeq: nat,
    uni: Option<nat>, opening: bool, pend: seq<Media>,
    prevUs: int, openUs: int, hadMedia: bool,
    started: bool, reply: Bytes,
    intents: nat, streams: seq<Wire>)

  function NewServe(sid: nat): Serve {
    Serve(sid, 0, None, false, [], 0, 0, false, false, [], 0, [])
  }

  predicate Valid(s: Serve) {
    && s.sid <= VARINT_MAX && s.groupSeq <= VARINT_MAX
    && (s.uni.Some? ==> s.uni.value < |s.streams|)
  }

  /** (int64_t)ts */
  function AsInt64(ts: nat): int {
    if ts % TWO64 < TWO64 / 2 then ts % TWO64 else ts % TWO64 - TWO64
  }

  function Append(streams: seq<Wire>, k: nat, more: Bytes): seq<Wire>
    requires k < |streams|
  {
    streams[k := Wire(streams[k].bytes + more, streams[k].fin)]
  }

  /** The bytes of one frame: a delta in front of the absolute time stamp and the data.
      None when the time stamp or the delta cannot be encoded. */
  function MediaBytes(prevUs: int, f: Media): Option<Bytes> {
    if f.ts > VARINT_MAX || VarintSize(f.ts) + |f.data| > VARINT_MAX then None
    else FrameBytes(AsInt64(f.ts) - prevUs, VarintBytes(f.ts) + f.data)
  }

  /** serve_write_one: the baseline moves on even when nothing could be written. */
  function WriteOne(s: Serve, f: Media): (s': Serve)
    requires Valid(s) && s.uni.Some?
    ensures Valid(s') && s' == s.(streams := s'.streams, prevUs := s'.prevUs, hadMedia := s'.hadMedia)
  {
    var b := MediaBytes(s.prevUs, f);
    s.(streams := if b.Some? then Append(s.streams, s.uni.value, b.value) else s.streams,
       prevUs := AsInt64(f.ts), hadMedia := true)
  }

  function WriteAll(s: Serve, frames: seq<Media>): (s': Serve)
    requires Valid(s) && s.uni.Some?
    ensures Valid(s') && s' == s.(streams := s'.streams, prevUs := s'.prevUs, hadMedia := s'.hadMedia)
    decreases |frames|
  {
    if frames == [] then s
    else WriteOne(WriteAll(s, frames[..|frames| - 1]), frames[|frames| - 1])
  }

  /** serve_write_frame */
  function WriteFrame(s: Serve, f: Media): (s': Serve)
    requires Valid(s)
    ensures Valid(s')
  {
    if s.uni.Some? then WriteOne(s, f)
    else
      var s1 := if s.opening then s
                else s.(opening := true, openUs := AsInt64(f.ts), prevUs := 0, hadMedia := false, intents := s.intents + 1);
      if |s1.pend| >= MAX_PEND then s1 else s1.(pend := s1.pend + [f])
  }

  /** Stream type and group header. */
  function GroupHead(sid: nat, group: nat): Bytes
    requires sid <= VARINT_MAX && group <= VARINT_MAX
  {
    VarintBytes(0) + GroupHeaderBytes(sid, group, 0)
  }

  /** The new stream gets its header; the first one also lets SUBSCRIBE_START go out. */
  function HeadWritten(s: Serve): (s': Serve)
    requires Valid(s) && s.intents > 0
    ensures Valid(s') && s'.uni.Some?
  {
    s.(intents := s.intents - 1, uni := Some(|s.streams|), opening := false,
       started := true,
       reply := if s.started then s.reply else s.reply + SubscribeStartBytes(0),
       streams := s.streams + [Wire(GroupHead(s.sid, s.groupSeq), false)])
  }

  /** A queued open completed: serve_group_open_on_stream on a new stream. */
  function Opened(s: Serve): (s': Serve)
    requires Valid(s) && s.intents > 0
    ensures Valid(s')
  {
    WriteAll(HeadWritten(s), s.pend).(pend := [])
  }

  /** The marker and the end of the stream. */
  function MarkerBytes(endUs: int): Option<Bytes> {
    if 0 <= endUs <= VARINT_MAX then FrameBytes(0, VarintBytes(endUs)) else None
  }

  /** serve_group_close; the FIN rides on the marker. */
  function Close(s: Serve): (s': Serve)
    requires Valid(s) && s.groupSeq < VARINT_MAX
    ensures Valid(s')
  {
    if s.uni.None? then s.(pend := [], opening := false)
    else
      var k := s.uni.value;
      var m := MarkerBytes(if s.hadMedia then s.prevUs else s.openUs);
      s.(streams := if m.Some? then s.streams[k := Wire(s.streams[k].bytes + m.value, true)] else s.streams,
         uni := None, hadMedia := false, groupSeq := s.groupSeq + 1)
  }

  // ------------------------------------------------------------------
  // Runs
  // ------------------------------------------------------------------

  datatype Op = Write(f: Media) | Open | Shut

  /** The frames the writer is for: not empty, a time stamp below 2^61 microseconds and
      small enough for one message. */
  predicate GoodMedia(f: Media) {
    f.ts <= ZIGZAG_MAX && f.data != [] && |f.data| <= MAX_MESSAGE - 8
  }

  /** An open completes only when one is queued, and a group is not closed while its stream
      is still opening. */
  predicate Proper(s: Serve, op: Op) {
    match op
    case Write(f) => GoodMedia(f)
    case Open => s.intents > 0
    case Shut => s.groupSeq < VARINT_MAX && (s.uni.None? ==> !s.opening)
  }

  function Do(s: Serve, op: Op): (s': Serve)
    requires Valid(s) && (op.Open? ==> s.intents > 0) && (op.Shut? ==> s.groupSeq < VARINT_MAX)
    ensures Valid(s')
  {
    match op
    case Write(f) => WriteFrame(s, f)
    case Open => Opened(s)
    case Shut => Close(s)
  }

  /** The frames taken: the groups closed so far, and the one being written. */
  datatype Asked = Asked(closed: seq<seq<Media>>, current: seq<Media>)

  /** The buffer for frames that wait for their stream is full; another is dropped. */
  predicate Full(s: Serve) {
    s.uni.None? && s.opening && |s.pend| >= MAX_PEND
  }

  function Ask(s: Serve, a: Asked, op: Op): Asked {
    match op
    case Write(f) => if Full(s) then a else a.(current := a.current + [f])
    case Open => a
    case Shut => if a.current == [] then a else Asked(a.closed + [a.current], [])
  }

  function PrevTs(frames: seq<Media>): nat {
    if frames == [] then 0 else frames[|frames| - 1].ts
  }

  predicate GoodGroup(frames: seq<Media>) {
    forall i :: 0 <= i < |frames| ==> GoodMedia(frames[i])
  }

  function GoodBytes(prev: nat, f: Media): Bytes
    requires GoodMedia(f) && prev <= ZIGZAG_MAX
  {
    ZigzagRoundTrip(f.ts - prev);
    FrameBytes(f.ts - prev, VarintBytes(f.ts) + f.data).value
  }

  /** The bytes of a run of frames from the start of a group. */
  function FramesBytes(frames: seq<Media>): Bytes
    requires GoodGroup(frames)
    decreases |frames|
  {
    if frames == [] then []
    else
      var before := frames[..|frames| - 1];
      FramesBytes(before) + GoodBytes(PrevTs(before), frames[|frames| - 1])
  }

  function OpenGroup(sid: nat, group: nat, frames: seq<Media>): Bytes
    requires sid <= VARINT_MAX && group <= VARINT_MAX && GoodGroup(frames)
  {
    GroupHead(sid, group) + FramesBytes(frames)
  }

  function ClosedGroup(sid: nat, group: nat, frames: seq<Media>): Bytes
    requires sid <= VARINT_MAX && group <= VARINT_MAX && GoodGroup(frames)
  {
    OpenGroup(sid, group, frames) + MarkerBytes(PrevTs(frames)).value
  }

  /** The state is what the requests so far call for. */
  ghost predicate Matches(s: Serve, a: Asked) {
    && Valid(s) && s.groupSeq == |a.closed|
    && (forall j :: 0 <= j < |a.closed| ==> GoodGroup(a.closed[j]) && a.closed[j] != [])
    && GoodGroup(a.current)
    && |s.streams| == |a.closed| + (if s.uni.Some? then 1 else 0)
    && (forall j :: 0 <= j < |a.closed| ==> s.streams[j] == Wire(ClosedGroup(s.sid, j, a.closed[j]), true))
    && (if s.uni.Some? then
          && s.uni.value == |a.closed| && !s.opening && s.intents == 0 && s.pend == []
          && a.current != [] && s.hadMedia && s.prevUs == PrevTs(a.current)
          && s.streams[s.uni.value] == Wire(OpenGroup(s.sid, s.groupSeq, a.current), false)
        else if s.opening then
          && s.intents == 1 && s.pend == a.current && 0 < |s.pend| <= MAX_PEND && s.prevUs == 0
        else s.intents == 0 && s.pend == [] && a.current == [])
  }

  lemma SmallInt64(ts: nat)
    requires ts < TWO64 / 2
    ensures AsInt64(ts) == ts
  {
  }

  lemma GoodIsWritten(prev: nat, f: Media)
    requires GoodMedia(f) && prev <= ZIGZAG_MAX
    ensures MediaBytes(prev, f) == Some(GoodBytes(prev, f)) && AsInt64(f.ts) == f.ts
  {
    SmallInt64(f.ts);
    ZigzagRoundTrip(f.ts - prev);
    assert FrameBytes(f.ts - prev, VarintBytes(f.ts) + f.data).Some?;
  }

  lemma PrevIsSmall(frames: seq<Media>)
    requires GoodGroup(frames)
    ensures PrevTs(frames) <= ZIGZAG_MAX
  {
  }

  /** The open stream holds exactly the group so far. */
  predicate Writing(s: Serve, frames: seq<Media>) {
    && Valid(s) && s.uni.Some? && s.uni.value == |s.streams| - 1
    && GoodGroup(frames) && s.prevUs == PrevTs(frames)
    && s.streams[s.uni.value] == Wire(OpenGroup(s.sid, s.groupSeq, frames), false)
  }

  /** No stream but the open one was touched. */
  predicate OnlyOpenStream(s: Serve, s': Serve)
    requires s.uni.Some? && s.uni.value < |s.streams|
  {
    && |s'.streams| == |s.streams|
    && forall j :: 0 <= j < |s.streams| && j != s.uni.value ==> s'.streams[j] == s.streams[j]
  }

  lemma WriteOneAppends(s: Serve, frames: seq<Media>, f: Media)
    requires Writing(s, frames) && GoodMedia(f)
    ensures Writing(WriteOne(s, f), frames + [f])
    ensures OnlyOpenStream(s, WriteOne(s, f)) && WriteOne(s, f).hadMedia
  {
    PrevIsSmall(frames);
    GoodIsWritten(PrevTs(frames), f);
    assert (frames + [f])[..|frames|] == frames;
    Assoc(GroupHead(s.sid, s.groupSeq), FramesBytes(frames), GoodBytes(PrevTs(frames), f));
    assert FramesBytes(frames + [f]) == FramesBytes(frames) + GoodBytes(PrevTs(frames), f);
  }

  /** Writing frames to an open stream appends exactly their bytes and touches nothing
      else. */
  lemma {:induction false} WriteAllAppends(s: Serve, frames: seq<Media>, more: seq<Media>)
    requires Writing(s, frames) && GoodGroup(more)
    ensures Writing(WriteAll(s, more), frames + more)
    ensures OnlyOpenStream(s, WriteAll(s, more)) && WriteAll(s, more).hadMedia == (s.hadMedia || more != [])
    decreases |more|
  {
    hide WriteOne;
    hide OpenGroup;
    if more == [] {
      assert frames + more == frames;
    } else {
      var n := |more| - 1;
      WriteAllAppends(s, frames, more[..n]);
      var s1 := WriteAll(s, more[..n]);
      WriteOneAppends(s1, frames + more[..n], more[n]);
      assert WriteAll(s, more) == WriteOne(s1, more[n]);
      assert frames + more[..n] + [more[n]] == frames + more;
    }
  }

  /** Every proper operation keeps the state in step with what was asked for. */
  lemma StepMatches(s: Serve, a: Asked, op: Op)
    requires Matches(s, a) && Proper(s, op)
    ensures Matches(Do(s, op), Ask(s, a, op))
  {
    match op
    case Write(f) => WriteMatches(s, a, f);
    case Open => OpenMatches(s, a);
    case Shut => CloseMatches(s, a);
  }

  lemma WriteMatches(s: Serve, a: Asked, f: Media)
    requires Matches(s, a) && Proper(s, Write(f))
    ensures Matches(WriteFrame(s, f), Ask(s, a, Write(f)))
  {
    if s.uni.Some? {
      WriteAllAppends(s, a.current, [f]);
      assert [f][..0] == [];
      assert WriteAll(s, [f]) == WriteOne(WriteAll(s, []), f);
    }
  }

  lemma OpenMatches(s: Serve, a: Asked)
    requires Matches(s, a) && s.intents > 0
    ensures Matches(Opened(s), a)
  {
    var s1 := HeadWritten(s);
    assert OpenGroup(s.sid, s.groupSeq, []) == GroupHead(s.sid, s.groupSeq);
    WriteAllAppends(s1, [], s1.pend);
    assert [] + s1.pend == s1.pend;
  }

  lemma CloseMatches(s: Serve, a: Asked)
    requires Matches(s, a) && Proper(s, Shut)
    ensures Matches(Close(s), Ask(s, a, Shut))
  {
    if s.uni.Some? {
      PrevIsSmall(a.current);
      ZigzagRoundTrip(0);
      assert MarkerBytes(s.prevUs).Some?;
    }
  }

  // ---- whole runs ----

  datatype Run = Run(s: Serve, a: Asked)

  predicate ProperRun(s: Serve, ops: seq<Op>)
    requires Valid(s)
    decreases |ops|
  {
    ops == [] || (Proper(s, ops[0]) && ProperRun(Do(s, ops[0]), ops[1..]))
  }

  function Execute(r: Run, ops: seq<Op>): Run
    requires Valid(r.s) && ProperRun(r.s, ops)
    decreases |ops|
  {
    if ops == [] then r else Execute(Run(Do(r.s, ops[0]), Ask(r.s, r.a, ops[0])), ops[1..])
  }

  lemma {:induction false} RunMatches(r: Run, ops: seq<Op>)
    requires Matches(r.s, r.a) && ProperRun(r.s, ops)
    ensures Matches(Execute(r, ops).s, Execute(r, ops).a)
    decreases |ops|
  {
    if ops != [] {
      StepMatches(r.s, r.a, ops[0]);
      RunMatches(Run(Do(r.s, ops[0]), Ask(r.s, r.a, ops[0])), ops[1..]);
    }
  }

  /** The subscription is accepted once, with group 0, when its first stream has opened. */
  lemma {:induction false} AcceptedOnce(r: Run, ops: seq<Op>)
    requires Valid(r.s) && ProperRun(r.s, ops)
    ensures var s := Execute(r, ops).s;
            && (s.started <==> r.s.started || Open in ops)
            && s.reply == r.s.reply + (if !r.s.started && Open in ops then SubscribeStartBytes(0) else [])
    decreases |ops|
  {
    hide SubscribeStartBytes;
    if ops == [] {
      assert r.s.reply + [] == r.s.reply;
    } else {
      var s1 := Do(r.s, ops[0]);
      OpAccepts(r.s, ops[0]);
      AcceptedOnce(Run(s1, Ask(r.s, r.a, ops[0])), ops[1..]);
      assert ops == [ops[0]] + ops[1..];
      assert s1.reply + [] == s1.reply && r.s.reply + [] == r.s.reply;
    }
  }

  lemma OpAccepts(s: Serve, op: Op)
    requires Valid(s) && Proper(s, op)
    ensures var s' := Do(s, op);
            && (s'.started <==> s.started || op.Open?)
            && s'.reply == s.reply + (if !s.started && op.Open? then SubscribeStartBytes(0) else [])
  {
    hide SubscribeStartBytes;
    hide GroupHead;
    hide MarkerBytes;
    assert s.reply + [] == s.reply;
  }

  // ------------------------------------------------------------------
  // Closing a group whose stream is still opening
  // ------------------------------------------------------------------

  /** Closing keeps the writer in step exactly when the group's stream is not still on
      its way. In the excluded branch the waiting frames are dropped but the queued open
      stays. */
  lemma CloseMatchesIff(s: Serve, a: Asked)
    requires Matches(s, a) && s.groupSeq < VARINT_MAX
    ensures (exists a' :: Matches(Close(s), a')) <==> !(s.uni.None? && s.opening)
  {
    if !(s.uni.None? && s.opening) {
      CloseMatches(s, a);
      assert Matches(Close(s), Ask(s, a, Shut));
    }
  }

  /** What then follows: the next frame asks for a second open, both opens write a header
      for the same group, the frame travels on the first stream and the writer is left
      with the second. The first stream is never finished. */
  lemma EarlyCloseSplitsGroup(s: Serve, a: Asked, f: Media)
    requires Matches(s, a) && s.uni.None? && s.opening && s.groupSeq < VARINT_MAX && GoodMedia(f)
    ensures var s1 := WriteFrame(Close(s), f);
            && s1.intents == 2
            && var s2 := Opened(Opened(s1));
            && var k := |s.streams|;
            && |s2.streams| == k + 2 && s2.uni == Some(k + 1) && s2.groupSeq == s.groupSeq
            && s2.streams[k] == Wire(OpenGroup(s.sid, s.groupSeq, [f]), false)
            && s2.streams[k + 1] == Wire(GroupHead(s.sid, s.groupSeq), false)
            && Close(s2).streams[k] == s2.streams[k] && Close(s2).uni.None?
  {
    var k := |s.streams|;
    var s1 := WriteFrame(Close(s), f);
    var s1' := HeadWritten(s1);
    assert OpenGroup(s.sid, s.groupSeq, []) == GroupHead(s.sid, s.groupSeq) by {
      assert GroupHead(s.sid, s.groupSeq) + [] == GroupHead(s.sid, s.groupSeq);
    }
    WriteAllAppends(s1', [], [f]);
    assert [] + [f] == [f];
    assert s1.pend == [f];
    assert Opened(s1) == WriteAll(s1', [f]).(pend := []);
  }

  /** A group closed while its stream opens and closed again when the stream is there holds no
      frame; its marker then says when it was begun. */
  lemma LoneHeaderIsMarked(s: Serve, f: Media)
    requires Valid(s) && s.uni.None? && !s.opening && s.pend == [] && s.intents == 0 && s.groupSeq < VARINT_MAX && GoodMedia(f)
    ensures Close(Opened(Close(WriteFrame(s, f)))).streams
            == s.streams + [Wire(GroupHead(s.sid, s.groupSeq) + MarkerBytes(f.ts).value, true)]
  {
    SmallInt64(f.ts);
    ZigzagRoundTrip(0);
    assert MarkerBytes(f.ts).Some?;
  }

  // ------------------------------------------------------------------
  // Frames out of range
  // ------------------------------------------------------------------

  /** The representative between -2^63 and 2^63. */
  lemma Int64IsWrapped(ts: nat)
    ensures -0x8000_0000_0000_0000 <= AsInt64(ts) < 0x8000_0000_0000_0000
    ensures exists n: nat :: ts == AsInt64(ts) + n * 0x1_0000_0000_0000_0000
  {
    var n := if ts % TWO64 < TWO64 / 2 then ts / TWO64 else ts / TWO64 + 1;
    assert ts == AsInt64(ts) + n * 0x1_0000_0000_0000_0000;
  }

  /** A frame that cannot be encoded leaves nothing on the stream, but the next difference
      counts from its time stamp. */
  lemma UnwritableMovesBaseline(s: Serve, f: Media, g: Media)
    requires Valid(s) && s.uni.Some? && MediaBytes(s.prevUs, f) == None
    ensures var more := MediaBytes(AsInt64(f.ts), g);
            var s' := WriteOne(WriteOne(s, f), g);
            var k := s.uni.value;
            s'.streams == s.streams[k := Wire(s.streams[k].bytes + (if more.Some? then more.value else []), s.streams[k].fin)]
  {
    var k := s.uni.value;
    hide MediaBytes;
    assert s.streams[k].bytes + [] == s.streams[k].bytes;
    assert s.streams[k := s.streams[k]] == s.streams;
  }

  // ------------------------------------------------------------------
  // Where the groups begin and end: a track, for one subscription
  // ------------------------------------------------------------------

  /** MOQ_SERVE_AUDIO_GROUP_US */
  const AUDIO_GROUP_US: int := 1_000_000

  datatype TrackState = TrackState(s: Serve, nextAudioUs: int, ended: bool)

  /** The calls one frame leads to: video closes at a key frame and drops frames before
      the first one, audio closes when a second is over. */
  function TrackOps(isVideo: bool, t: TrackState, f: Media, key: bool): seq<Op> {
    if isVideo then
      if key then if t.s.uni.Some? || t.s.opening then [Shut, Write(f)] else [Write(f)]
      else if t.s.uni.None? && !t.s.opening then [] else [Write(f)]
    else if t.s.uni.Some? && AsInt64(f.ts) >= t.nextAudioUs then [Shut, Write(f)]
    else [Write(f)]
  }

  /** Where the next audio group begins: a second behind the frame that starts a group. */
  function NextAudio(isVideo: bool, t: TrackState, f: Media): int {
    var closes := t.s.uni.Some? && AsInt64(f.ts) >= t.nextAudioUs;
    if !isVideo && !t.s.opening && (closes || t.s.uni.None?) then AsInt64(f.ts) + AUDIO_GROUP_US else t.nextAudioUs
  }

  /** A frame of the track, a held frame replayed, the completion of a queued open, or the
      end of the track. */
  datatype TrackEvent = Offer(f: Media, key: bool) | Replay(f: Media) | Opens | Ends

  datatype TrackRun = TrackRun(t: TrackState, a: Asked)

  /** Room for `n` more groups. */
  predicate Room(s: Serve, n: nat) {
    Valid(s) && s.groupSeq + n <= VARINT_MAX
  }

  function Apply(r: Run, ops: seq<Op>): (r': Run)
    requires Room(r.s, |ops|) && forall i :: 0 <= i < |ops| ==> !ops[i].Open?
    ensures Room(r'.s, 0) && r'.s.groupSeq <= r.s.groupSeq + |ops|
    decreases |ops|
  {
    if ops == [] then r else Apply(Run(Do(r.s, ops[0]), Ask(r.s, r.a, ops[0])), ops[1..])
  }

  /** A track that has ended takes nothing more, but a queued open still completes. */
  function TrackStep(isVideo: bool, r: TrackRun, e: TrackEvent): (r': TrackRun)
    requires Room(r.t.s, 2)
    ensures Room(r'.t.s, 0) && r'.t.s.groupSeq <= r.t.s.groupSeq + 2
  {
    if e.Opens? then
      if r.t.s.intents > 0 then TrackRun(r.t.(s := Opened(r.t.s)), r.a) else r
    else if r.t.ended then r
    else if e.Ends? then TrackRun(r.t.(s := Close(r.t.s), ended := true), Ask(r.t.s, r.a, Shut))
    else if e.Replay? then TrackRun(r.t.(s := WriteFrame(r.t.s, e.f)), Ask(r.t.s, r.a, Write(e.f)))
    else
      var r1 := Apply(Run(r.t.s, r.a), TrackOps(isVideo, r.t, e.f, e.key));
      TrackRun(r.t.(s := r1.s, nextAudioUs := NextAudio(isVideo, r.t, e.f)), r1.a)
  }

  function RunTrack(isVideo: bool, r: TrackRun, es: seq<TrackEvent>): (r': TrackRun)
    requires Room(r.t.s, 2 * |es|)
    ensures Room(r'.t.s, 0) && r'.t.s.groupSeq <= r.t.s.groupSeq + 2 * |es|
    decreases |es|
  {
    if es == [] then r
    else
      var n := |es| - 1;
      TrackStep(isVideo, RunTrack(isVideo, r, es[..n]), es[n])
  }

  predicate GoodEvent(e: TrackEvent) {
    e.Offer? || e.Replay? ==> GoodMedia(e.f)
  }

  predicate GoodTrack(es: seq<TrackEvent>) {
    forall i :: 0 <= i < |es| ==> GoodEvent(es[i])
  }

  /** The stream of a group is still opening. */
  predicate Opening(t: TrackState) {
    t.s.uni.None? && t.s.opening && !t.ended
  }

  /** Then a video key frame arrives, or the track, video or audio, ends. */
  predicate ClosesEarly(isVideo: bool, t: TrackState, e: TrackEvent) {
    Opening(t) && (e.Ends? || (isVideo && e.Offer? && e.key))
  }

  /** The state is what some frames call for. */
  ghost predicate InStep(s: Serve) {
    exists a :: Matches(s, a)
  }

  lemma ApplyFew(r: Run, a: Op, b: Op)
    requires Room(r.s, 2) && !a.Open? && !b.Open?
    ensures var r1 := Run(Do(r.s, a), Ask(r.s, r.a, a));
            && Apply(r, []) == r && Apply(r, [a]) == r1
            && Apply(r, [a, b]) == Run(Do(r1.s, b), Ask(r1.s, r1.a, b))
  {
    hide Do;
    hide Ask;
    assert [a][1..] == [] && [a, b][1..] == [b] && [b][1..] == [];
    DoRoom(r.s, a);
    var r1 := Run(Do(r.s, a), Ask(r.s, r.a, a));
    DoRoom(r1.s, b);
    assert Apply(r1, [b]) == Apply(Run(Do(r1.s, b), Ask(r1.s, r1.a, b)), []);
  }

  lemma DoRoom(s: Serve, op: Op)
    requires Room(s, 1) && !op.Open?
    ensures Valid(Do(s, op)) && Do(s, op).groupSeq <= s.groupSeq + 1
  {
  }

  lemma TrackStepMatches(isVideo: bool, r: TrackRun, e: TrackEvent)
    requires Matches(r.t.s, r.a) && Room(r.t.s, 2) && GoodEvent(e) && !ClosesEarly(isVideo, r.t, e)
    ensures var r' := TrackStep(isVideo, r, e); Matches(r'.t.s, r'.a)
  {
    hide Matches;
    hide Apply;
    var s := r.t.s;
    if e.Opens? {
      if s.intents > 0 {
        OpenMatches(s, r.a);
      }
    } else if !r.t.ended {
      if !Opening(r.t) {
        StepMatches(s, r.a, Shut);
      }
      if !e.Ends? {
        ApplyFew(Run(s, r.a), Shut, Write(e.f));
        ApplyFew(Run(s, r.a), Write(e.f), Shut);
        if !Opening(r.t) {
          StepMatches(Close(s), Ask(s, r.a, Shut), Write(e.f));
        }
        StepMatches(s, r.a, Write(e.f));
      }
    }
  }

  /** Closing that early leaves a queued open that nothing accounts for. */
  lemma EarlyCloseSplits(isVideo: bool, r: TrackRun, e: TrackEvent)
    requires Matches(r.t.s, r.a) && Room(r.t.s, 2) && ClosesEarly(isVideo, r.t, e)
    ensures !InStep(TrackStep(isVideo, r, e).t.s)
  {
    hide Apply;
    var s1 := Close(r.t.s);
    assert s1.intents == 1 && s1.uni.None? && !s1.opening;
    if e.Offer? {
      ApplyFew(Run(r.t.s, r.a), Shut, Write(e.f));
      assert WriteFrame(s1, e.f).intents == 2 && WriteFrame(s1, e.f).uni.None?;
    }
  }

  /** At the start and after every event. */
  ghost predicate AlwaysInStep(isVideo: bool, r: TrackRun, es: seq<TrackEvent>)
    requires Room(r.t.s, 2 * |es|)
    decreases |es|
  {
    InStep(RunTrack(isVideo, r, es).t.s) && (es != [] ==> AlwaysInStep(isVideo, r, es[..|es| - 1]))
  }

  /** No event of the run closes a group whose stream is still opening. */
  predicate NoEarlyClose(isVideo: bool, r: TrackRun, es: seq<TrackEvent>)
    requires Room(r.t.s, 2 * |es|)
    decreases |es|
  {
    es != [] ==>
      (var n := |es| - 1;
       NoEarlyClose(isVideo, r, es[..n]) && !ClosesEarly(isVideo, RunTrack(isVideo, r, es[..n]).t, es[n]))
  }

  /** Over every run of a track, audio or video, held frames replayed, opens completing and
      the track ending at any point: the streams stay what the frames taken call for, at
      every point, exactly if neither a video key frame nor the end of the track comes
      while a stream is still opening. */
  lemma {:induction false} TrackInStepIff(isVideo: bool, r: TrackRun, es: seq<TrackEvent>)
    requires Matches(r.t.s, r.a) && Room(r.t.s, 2 * |es|) && GoodTrack(es)
    ensures AlwaysInStep(isVideo, r, es) <==> NoEarlyClose(isVideo, r, es)
    ensures NoEarlyClose(isVideo, r, es) ==> var r' := RunTrack(isVideo, r, es); Matches(r'.t.s, r'.a)
    decreases |es|
  {
    hide Matches;
    hide TrackStep;
    hide ClosesEarly;
    hide GoodEvent;
    if es != [] {
      var n := |es| - 1;
      TrackInStepIff(isVideo, r, es[..n]);
      var r1 := RunTrack(isVideo, r, es[..n]);
      if NoEarlyClose(isVideo, r, es[..n]) {
        if ClosesEarly(isVideo, r1.t, es[n]) {
          EarlyCloseSplits(isVideo, r1, es[n]);
        } else {
          TrackStepMatches(isVideo, r1, es[n]);
        }
      }
    }
  }

  /** The end of the track, if it comes, finds no stream still opening. */
  predicate NoEarlyEnd(r: TrackRun, es: seq<TrackEvent>)
    requires Room(r.t.s, 2 * |es|)
    decreases |es|
  {
    es != [] ==>
      (var n := |es| - 1;
       NoEarlyEnd(r, es[..n]) && !(es[n].Ends? && Opening(RunTrack(false, r, es[..n]).t)))
  }

  lemma {:induction false} AudioClosesEarly(r: TrackRun, es: seq<TrackEvent>)
    requires Room(r.t.s, 2 * |es|)
    ensures NoEarlyClose(false, r, es) <==> NoEarlyEnd(r, es)
    ensures Ends !in es ==> NoEarlyEnd(r, es)
    decreases |es|
  {
    if es != [] {
      AudioClosesEarly(r, es[..|es| - 1]);
    }
  }

  /** Audio is in step until it ends, and behind that exactly if no stream was opening. */
  lemma AudioInStepIff(r: TrackRun, es: seq<TrackEvent>)
    requires Matches(r.t.s, r.a) && Room(r.t.s, 2 * |es|) && GoodTrack(es)
    ensures AlwaysInStep(false, r, es) <==> NoEarlyEnd(r, es)
    ensures Ends !in es ==> AlwaysInStep(false, r, es) && var r' := RunTrack(false, r, es); Matches(r'.t.s, r'.a)
  {
    hide *;
    AudioClosesEarly(r, es);
    TrackInStepIff(false, r, es);
  }

  function Subscribed(sid: nat): TrackRun {
    TrackRun(TrackState(NewServe(sid), 0, false), Asked([], []))
  }

  /** Audio comes to that point with its first frame. */
  lemma FirstFrameOpens(sid: nat, f: Media)
    requires sid <= VARINT_MAX && GoodMedia(f)
    ensures var r := TrackStep(false, Subscribed(sid), Offer(f, false));
            Matches(r.t.s, r.a) && Opening(r.t) && r.a == Asked([], [f])
  {
    hide Apply;
    var r := Subscribed(sid);
    ApplyFew(Run(r.t.s, r.a), Write(f), Shut);
  }

  /** A track that ends while a stream is opening, before the open completes: the frames
      that waited are gone, and the header stays alone on a stream never finished, whatever
      follows. */
  lemma EarlyEndLosesFrames(isVideo: bool, r: TrackRun, es: seq<TrackEvent>)
    requires Matches(r.t.s, r.a) && Opening(r.t) && Room(r.t.s, 2 * (|es| + 2))
    ensures var s := r.t.s;
            var s' := RunTrack(isVideo, r, [Ends, Opens] + es).t.s;
            s'.streams == s.streams + [Wire(GroupHead(s.sid, s.groupSeq), false)] && s'.pend == []
  {
    hide GroupHead;
    var run := [Ends, Opens];
    assert run[..1] == [Ends] && run[..1][..0] == [];
    var s := r.t.s;
    var s1 := Close(s);
    assert s1.intents == 1 && s1.pend == [] && s1.streams == s.streams;
    assert RunTrack(isVideo, r, []) == r;
    assert RunTrack(isVideo, r, run[..1]) == TrackStep(isVideo, r, Ends);
    assert RunTrack(isVideo, r, run) == TrackStep(isVideo, TrackStep(isVideo, r, Ends), Opens);
    assert WriteAll(HeadWritten(s1), []) == HeadWritten(s1);
    EndedStays(isVideo, r, run, es);
  }

  lemma {:induction false} EndedStays(isVideo: bool, r: TrackRun, run: seq<TrackEvent>, es: seq<TrackEvent>)
    requires Room(r.t.s, 2 * (|run| + |es|))
    requires RunTrack(isVideo, r, run).t.ended && RunTrack(isVideo, r, run).t.s.intents == 0
    ensures RunTrack(isVideo, r, run + es) == RunTrack(isVideo, r, run)
    decreases |es|
  {
    if es == [] {
      assert run + es == run;
    } else {
      var n := |es| - 1;
      EndedStays(isVideo, r, run, es[..n]);
      assert (run + es)[..|run + es| - 1] == run + es[..n];
    }
  }
}
