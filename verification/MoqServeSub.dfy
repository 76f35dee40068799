/** The subscription record of the publisher, updated in place: every routine does to
    the record what the specification says. */
module MoqServeRecord {
  import opened MoqServeSpec
  import opened MoqWire
  import opened Options

  class ServeSub {
    const sid: nat
    var groupSeq: nat
    var uni: Option<nat>
    var groupOpening: bool
    var pend: seq<Media>
    var groupPrevUs: int
    var groupOpenUs: int
    var groupHadMedia: bool
    var started: bool
    var reply: Bytes
    /** Queued stream opens of this subscription. */
    var intents: nat
    /** The unidirectional streams opened for it, and what was written to them. */
    var streams: seq<Wire>
    /** Where the next audio group begins. */
    var nextAudioUs: int
    /** The track has ended. */
    var trackDead: bool

    function Abs(): Serve
      reads this
    {
      Serve(sid, groupSeq, uni, groupOpening, pend, groupPrevUs, groupOpenUs, groupHadMedia,
            started, reply, intents, streams)
    }

    function Track(): TrackState
      reads this
    {
      TrackState(Abs(), nextAudioUs, trackDead)
    }

    constructor (sid: nat)
      ensures Abs() == NewServe(sid) && Track() == Subscribed(sid).t
    {
      this.sid := sid;
      groupSeq, uni, groupOpening, pend := 0, None, false, [];
      groupPrevUs, groupOpenUs, groupHadMedia := 0, 0, false;
      started, reply, intents, streams := false, [], 0, [];
      nextAudioUs, trackDead := 0, false;
    }

    /** quic_client_stream_write on a group stream */
    method StreamWrite(k: nat, bytes: Bytes, fin: bool)
      requires k < |streams|
      modifies this`streams
      ensures streams == old(streams)[k := Wire(old(streams)[k].bytes + bytes, fin || old(streams)[k].fin)]
    {
      streams := streams[k := Wire(streams[k].bytes + bytes, fin || streams[k].fin)];
    }

    /** serve_write_one */
    method WriteOneFrame(f: Media)
      requires Valid(Abs()) && uni.Some?
      modifies this
      ensures Track() == old(Track()).(s := WriteOne(old(Abs()), f))
    {
      var bytes := EncodeMedia(f, groupPrevUs);
      if bytes.Some? {
        StreamWrite(uni.value, bytes.value, false);
      }
      groupPrevUs := AsInt64(f.ts);
      groupHadMedia := true;
    }

    /** serve_frame_buffer */
    method FrameBuffer(f: Media)
      modifies this`pend
      ensures pend == if |old(pend)| >= MAX_PEND then old(pend) else old(pend) + [f]
    {
      if |pend| >= MAX_PEND {
        return;
      }
      pend := pend + [f];
    }

    /** serve_frame_flush */
    method FrameFlush()
      requires Valid(Abs()) && uni.Some?
      modifies this
      ensures Track() == old(Track()).(s := WriteAll(old(Abs()), old(pend)).(pend := []))
    {
      ghost var s := Abs();
      for i := 0 to |pend|
        invariant pend == s.pend && Valid(Abs()) && uni.Some?
        invariant Track() == old(Track()).(s := WriteAll(s, s.pend[..i]))
      {
        assert s.pend[..i + 1][..i] == s.pend[..i];
        WriteOneFrame(pend[i]);
      }
      assert s.pend[..|s.pend|] == s.pend;
      pend := [];
    }

    /** serve_write_frame */
    method WriteMedia(f: Media)
      requires Valid(Abs())
      modifies this
      ensures Track() == old(Track()).(s := WriteFrame(old(Abs()), f))
    {
      if uni.None? {
        if !groupOpening {
          groupOpening := true;
          groupOpenUs := AsInt64(f.ts);
          groupPrevUs := 0;
          groupHadMedia := false;
          intents := intents + 1;
        }
        FrameBuffer(f);
        return;
      }
      WriteOneFrame(f);
    }

    /** serve_group_open_on_stream, for a stream that is new */
    method OpenOnStream()
      requires Valid(Abs()) && intents > 0
      modifies this
      ensures Track() == old(Track()).(s := Opened(old(Abs())))
    {
      hide WriteAll;
      hide GroupHead;
      var k := |streams|;
      intents := intents - 1;
      uni := Some(k);
      if !started {
        reply := reply + SubscribeStartBytes(0);
        started := true;
      }
      var head := EncodeHead(sid, groupSeq);
      streams := streams + [Wire(head, false)];
      groupOpening := false;
      assert Track() == old(Track()).(s := HeadWritten(old(Abs())));
      FrameFlush();
    }

    /** serve_group_close */
    method GroupClose()
      requires Valid(Abs()) && groupSeq < VARINT_MAX
      modifies this
      ensures Track() == old(Track()).(s := Close(old(Abs())))
    {
      if uni.None? {
        pend := [];
        groupOpening := false;
        return;
      }
      var endUs := if groupHadMedia then groupPrevUs else groupOpenUs;
      var seg := EncodeMarker(endUs);
      if seg.Some? {
        StreamWrite(uni.value, seg.value, true);
      }
      uni := None;
      groupHadMedia := false;
      groupSeq := groupSeq + 1;
    }

    /** moq_lite_track_frame, for this subscription */
    method TrackFrame(isVideo: bool, f: Media, key: bool, ghost a: Asked)
      requires Room(Abs(), 2)
      modifies this
      ensures Track() == TrackStep(isVideo, TrackRun(old(Track()), a), Offer(f, key)).t
    {
      hide Apply;
      hide WriteFrame;
      hide Close;
      if trackDead {
        return;
      }
      ghost var r := Run(Abs(), a);
      ApplyFew(r, Shut, Write(f));
      ApplyFew(r, Write(f), Shut);
      if isVideo {
        if key {
          if uni.Some? || groupOpening {
            GroupClose();
          }
        } else if uni.None? && !groupOpening {
          return;
        }
      } else {
        if uni.Some? && AsInt64(f.ts) >= nextAudioUs {
          GroupClose();
          ClosedHasNone(r.s);
        }
        if uni.None? && !groupOpening {
          nextAudioUs := AsInt64(f.ts) + AUDIO_GROUP_US;
        }
      }
      WriteMedia(f);
    }

    /** moq_lite_track_end, for this subscription */
    method TrackEnd(isVideo: bool, ghost a: Asked)
      requires Room(Abs(), 2)
      modifies this
      ensures Track() == TrackStep(isVideo, TrackRun(old(Track()), a), Ends).t
    {
      if trackDead {
        return;
      }
      GroupClose();
      trackDead := true;
    }

    /** serve_replay_hold, on a new subscription */
    method ReplayHold(isVideo: bool, hold: seq<Media>, ghost a: Asked)
      requires Room(Abs(), 2 * |hold|) && !trackDead
      modifies this
      ensures Track() == RunTrack(isVideo, TrackRun(old(Track()), a), Replays(hold)).t
    {
      ghost var r := TrackRun(Track(), a);
      for i := 0 to |hold|
        invariant Valid(Abs()) && Track() == RunTrack(isVideo, r, Replays(hold[..i])).t && !trackDead
      {
        assert hold[..i + 1][..i] == hold[..i];
        WriteMedia(hold[i]);
      }
      assert hold[..|hold|] == hold;
    }
  }

  function Replays(hold: seq<Media>): (es: seq<TrackEvent>)
    ensures |es| == |hold|
    decreases |hold|
  {
    if hold == [] then [] else Replays(hold[..|hold| - 1]) + [Replay(hold[|hold| - 1])]
  }

  lemma ClosedHasNone(s: Serve)
    requires Room(s, 1) && s.uni.Some?
    ensures Close(s).uni.None? && Close(s).opening == s.opening
  {
  }

  method EncodeMedia(f: Media, prevUs: int) returns (bytes: Option<Bytes>)
    ensures bytes == MediaBytes(prevUs, f)
  {
    hide VarintBytes;
    hide FrameBytes;
    var body := new MoqBuf();
    var ok := body.WriteVarint(f.ts);
    if !ok || |body.bytes| + |f.data| > VARINT_MAX {
      return None;
    }
    body.Append(f.data);
    assert body.bytes == VarintBytes(f.ts) + f.data;
    var seg := new MoqBuf();
    ok := seg.WriteFrame(AsInt64(f.ts) - prevUs, body.bytes);
    if !ok {
      return None;
    }
    assert seg.bytes == MediaBytes(prevUs, f).value;
    return Some(seg.bytes);
  }

  method EncodeHead(sid: nat, group: nat) returns (bytes: Bytes)
    requires sid <= VARINT_MAX && group <= VARINT_MAX
    ensures bytes == GroupHead(sid, group)
  {
    var out := new MoqBuf();
    var ok := out.WriteVarint(0);
    ok := out.WriteGroupHeader(sid, group, 0);
    assert out.bytes == GroupHead(sid, group);
    bytes := out.bytes;
  }

  method EncodeMarker(endUs: int) returns (bytes: Option<Bytes>)
    ensures bytes == MarkerBytes(endUs)
  {
    if endUs < 0 {
      return None;
    }
    var payload := new MoqBuf();
    var ok := payload.WriteVarint(endUs);
    if !ok {
      return None;
    }
    assert payload.bytes == VarintBytes(endUs);
    var seg := new MoqBuf();
    ok := seg.WriteFrame(0, payload.bytes);
    ZigzagRoundTrip(0);
    assert seg.bytes == MarkerBytes(endUs).value;
    return Some(seg.bytes);
  }
}
