/** Which frames of a track are written, and where its groups begin. */
module MoqTrackSpec {
  import opened MoqServeSpec
  import opened MoqWire
  import opened Options

  /** A run that has come this far and can go on with this event. */
  ghost predicate Ready(isVideo: bool, r: TrackRun, e: TrackEvent) {
    Matches(r.t.s, r.a) && Room(r.t.s, 2) && GoodEvent(e) && !r.t.ended && !ClosesEarly(isVideo, r.t, e)
  }

  /** The group so far is over and this frame begins the next. */
  function NewGroup(a: Asked, f: Media): Asked {
    Asked(if a.current == [] then a.closed else a.closed + [a.current], [f])
  }

  function Continued(a: Asked, f: Media): Asked {
    a.(current := a.current + [f])
  }

  /** 64 frames wait for the stream of their group. */
  predicate Crowded(r: TrackRun) {
    r.t.s.uni.None? && r.t.s.opening && |r.a.current| >= 64
  }

  /** A video key frame begins a group. Any other frame goes on with the group that has
      begun, and is dropped if none has (or while 64 frames wait for their stream). */
  lemma VideoFrame(r: TrackRun, f: Media, key: bool)
    requires Ready(true, r, Offer(f, key))
    ensures TrackStep(true, r, Offer(f, key)).a ==
              if key then NewGroup(r.a, f)
              else if r.a.current == [] || Crowded(r) then r.a
              else Continued(r.a, f)
    ensures var r' := TrackStep(true, r, Offer(f, key)); Matches(r'.t.s, r'.a)
  {
    TrackStepMatches(true, r, Offer(f, key));
    ApplyFew(Run(r.t.s, r.a), Shut, Write(f));
    ApplyFew(Run(r.t.s, r.a), Write(f), Shut);
    hide Apply;
  }

  /** The time from which on a frame begins the next audio group. */
  predicate Until(r: TrackRun, us: int) {
    r.a.current != [] ==> r.t.nextAudioUs == us
  }

  /** An audio frame begins a group when there is none, or when the stream of the group is
      open and the time of the group is over; otherwise it goes on with the group. */
  lemma AudioFrame(r: TrackRun, f: Media, us: int)
    requires Ready(false, r, Offer(f, false)) && Until(r, us)
    ensures TrackStep(false, r, Offer(f, false)).a ==
              if r.t.s.uni.Some? && f.ts >= us then NewGroup(r.a, f)
              else if Crowded(r) then r.a
              else Continued(r.a, f)
    ensures var r' := TrackStep(false, r, Offer(f, false));
            && Matches(r'.t.s, r'.a)
            && Until(r', if r'.a.current == [f] then f.ts + 1_000_000 else us)
  {
    SmallInt64(f.ts);
    TrackStepMatches(false, r, Offer(f, false));
    ApplyFew(Run(r.t.s, r.a), Shut, Write(f));
    ApplyFew(Run(r.t.s, r.a), Write(f), Shut);
    hide Apply;
  }

  /** A held frame goes on with the group, or begins one, and leaves the time alone. */
  lemma ReplayedFrame(isVideo: bool, r: TrackRun, f: Media)
    requires Ready(isVideo, r, Replay(f))
    ensures var r' := TrackStep(isVideo, r, Replay(f));
            && r'.a == (if Crowded(r) then r.a else Continued(r.a, f))
            && r'.t.nextAudioUs == r.t.nextAudioUs && Matches(r'.t.s, r'.a)
  {
    TrackStepMatches(isVideo, r, Replay(f));
  }

  /** Nothing else asks for a frame; the end closes the group. */
  lemma OtherEvent(isVideo: bool, r: TrackRun, e: TrackEvent)
    requires Matches(r.t.s, r.a) && Room(r.t.s, 2) && GoodEvent(e) && !ClosesEarly(isVideo, r.t, e)
    requires r.t.ended || e.Opens? || e.Ends?
    ensures var r' := TrackStep(isVideo, r, e);
            && Groups(r'.a) == Groups(r.a) && (r'.a.current == r.a.current || r'.a.current == [])
            && r'.t.nextAudioUs == r.t.nextAudioUs && Matches(r'.t.s, r'.a)
            && (r'.a.closed == [] ==> r.a.closed == [])
            && (r'.a.current == [] || r'.a == r.a)
  {
    TrackStepMatches(isVideo, r, e);
    hide Matches;
    hide Opened;
  }

  /** The groups asked for so far, the one being written included. */
  function Groups(a: Asked): seq<seq<Media>> {
    a.closed + (if a.current == [] then [] else [a.current])
  }

  // ------------------------------------------------------------------
  // Video
  // ------------------------------------------------------------------

  /** The frames the writer had room for while the track was on, as they were offered. */
  function Taken(isVideo: bool, r: TrackRun, es: seq<TrackEvent>): seq<TrackEvent>
    requires Room(r.t.s, 2 * |es|)
    decreases |es|
  {
    if es == [] then []
    else
      var n := |es| - 1;
      var late := Ends in es[..n] || Crowded(RunTrack(isVideo, r, es[..n]));
      Taken(isVideo, r, es[..n]) + (if (es[n].Offer? || es[n].Replay?) && !late then [es[n]] else [])
  }

  /** These frames, split at the key frames: a key frame begins a group, and so does a held
      frame when there is no group; other frames in front of all groups are dropped. */
  function SplitAtKeys(es: seq<TrackEvent>): seq<seq<Media>>
    decreases |es|
  {
    if es == [] then []
    else
      var n := |es| - 1;
      var before := SplitAtKeys(es[..n]);
      if !es[n].Offer? && !es[n].Replay? then before
      else if (es[n].Offer? && es[n].key) || (es[n].Replay? && before == []) then before + [[es[n].f]]
      else if before == [] then []
      else before[..|before| - 1] + [before[|before| - 1] + [es[n].f]]
  }

  lemma SplitPush(es: seq<TrackEvent>, e: TrackEvent, a: Asked)
    requires Groups(a) == SplitAtKeys(es)
    requires forall i :: 0 <= i < |a.closed| ==> a.closed[i] != []
    requires e.Replay? && a.current == [] ==> a.closed == []
    ensures e.Offer? && e.key ==> Groups(NewGroup(a, e.f)) == SplitAtKeys(es + [e])
    ensures e.Replay? || (e.Offer? && !e.key && a.current != []) ==> Groups(Continued(a, e.f)) == SplitAtKeys(es + [e])
    ensures e.Offer? && !e.key && a.current == [] && a.closed == [] ==> Groups(a) == SplitAtKeys(es + [e])
  {
    assert (es + [e])[..|es|] == es;
    if a.current != [] {
      assert Groups(a)[..|Groups(a)| - 1] == a.closed && Groups(a)[|Groups(a)| - 1] == a.current;
    } else if e.Replay? {
      assert a.current + [e.f] == [e.f];
    }
  }

  /** The groups of a video track are its frames split at the key frames: over every run of
      offered and replayed frames, completed opens and the end, in which no group is closed
      while its stream is opening. */
  lemma {:induction false} VideoGroups(sid: nat, es: seq<TrackEvent>)
    requires sid <= VARINT_MAX && 2 * |es| + 2 <= VARINT_MAX && GoodTrack(es)
    requires NoEarlyClose(true, Subscribed(sid), es)
    ensures var r := RunTrack(true, Subscribed(sid), es);
            && Matches(r.t.s, r.a) && Groups(r.a) == SplitAtKeys(Taken(true, Subscribed(sid), es))
            && (!r.t.ended && r.a.current == [] ==> r.a.closed == [])
    decreases |es|
  {
    hide Matches;
    hide TrackStep;
    hide SplitAtKeys;
    hide ClosesEarly;
    hide GoodEvent;
    hide Groups;
    if es == [] {
      NothingTaken(sid);
    } else {
      var n := |es| - 1;
      VideoGroups(sid, es[..n]);
      EndedIff(true, Subscribed(sid), es[..n]);
      VideoStep(RunTrack(true, Subscribed(sid), es[..n]), es[n], Taken(true, Subscribed(sid), es[..n]));
    }
  }

  lemma {:induction false} EndedIff(isVideo: bool, r: TrackRun, es: seq<TrackEvent>)
    requires Room(r.t.s, 2 * |es|) && !r.t.ended
    ensures RunTrack(isVideo, r, es).t.ended <==> Ends in es
    decreases |es|
  {
    hide Opened;
    hide WriteFrame;
    hide Close;
    if es != [] {
      var n := |es| - 1;
      EndedIff(isVideo, r, es[..n]);
      assert es == es[..n] + [es[n]];
    }
  }

  lemma NothingTaken(sid: nat)
    requires sid <= VARINT_MAX
    ensures var r := Subscribed(sid); Matches(r.t.s, r.a) && Groups(r.a) == SplitAtKeys([]) == []
  {
  }

  lemma VideoStep(r: TrackRun, e: TrackEvent, taken: seq<TrackEvent>)
    requires Matches(r.t.s, r.a) && Room(r.t.s, 2) && GoodEvent(e) && !ClosesEarly(true, r.t, e)
    requires Groups(r.a) == SplitAtKeys(taken) && (!r.t.ended && r.a.current == [] ==> r.a.closed == [])
    ensures var r' := TrackStep(true, r, e);
            var taken' := taken + (if (e.Offer? || e.Replay?) && !r.t.ended && !Crowded(r) then [e] else []);
            && Matches(r'.t.s, r'.a) && Groups(r'.a) == SplitAtKeys(taken')
            && (!r'.t.ended && r'.a.current == [] ==> r'.a.closed == [])
  {
    assert taken + [] == taken;
    if r.t.ended || e.Opens? || e.Ends? {
      OtherEvent(true, r, e);
    } else {
      NoneEmpty(r);
      SplitPush(taken, e, r.a);
      if e.Replay? {
        ReplayedFrame(true, r, e.f);
      } else {
        VideoFrame(r, e.f, e.key);
      }
    }
    hide Matches;
    hide SplitAtKeys;
  }

  lemma NoneEmpty(r: TrackRun)
    requires Matches(r.t.s, r.a)
    ensures forall i :: 0 <= i < |r.a.closed| ==> r.a.closed[i] != []
    ensures Crowded(r) ==> r.a.current != []
  {
  }

  // ---- what the split is ----

  /** The frames that begin a group. */
  function Begins(es: seq<TrackEvent>): seq<Media>
    decreases |es|
  {
    if es == [] then []
    else
      var n := |es| - 1;
      var before := Begins(es[..n]);
      before + (if (es[n].Offer? && es[n].key) || (es[n].Replay? && before == []) then [es[n].f] else [])
  }

  /** The frames but those offered in front of the first one that begins a group. */
  function Kept(es: seq<TrackEvent>): seq<Media>
    decreases |es|
  {
    if es == [] then []
    else
      var n := |es| - 1;
      Kept(es[..n]) + (if (es[n].Offer? || es[n].Replay?) && Begins(es) != [] then [es[n].f] else [])
  }

  function Flat(groups: seq<seq<Media>>): seq<Media>
    decreases |groups|
  {
    if groups == [] then [] else Flat(groups[..|groups| - 1]) + groups[|groups| - 1]
  }

  function Heads(groups: seq<seq<Media>>): seq<Media>
    requires [] !in groups
  {
    seq(|groups|, i requires 0 <= i < |groups| => assert groups[i] in groups; groups[i][0])
  }

  /** One more group, and one more frame in the last. */
  lemma GroupsGrow(groups: seq<seq<Media>>, f: Media)
    requires [] !in groups
    ensures [] !in groups + [[f]] && Heads(groups + [[f]]) == Heads(groups) + [f] && Flat(groups + [[f]]) == Flat(groups) + [f]
    ensures groups != [] ==>
              var n := |groups| - 1;
              var more := groups[..n] + [groups[n] + [f]];
              [] !in more && Heads(more) == Heads(groups) && Flat(more) == Flat(groups) + [f]
  {
    assert (groups + [[f]])[..|groups|] == groups;
    if groups != [] {
      var n := |groups| - 1;
      assert groups[n] in groups;
      var more := groups[..n] + [groups[n] + [f]];
      assert more[..n] == groups[..n] && more[n] == groups[n] + [f];
      assert [] !in more;
      assert Heads(more) == Heads(groups);
    }
  }

  lemma NoHeads(groups: seq<seq<Media>>)
    requires [] !in groups
    ensures Heads(groups) == [] <==> groups == []
  {
    assert |Heads(groups)| == |groups|;
  }

  /** Nothing kept is lost, doubled or moved, and the groups begin with exactly the frames
      that begin one. */
  lemma {:induction false} SplitIsAtKeys(es: seq<TrackEvent>)
    ensures [] !in SplitAtKeys(es)
    ensures Flat(SplitAtKeys(es)) == Kept(es) && Heads(SplitAtKeys(es)) == Begins(es)
    decreases |es|
  {
    hide Flat;
    hide Heads;
    if es == [] {
      NoGroups();
    } else {
      var n := |es| - 1;
      SplitIsAtKeys(es[..n]);
      var before := SplitAtKeys(es[..n]);
      NoHeads(before);
      assert Kept(es[..n]) + [] == Kept(es[..n]) && Begins(es[..n]) + [] == Begins(es[..n]);
      if es[n].Offer? || es[n].Replay? {
        GroupsGrow(before, es[n].f);
      }
    }
  }

  lemma NoGroups()
    ensures Flat([]) == [] && Heads([]) == []
  {
  }

  // ------------------------------------------------------------------
  // Audio
  // ------------------------------------------------------------------

  predicate NoReplay(es: seq<TrackEvent>) {
    forall i :: 0 <= i < |es| ==> !es[i].Replay?
  }

  predicate OnlyReplays(es: seq<TrackEvent>) {
    forall i :: 0 <= i < |es| ==> es[i].Replay?
  }

  /** A group lasts a second from its first frame; one begun by held frames is over at once. */
  predicate OneSecond(r: TrackRun, held: bool) {
    r.a.current != [] ==> r.t.nextAudioUs == if held && r.a.closed == [] then 0 else r.a.current[0].ts + 1_000_000
  }

  lemma AudioStep(r: TrackRun, e: TrackEvent, held: bool)
    requires Matches(r.t.s, r.a) && Room(r.t.s, 2) && GoodEvent(e) && !ClosesEarly(false, r.t, e) && !e.Replay?
    requires OneSecond(r, held) && (held && !r.t.ended && r.a.closed == [] ==> r.a.current != [])
    ensures var r' := TrackStep(false, r, e);
            && Matches(r'.t.s, r'.a) && OneSecond(r', held)
            && (held && !r'.t.ended && r'.a.closed == [] ==> r'.a.current != [])
            && Flat(Groups(r'.a)) == Flat(Groups(r.a)) + (if e.Offer? && !r.t.ended && !Crowded(r) then [e.f] else [])
  {
    hide Matches;
    hide Flat;
    hide TrackStep;
    if r.t.ended || !e.Offer? {
      OtherEvent(false, r, e);
      assert Flat(Groups(r.a)) + [] == Flat(Groups(r.a));
    } else {
      KeyIsIgnored(r, e.f, e.key);
      AudioOffer(r, e.f, held);
    }
    EndsOnlyOnce(r, e);
  }

  lemma KeyIsIgnored(r: TrackRun, f: Media, key: bool)
    requires Room(r.t.s, 2)
    ensures TrackStep(false, r, Offer(f, key)) == TrackStep(false, r, Offer(f, false))
  {
    hide Apply;
    hide NextAudio;
    assert TrackOps(false, r.t, f, key) == TrackOps(false, r.t, f, false);
  }

  lemma EndsOnlyOnce(r: TrackRun, e: TrackEvent)
    requires Room(r.t.s, 2)
    ensures TrackStep(false, r, e).t.ended <==> r.t.ended || e.Ends?
  {
    hide Apply;
    hide Opened;
    hide Close;
    hide WriteFrame;
  }

  lemma AudioOffer(r: TrackRun, f: Media, held: bool)
    requires Ready(false, r, Offer(f, false))
    requires OneSecond(r, held) && (held && r.a.closed == [] ==> r.a.current != [])
    ensures var r' := TrackStep(false, r, Offer(f, false));
            && Matches(r'.t.s, r'.a) && OneSecond(r', held) && r'.a.current != []
            && Flat(Groups(r'.a)) == Flat(Groups(r.a)) + (if Crowded(r) then [] else [f])
  {
    hide Matches;
    hide Flat;
    hide TrackStep;
    AudioFrame(r, f, r.t.nextAudioUs);
    NoneEmpty(r);
    FlatPush(r.a, f);
    assert Flat(Groups(r.a)) + [] == Flat(Groups(r.a));
  }

  lemma FlatPush(a: Asked, f: Media)
    ensures Flat(Groups(NewGroup(a, f))) == Flat(Groups(Continued(a, f))) == Flat(Groups(a)) + [f]
  {
    var groups := Groups(NewGroup(a, f));
    assert groups[..|groups| - 1] == Groups(a) && groups[|groups| - 1] == [f];
    var groups' := Groups(Continued(a, f));
    assert groups'[..|groups'| - 1] == a.closed && groups'[|groups'| - 1] == a.current + [f];
    if a.current == [] {
      assert Groups(a) == a.closed && a.current + [f] == [f];
    } else {
      assert Groups(a)[..|Groups(a)| - 1] == a.closed && Groups(a)[|Groups(a)| - 1] == a.current;
    }
  }

  lemma {:induction false} HeldFrames(sid: nat, hold: seq<TrackEvent>)
    requires sid <= VARINT_MAX && 2 * |hold| <= VARINT_MAX && GoodTrack(hold) && OnlyReplays(hold)
    ensures var r := RunTrack(false, Subscribed(sid), hold);
            && Matches(r.t.s, r.a) && r.a.closed == [] && r.t.nextAudioUs == 0 && !r.t.ended
            && (hold != [] ==> r.a.current != []) && Flat(Groups(r.a)) == Offered(Taken(false, Subscribed(sid), hold))
            && r.a.current == Offered(Taken(false, Subscribed(sid), hold))
    decreases |hold|
  {
    hide Matches;
    hide TrackStep;
    hide Flat;
    if hold == [] {
      NothingTaken(sid);
      NothingFlat();
    } else {
      var n := |hold| - 1;
      HeldFrames(sid, hold[..n]);
      var r := RunTrack(false, Subscribed(sid), hold[..n]);
      var taken := Taken(false, Subscribed(sid), hold[..n]);
      NoneEmpty(r);
      ReplayedFrame(false, r, hold[n].f);
      EndsOnlyOnce(r, hold[n]);
      FlatPush(r.a, hold[n].f);
      OfferedPush(taken, hold[n]);
      assert taken + [] == taken;
    }
  }

  lemma NothingFlat()
    ensures Flat(Groups(Asked([], []))) == []
  {
  }

  /** The frames of these events. */
  function Offered(es: seq<TrackEvent>): seq<Media>
    decreases |es|
  {
    if es == [] then []
    else
      var n := |es| - 1;
      Offered(es[..n]) + (if es[n].Offer? || es[n].Replay? then [es[n].f] else [])
  }

  lemma OfferedPush(es: seq<TrackEvent>, e: TrackEvent)
    ensures Offered(es + [e]) == Offered(es) + (if e.Offer? || e.Replay? then [e.f] else [])
  {
    assert (es + [e])[..|es|] == es;
  }

  /** Over every run of an audio track in which the end finds no stream opening, held frames
      first: no frame it had room for is lost, doubled or moved, and a group lasts a second
      from its first frame (`AudioFrame` says where the next begins). */
  lemma {:induction false} AudioGroups(sid: nat, hold: seq<TrackEvent>, es: seq<TrackEvent>)
    requires sid <= VARINT_MAX && 2 * (|hold| + |es|) <= VARINT_MAX && GoodTrack(hold) && GoodTrack(es)
    requires OnlyReplays(hold) && NoReplay(es) && NoEarlyClose(false, Subscribed(sid), hold + es)
    ensures var r := RunTrack(false, Subscribed(sid), hold + es);
            && Matches(r.t.s, r.a) && OneSecond(r, hold != [])
            && (hold != [] && !r.t.ended && r.a.closed == [] ==> r.a.current != [])
            && Flat(Groups(r.a)) == Offered(Taken(false, Subscribed(sid), hold + es))
    decreases |es|
  {
    hide Matches;
    hide TrackStep;
    hide Flat;
    hide ClosesEarly;
    hide Groups;
    if es == [] {
      assert hold + es == hold;
      HeldFrames(sid, hold);
    } else {
      var n := |es| - 1;
      var before := hold + es[..n];
      assert (hold + es)[..|hold + es| - 1] == before && (hold + es)[|hold + es| - 1] == es[n];
      AudioGroups(sid, hold, es[..n]);
      var r := RunTrack(false, Subscribed(sid), before);
      AudioStep(r, es[n], hold != []);
      EndedIff(false, Subscribed(sid), before);
      OfferedPush(Taken(false, Subscribed(sid), before), es[n]);
      assert Taken(false, Subscribed(sid), before) + [] == Taken(false, Subscribed(sid), before);
    }
  }
}
