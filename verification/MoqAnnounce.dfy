/** Announcing broadcasts: a peer asks once, on a stream that then stays open; what becomes
    announceable later is added to it. */
module MoqAnnounceSpec {
  import opened MoqParser
  import opened MoqWire
  import opened Options

  /** MOQ_MAX_PUB_TRACKS */
  const MAX_PUB_TRACKS: nat := 4

  /** A broadcast of ours. */
  datatype Pub = Pub(path: Bytes, tracks: nat, announced: bool)

  /** What is written to a peer's stream. */
  datatype Sent = SentOk(active: nat) | SentStart(suffix: Bytes)

  /** The record of a bidirectional stream the peer opened has the announce kind from the start, before
      its type was read. */
  datatype PeerKind = Untyped | AnnounceKind | OtherKind

  datatype Peer = Peer(kind: PeerKind, prefix: Bytes, answered: bool, done: bool, log: seq<Sent>)

  datatype Publisher = Publisher(pubs: seq<Pub>, peers: seq<Peer>)

  /** pub_suffix_for: the path relative to the requested prefix, if it is in scope. */
  function Suffix(prefix: Bytes, path: Bytes): Option<Bytes> {
    if prefix == [] then Some(path)
    else if path == prefix then Some([])
    else if |path| > |prefix| && path[..|prefix|] == prefix && path[|prefix|] == SLASH then Some(path[|prefix| + 1..])
    else None
  }

  /** The broadcast can be announced; with `late`, it has not been announced afterwards yet. */
  predicate Due(p: Pub, late: bool) {
    p.tracks > 0 && !(late && p.announced)
  }

  function Starts(pubs: seq<Pub>, prefix: Bytes, late: bool): seq<Sent>
    decreases |pubs|
  {
    if pubs == [] then []
    else
      var n := |pubs| - 1;
      var sfx := Suffix(prefix, pubs[n].path);
      Starts(pubs[..n], prefix, late) + (if Due(pubs[n], late) && sfx.Some? then [SentStart(sfx.value)] else [])
  }

  /** serve_parse_announce and serve_announce_write: the answer to a request. */
  function Answer(pubs: seq<Pub>, q: Peer, request: Bytes): Peer {
    var prefix := CString(request);
    var starts := Starts(pubs, prefix, false);
    q.(prefix := prefix, answered := true, log := q.log + [SentOk(|starts|)] + starts)
  }

  /** What serve_parse_announce finds in the buffer of an announce stream. */
  datatype Request = NotYet | Bad | Asked(prefix: Bytes, size: nat)

  /** One message holding one string and nothing else. */
  function ReadRequest(buf: Bytes): (r: Request)
    ensures r.Asked? ==> 1 <= r.size <= |buf|
  {
    match ReadMsg(buf)
    case NeedMore => NotYet
    case TooLarge => Bad
    case Message(start, end) =>
      match ReadStr(buf[start..end])
      case None => Bad
      case Some(str) => if str.size == end - start then Asked(str.value, end) else Bad
  }

  /** A well-formed request is found, whatever follows it. */
  lemma RequestReadsBack(prefix: Bytes, rest: Bytes)
    requires |prefix| <= MAX_MESSAGE && |StrBytes(prefix)| <= MAX_MESSAGE
    ensures ReadRequest(MsgBytes(StrBytes(prefix)) + rest) == Asked(prefix, |MsgBytes(StrBytes(prefix))|)
  {
    MsgRoundTrip(StrBytes(prefix), rest);
    StrRoundTrip(prefix, []);
    assert StrBytes(prefix) + [] == StrBytes(prefix);
    hide StrBytes;
    hide MsgBytes;
    hide ReadMsg;
    hide ReadStr;
  }

  /** A request is found exactly where a message ends with the one string it holds; anything
      else in a whole message is malformed, and so is an oversize one. */
  lemma RequestIff(buf: Bytes, prefix: Bytes, size: nat)
    ensures ReadRequest(buf) == Asked(prefix, size) <==>
              exists start: nat :: ReadMsg(buf) == Message(start, size) && start <= size && ReadStr(buf[start..size]) == Some(Read(prefix, size - start))
    ensures ReadRequest(buf) == NotYet <==> ReadMsg(buf) == NeedMore
  {
    hide ReadStr;
    hide ReadMsg;
  }

  /** Where a late announcement goes: streams of the announce kind, asked on or not. */
  predicate Listens(q: Peer) {
    !q.done && !q.kind.OtherKind?
  }

  predicate InScope(q: Peer, path: Bytes) {
    Listens(q) && Suffix(q.prefix, path).Some?
  }

  function SendOne(q: Peer, path: Bytes): Peer {
    if InScope(q, path) then q.(log := q.log + [SentStart(Suffix(q.prefix, path).value)]) else q
  }

  function SendTo(peers: seq<Peer>, path: Bytes): seq<Peer> {
    seq(|peers|, j requires 0 <= j < |peers| => SendOne(peers[j], path))
  }

  predicate Reaches(peers: seq<Peer>, path: Bytes) {
    exists j :: 0 <= j < |peers| && InScope(peers[j], path)
  }

  /** serve_reannounce: each broadcast that is due goes to all streams in scope, and counts
      as announced if there was one. */
  function Reannounce(pubs: seq<Pub>, peers: seq<Peer>): (r: (seq<Pub>, seq<Peer>))
    ensures |r.0| == |pubs| && |r.1| == |peers|
    decreases |pubs|
  {
    if pubs == [] then ([], peers)
    else
      var n := |pubs| - 1;
      var (ps, qs) := Reannounce(pubs[..n], peers);
      var p := pubs[n];
      if Due(p, true) then (ps + [p.(announced := Reaches(qs, p.path))], SendTo(qs, p.path))
      else (ps + [p], qs)
  }

  datatype Event =
    | PeerOpens
    | PeerTypes(i: nat, announce: bool)
    | PeerRequests(i: nat, request: Bytes)
    | PeerGone(i: nat)
    | Publish(path: Bytes)
    | PublishTrack(k: nat)

  function Step(s: Publisher, e: Event): Publisher {
    match e
    case PeerOpens => s.(peers := s.peers + [Peer(Untyped, [], false, false, [])])
    case PeerTypes(i, announce) =>
      if i < |s.peers| && s.peers[i].kind == Untyped && !s.peers[i].done
      then s.(peers := s.peers[i := s.peers[i].(kind := if announce then AnnounceKind else OtherKind)]) else s
    case PeerRequests(i, request) =>
      if i < |s.peers| && s.peers[i].kind == AnnounceKind && !s.peers[i].done
      then s.(peers := s.peers[i := Answer(s.pubs, s.peers[i], request)]) else s
    case PeerGone(i) =>
      if i < |s.peers| then s.(peers := s.peers[i := s.peers[i].(done := true)]) else s
    case Publish(path) =>
      if CString(path) == [] then s else s.(pubs := s.pubs + [Pub(CString(path), 0, false)])
    case PublishTrack(k) =>
      if k < |s.pubs| && s.pubs[k].tracks < MAX_PUB_TRACKS then
        var (pubs, peers) := Reannounce(s.pubs[k := s.pubs[k].(tracks := s.pubs[k].tracks + 1)], s.peers);
        Publisher(pubs, peers)
      else s
  }

  function Run(s: Publisher, es: seq<Event>): Publisher
    decreases |es|
  {
    if es == [] then s else Run(Step(s, es[0]), es[1..])
  }

  // ------------------------------------------------------------------
  // Prefixes and suffixes
  // ------------------------------------------------------------------

  /** join_path gives back the path, unless it is the prefix and a bare slash. */
  lemma JoinIsInverse(prefix: Bytes, path: Bytes)
    requires Suffix(prefix, path).Some?
    ensures JoinPath(prefix, Suffix(prefix, path).value) == path <==> prefix == [] || path != prefix + [SLASH]
  {
  }

  /** A path is in scope exactly when it is the prefix joined with something, or ends behind
      it with a bare slash. */
  lemma InScopeIff(prefix: Bytes, path: Bytes)
    ensures Suffix(prefix, path).Some? <==> path == prefix + [SLASH] || exists sfx :: JoinPath(prefix, sfx) == path
  {
    if Suffix(prefix, path).Some? {
      JoinIsInverse(prefix, path);
    }
    if prefix == [] {
      assert JoinPath(prefix, path) == path;
    }
  }

  // ------------------------------------------------------------------
  // Coverage
  // ------------------------------------------------------------------

  /** What was written after the latest ANNOUNCE_OK. */
  function SinceOk(log: seq<Sent>): seq<Sent>
    decreases |log|
  {
    if log == [] || log[|log| - 1].SentOk? then []
    else SinceOk(log[..|log| - 1]) + [log[|log| - 1]]
  }

  predicate OnlyStarts(log: seq<Sent>) {
    forall i :: 0 <= i < |log| ==> log[i].SentStart?
  }

  lemma SinceOkPush(log: seq<Sent>, m: Sent)
    ensures SinceOk(log + [m]) == if m.SentOk? then [] else SinceOk(log) + [m]
  {
  }

  lemma {:induction false} SinceOkAppend(log: seq<Sent>, starts: seq<Sent>)
    requires OnlyStarts(starts)
    ensures SinceOk(log + starts) == SinceOk(log) + starts
    decreases |starts|
  {
    hide SinceOk;
    if starts == [] {
      assert log + starts == log;
    } else {
      var n := |starts| - 1;
      SinceOkAppend(log, starts[..n]);
      SinceOkPush(log + starts[..n], starts[n]);
      assert log + starts[..n] + [starts[n]] == log + starts;
      assert SinceOk(log) + starts[..n] + [starts[n]] == SinceOk(log) + starts;
    }
  }

  lemma SinceOkAnswer(log: seq<Sent>, active: nat, starts: seq<Sent>)
    requires OnlyStarts(starts)
    ensures SinceOk(log + [SentOk(active)] + starts) == starts
  {
    SinceOkAppend(log + [SentOk(active)], starts);
    SinceOkPush(log, SentOk(active));
    assert [] + starts == starts;
  }

  lemma {:induction false} StartsAreStarts(pubs: seq<Pub>, prefix: Bytes, late: bool)
    ensures OnlyStarts(Starts(pubs, prefix, late))
    decreases |pubs|
  {
    if pubs != [] {
      StartsAreStarts(pubs[..|pubs| - 1], prefix, late);
    }
  }

  lemma {:induction false} StartsHas(pubs: seq<Pub>, prefix: Bytes, late: bool, i: nat)
    requires i < |pubs| && Due(pubs[i], late) && Suffix(prefix, pubs[i].path).Some?
    ensures SentStart(Suffix(prefix, pubs[i].path).value) in Starts(pubs, prefix, late)
    decreases |pubs|
  {
    hide Suffix;
    var n := |pubs| - 1;
    if i < n {
      StartsHas(pubs[..n], prefix, late, i);
    }
  }

  /** What late announcing writes to each stream. */
  lemma {:induction false} ReannounceWrites(pubs: seq<Pub>, peers: seq<Peer>, j: nat)
    requires j < |peers|
    ensures var q := peers[j];
            Reannounce(pubs, peers).1[j] ==
              if Listens(q) then q.(log := q.log + Starts(pubs, q.prefix, true)) else q
    decreases |pubs|
  {
    hide Suffix;
    var q := peers[j];
    if pubs == [] {
      assert q.log + Starts(pubs, q.prefix, true) == q.log;
    } else {
      var n := |pubs| - 1;
      ReannounceWrites(pubs[..n], peers, j);
      var before := Starts(pubs[..n], q.prefix, true);
      assert q.log + before + [] == q.log + (before + []);
      var sfx := Suffix(q.prefix, pubs[n].path);
      if sfx.Some? {
        assert q.log + before + [SentStart(sfx.value)] == q.log + (before + [SentStart(sfx.value)]);
      }
    }
  }

  lemma {:induction false} ReannounceKeepsPubs(pubs: seq<Pub>, peers: seq<Peer>, i: nat)
    requires i < |pubs|
    ensures var p := Reannounce(pubs, peers).0[i];
            p.path == pubs[i].path && p.tracks == pubs[i].tracks
            && (p.announced ==> pubs[i].announced || pubs[i].tracks > 0)
    decreases |pubs|
  {
    hide SendTo;
    hide Reaches;
    var n := |pubs| - 1;
    if i < n {
      ReannounceKeepsPubs(pubs[..n], peers, i);
    }
  }

  /** A broadcast counts as announced from when it is due and some open announce stream, asked
      on or not, has it in its scope. */
  lemma {:induction false} ReannounceMarks(pubs: seq<Pub>, peers: seq<Peer>, i: nat)
    requires i < |pubs|
    ensures Reannounce(pubs, peers).0[i].announced <==>
              pubs[i].announced || (pubs[i].tracks > 0 && Reaches(peers, pubs[i].path))
    decreases |pubs|
  {
    hide SendTo;
    hide Reaches;
    hide Suffix;
    var n := |pubs| - 1;
    if i < n {
      ReannounceMarks(pubs[..n], peers, i);
    } else {
      SamePeers(pubs[..n], peers, pubs[n].path);
    }
  }

  lemma SamePeers(pubs: seq<Pub>, peers: seq<Peer>, path: Bytes)
    ensures Reaches(Reannounce(pubs, peers).1, path) <==> Reaches(peers, path)
  {
    hide Suffix;
    hide Reannounce;
    var qs := Reannounce(pubs, peers).1;
    forall j | 0 <= j < |peers|
      ensures InScope(qs[j], path) == InScope(peers[j], path)
    {
      ReannounceWrites(pubs, peers, j);
    }
  }

  /** The broadcast was named on the stream since its request was last answered. */
  predicate Covered(q: Peer, p: Pub) {
    p.tracks > 0 && Suffix(q.prefix, p.path).Some? ==>
      SentStart(Suffix(q.prefix, p.path).value) in SinceOk(q.log)
  }

  predicate CoveredAt(s: Publisher, j: nat, i: nat)
    requires j < |s.peers| && i < |s.pubs|
  {
    s.peers[j].answered && !s.peers[j].done ==> Covered(s.peers[j], s.pubs[i])
  }

  predicate Kept(s: Publisher) {
    && (forall j, i :: 0 <= j < |s.peers| && 0 <= i < |s.pubs| ==> CoveredAt(s, j, i))
    && (forall i :: 0 <= i < |s.pubs| ==> PubKept(s.pubs[i]))
    && (forall j :: 0 <= j < |s.peers| ==> PeerKept(s.peers[j]))
  }

  predicate PubKept(p: Pub) {
    p.announced ==> p.tracks > 0
  }

  predicate PeerKept(q: Peer) {
    q.answered ==> q.kind == AnnounceKind
  }

  lemma AnswerCovers(pubs: seq<Pub>, q: Peer, request: Bytes, i: nat)
    requires i < |pubs|
    ensures Covered(Answer(pubs, q, request), pubs[i])
  {
    hide Suffix;
    hide CString;
    var prefix := CString(request);
    var starts := Starts(pubs, prefix, false);
    StartsAreStarts(pubs, prefix, false);
    SinceOkAnswer(q.log, |starts|, starts);
    if pubs[i].tracks > 0 && Suffix(prefix, pubs[i].path).Some? {
      StartsHas(pubs, prefix, false, i);
    }
  }

  /** One more track on a broadcast: it, and any other, stays or becomes covered. */
  lemma TrackCovers(s: Publisher, k: nat, j: nat, i: nat)
    requires Kept(s) && k < |s.pubs| && s.pubs[k].tracks < MAX_PUB_TRACKS && j < |s.peers| && i < |s.pubs|
    ensures CoveredAt(Step(s, PublishTrack(k)), j, i)
  {
    hide Suffix;
    hide Reannounce;
    var pubs := s.pubs[k := s.pubs[k].(tracks := s.pubs[k].tracks + 1)];
    var q := s.peers[j];
    ReannounceWrites(pubs, s.peers, j);
    ReannounceKeepsPubs(pubs, s.peers, i);
    assert CoveredAt(s, j, i) && PubKept(s.pubs[i]) && PeerKept(q);
    var late := Starts(pubs, q.prefix, true);
    StartsAreStarts(pubs, q.prefix, true);
    SinceOkAppend(q.log, late);
    if i == k && s.pubs[k].tracks == 0 && Suffix(q.prefix, pubs[i].path).Some? {
      StartsHas(pubs, q.prefix, true, i);
    }
  }

  lemma TrackKeeps(s: Publisher, k: nat)
    requires Kept(s) && k < |s.pubs| && s.pubs[k].tracks < MAX_PUB_TRACKS
    ensures Kept(Step(s, PublishTrack(k)))
  {
    var s' := Step(s, PublishTrack(k));
    var pubs := s.pubs[k := s.pubs[k].(tracks := s.pubs[k].tracks + 1)];
    hide Covered;
    hide CoveredAt;
    forall j, i | 0 <= j < |s'.peers| && 0 <= i < |s'.pubs|
      ensures CoveredAt(s', j, i)
    {
      TrackCovers(s, k, j, i);
    }
    forall i | 0 <= i < |s'.pubs|
      ensures PubKept(s'.pubs[i])
    {
      assert PubKept(s.pubs[i]);
      ReannounceKeepsPubs(pubs, s.peers, i);
    }
    forall j | 0 <= j < |s'.peers|
      ensures PeerKept(s'.peers[j])
    {
      assert PeerKept(s.peers[j]);
      ReannounceWrites(pubs, s.peers, j);
    }
  }

  lemma StepKeeps(s: Publisher, e: Event)
    requires Kept(s)
    ensures Kept(Step(s, e))
  {
    var s' := Step(s, e);
    if e.PublishTrack? {
      if e.k < |s.pubs| && s.pubs[e.k].tracks < MAX_PUB_TRACKS {
        TrackKeeps(s, e.k);
      }
    } else {
      hide Reannounce;
      forall j, i | 0 <= j < |s'.peers| && 0 <= i < |s'.pubs|
        ensures CoveredAt(s', j, i)
      {
        OtherStepCovers(s, e, j, i);
      }
      assert forall i :: 0 <= i < |s.pubs| ==> PubKept(s.pubs[i]);
      assert forall j :: 0 <= j < |s.peers| ==> PeerKept(s.peers[j]);
      hide CoveredAt;
    }
  }

  lemma OtherStepCovers(s: Publisher, e: Event, j: nat, i: nat)
    requires Kept(s) && !e.PublishTrack?
    requires j < |Step(s, e).peers| && i < |Step(s, e).pubs|
    ensures CoveredAt(Step(s, e), j, i)
  {
    hide Suffix;
    hide Answer;
    if j < |s.peers| && i < |s.pubs| {
      assert CoveredAt(s, j, i) && PeerKept(s.peers[j]);
      if e.PeerRequests? {
        AnswerCovers(s.pubs, s.peers[j], e.request, i);
      }
    }
  }

  /** Over every run: on every stream answered and still open, every broadcast in its scope
      that has a track has been named since the answer. */
  lemma {:induction false} RunCovers(s: Publisher, es: seq<Event>)
    requires Kept(s)
    ensures Kept(Run(s, es))
    decreases |es|
  {
    hide Kept;
    if es != [] {
      StepKeeps(s, es[0]);
      RunCovers(Step(s, es[0]), es[1..]);
    }
  }

  /** A stream that is gone is written nothing more. */
  lemma GoneHearsNothing(s: Publisher, i: nat, es: seq<Event>)
    requires i < |s.peers|
    ensures var s' := Run(Step(s, PeerGone(i)), es); i < |s'.peers| && s'.peers[i].done && s'.peers[i].log == s.peers[i].log
  {
    DoneStays(Step(s, PeerGone(i)), i, es);
  }

  lemma {:induction false} DoneStays(s: Publisher, i: nat, es: seq<Event>)
    requires i < |s.peers| && s.peers[i].done
    ensures var s' := Run(s, es); i < |s'.peers| && s'.peers[i].done && s'.peers[i].log == s.peers[i].log
    decreases |es|
  {
    hide Reannounce;
    hide Answer;
    if es != [] {
      if es[0].PublishTrack? && es[0].k < |s.pubs| {
        var pubs := s.pubs[es[0].k := s.pubs[es[0].k].(tracks := s.pubs[es[0].k].tracks + 1)];
        ReannounceWrites(pubs, s.peers, i);
        assert s.peers[i].log + [] == s.peers[i].log;
      }
      DoneStays(Step(s, es[0]), i, es[1..]);
    }
  }

  /** A broadcast published and given its first track is named on every stream answered, still
      open and of a scope that holds its path. */
  lemma PublishReaches(s: Publisher, path: Bytes, j: nat)
    requires Kept(s) && j < |s.peers| && path != [] && CString(path) == path
    ensures var k := |s.pubs|;
            var s' := Step(Step(s, Publish(path)), PublishTrack(k));
            && |s'.pubs| == k + 1 && |s'.peers| == |s.peers| && s'.pubs[k].path == path && s'.pubs[k].tracks == 1
            && var q := s'.peers[j];
               q.answered && !q.done && Suffix(q.prefix, path).Some? ==> SentStart(Suffix(q.prefix, path).value) in SinceOk(q.log)
  {
    hide CString;
    hide SinceOk;
    hide Suffix;
    hide Reannounce;
    var k := |s.pubs|;
    var s1 := Step(s, Publish(path));
    StepKeeps(s, Publish(path));
    StepKeeps(s1, PublishTrack(k));
    var s' := Step(s1, PublishTrack(k));
    ReannounceKeepsPubs(s1.pubs[k := s1.pubs[k].(tracks := 1)], s1.peers, k);
    assert CoveredAt(s', j, k);
  }

  /** A broadcast takes four tracks and no more. */
  lemma FourTracks(s: Publisher, k: nat)
    requires k < |s.pubs|
    ensures Step(s, PublishTrack(k)).pubs[k].tracks == if s.pubs[k].tracks < 4 then s.pubs[k].tracks + 1 else s.pubs[k].tracks
  {
    hide Reannounce;
    ReannounceKeepsPubs(s.pubs[k := s.pubs[k].(tracks := s.pubs[k].tracks + 1)], s.peers, k);
  }

  // ------------------------------------------------------------------
  // Nothing else is named
  // ------------------------------------------------------------------

  /** The message names a broadcast that has a track and is in this scope. */
  predicate NamesOne(m: Sent, prefix: Bytes, pubs: seq<Pub>) {
    m.SentStart? && exists i :: 0 <= i < |pubs| && NamedBy(m, prefix, pubs[i])
  }

  predicate NamedBy(m: Sent, prefix: Bytes, p: Pub)
    requires m.SentStart?
  {
    p.tracks > 0 && Suffix(prefix, p.path) == Some(m.suffix)
  }

  /** A list of starts names each broadcast due in the scope, once and in order, and nothing
      else. */
  lemma {:induction false} StartsName(pubs: seq<Pub>, prefix: Bytes, late: bool, k: nat)
    requires k < |Starts(pubs, prefix, late)|
    ensures NamesOne(Starts(pubs, prefix, late)[k], prefix, pubs)
    decreases |pubs|
  {
    hide Suffix;
    var n := |pubs| - 1;
    var before := Starts(pubs[..n], prefix, late);
    var m := Starts(pubs, prefix, late)[k];
    if k < |before| {
      StartsName(pubs[..n], prefix, late, k);
      var i :| 0 <= i < n && NamedBy(m, prefix, pubs[..n][i]);
      assert NamedBy(m, prefix, pubs[i]);
    } else {
      assert NamedBy(m, prefix, pubs[n]);
    }
  }

  /** How many broadcasts are due in the scope: with `StartsHas`, each is named once. */
  function DueIn(pubs: seq<Pub>, prefix: Bytes, late: bool): nat
    decreases |pubs|
  {
    if pubs == [] then 0
    else
      var p := pubs[|pubs| - 1];
      DueIn(pubs[..|pubs| - 1], prefix, late)
      + (if p.tracks > 0 && !(late && p.announced) && Suffix(prefix, p.path).Some? then 1 else 0)
  }

  lemma {:induction false} StartsCount(pubs: seq<Pub>, prefix: Bytes, late: bool)
    ensures |Starts(pubs, prefix, late)| == DueIn(pubs, prefix, late)
    decreases |pubs|
  {
    if pubs != [] {
      StartsCount(pubs[..|pubs| - 1], prefix, late);
    }
  }

  /** What an answer says and how many it names are the same number. */
  lemma AnswerCounts(pubs: seq<Pub>, q: Peer, request: Bytes)
    ensures var q' := Answer(pubs, q, request);
            var n := DueIn(pubs, CString(request), false);
            |q'.log| == |q.log| + 1 + n && q'.log[..|q.log|] == q.log && q'.log[|q.log|] == SentOk(n)
  {
    StartsCount(pubs, CString(request), false);
  }

  /** Everything written since the answer, or at all before one, names such a broadcast. */
  predicate AllNamed(s: Publisher) {
    forall j :: 0 <= j < |s.peers| ==> PeerNamed(s.peers[j], s.pubs)
  }

  predicate PeerNamed(q: Peer, pubs: seq<Pub>) {
    forall k :: 0 <= k < |SinceOk(q.log)| ==> NamesOne(SinceOk(q.log)[k], q.prefix, pubs)
  }

  /** Broadcasts keep their paths and their tracks. */
  predicate Grows(pubs: seq<Pub>, pubs': seq<Pub>) {
    |pubs| <= |pubs'| && forall i :: 0 <= i < |pubs| ==> pubs'[i].path == pubs[i].path && pubs'[i].tracks >= pubs[i].tracks
  }

  lemma StillNamed(q: Peer, pubs: seq<Pub>, pubs': seq<Pub>)
    requires PeerNamed(q, pubs) && Grows(pubs, pubs')
    ensures PeerNamed(q, pubs')
  {
    hide Suffix;
    hide SinceOk;
    forall k | 0 <= k < |SinceOk(q.log)|
      ensures NamesOne(SinceOk(q.log)[k], q.prefix, pubs')
    {
      var m := SinceOk(q.log)[k];
      assert NamesOne(m, q.prefix, pubs);
      var i :| 0 <= i < |pubs| && NamedBy(m, q.prefix, pubs[i]);
      assert NamedBy(m, q.prefix, pubs'[i]);
    }
  }

  lemma MoreNamed(q: Peer, pubs: seq<Pub>, late: bool)
    requires PeerNamed(q, pubs)
    ensures PeerNamed(q.(log := q.log + Starts(pubs, q.prefix, late)), pubs)
  {
    hide SinceOk;
    hide Suffix;
    hide NamesOne;
    var starts := Starts(pubs, q.prefix, late);
    StartsAreStarts(pubs, q.prefix, late);
    SinceOkAppend(q.log, starts);
    forall k | 0 <= k < |starts|
      ensures NamesOne(starts[k], q.prefix, pubs)
    {
      StartsName(pubs, q.prefix, late, k);
    }
  }

  lemma AnswerNames(pubs: seq<Pub>, q: Peer, request: Bytes)
    ensures PeerNamed(Answer(pubs, q, request), pubs)
  {
    hide SinceOk;
    hide Suffix;
    hide NamesOne;
    hide CString;
    var prefix := CString(request);
    var starts := Starts(pubs, prefix, false);
    StartsAreStarts(pubs, prefix, false);
    SinceOkAnswer(q.log, |starts|, starts);
    forall k | 0 <= k < |starts|
      ensures NamesOne(starts[k], prefix, pubs)
    {
      StartsName(pubs, prefix, false, k);
    }
  }

  lemma TrackNames(s: Publisher, k: nat)
    requires AllNamed(s) && k < |s.pubs| && s.pubs[k].tracks < MAX_PUB_TRACKS
    ensures AllNamed(Step(s, PublishTrack(k)))
  {
    hide PeerNamed;
    hide Reannounce;
    hide Starts;
    var pubs := s.pubs[k := s.pubs[k].(tracks := s.pubs[k].tracks + 1)];
    var s' := Step(s, PublishTrack(k));
    forall i | 0 <= i < |pubs|
      ensures s'.pubs[i].path == pubs[i].path && s'.pubs[i].tracks == pubs[i].tracks
    {
      ReannounceKeepsPubs(pubs, s.peers, i);
    }
    assert Grows(s.pubs, pubs) && Grows(pubs, s'.pubs);
    forall j | 0 <= j < |s'.peers|
      ensures PeerNamed(s'.peers[j], s'.pubs)
    {
      var q := s.peers[j];
      ReannounceWrites(pubs, s.peers, j);
      StillNamed(q, s.pubs, pubs);
      MoreNamed(q, pubs, true);
      StillNamed(s'.peers[j], pubs, s'.pubs);
    }
  }

  lemma StepNames(s: Publisher, e: Event)
    requires AllNamed(s)
    ensures AllNamed(Step(s, e))
  {
    hide PeerNamed;
    hide Reannounce;
    hide Answer;
    var s' := Step(s, e);
    NothingNamed(s.pubs);
    if e.PublishTrack? {
      if e.k < |s.pubs| && s.pubs[e.k].tracks < MAX_PUB_TRACKS {
        TrackNames(s, e.k);
      }
    } else {
      forall j | 0 <= j < |s'.peers|
        ensures PeerNamed(s'.peers[j], s'.pubs)
      {
        if j < |s.peers| {
          SameLogNamed(s.peers[j], s'.peers[j], s.pubs);
          StillNamed(s.peers[j], s.pubs, s'.pubs);
          if e.PeerRequests? && e.i == j {
            AnswerNames(s.pubs, s.peers[j], e.request);
          } else {
            StillNamed(s'.peers[j], s.pubs, s'.pubs);
          }
        }
      }
    }
  }

  lemma NothingNamed(pubs: seq<Pub>)
    ensures PeerNamed(Peer(Untyped, [], false, false, []), pubs)
  {
  }

  lemma SameLogNamed(q: Peer, q': Peer, pubs: seq<Pub>)
    requires PeerNamed(q, pubs)
    ensures q'.log == q.log && q'.prefix == q.prefix ==> PeerNamed(q', pubs)
  {
  }

  /** Over every run: each ANNOUNCE_START written since the answer on a stream, or before it,
      names a broadcast that has a track and is in the scope of that stream. */
  lemma {:induction false} RunNames(s: Publisher, es: seq<Event>)
    requires AllNamed(s)
    ensures AllNamed(Run(s, es))
    decreases |es|
  {
    hide AllNamed;
    if es != [] {
      StepNames(s, es[0]);
      RunNames(Step(s, es[0]), es[1..]);
    }
  }

  // ---- what is not promised ----

  /** The answer does not come first on every stream: when a broadcast becomes due, a stream
      not asked on yet is sent an ANNOUNCE_START exactly if it is open and its type is
      announce or still unread. */
  lemma StrayStartIff(s: Publisher, k: nat, j: nat)
    requires k < |s.pubs| && s.pubs[k].tracks < MAX_PUB_TRACKS && !s.pubs[k].announced
    requires j < |s.peers| && !s.peers[j].answered && s.peers[j].prefix == []
    ensures Step(s, PublishTrack(k)).peers[j].log != s.peers[j].log <==> Listens(s.peers[j])
  {
    hide Reannounce;
    hide Starts;
    var q := s.peers[j];
    var pubs := s.pubs[k := s.pubs[k].(tracks := s.pubs[k].tracks + 1)];
    ReannounceWrites(pubs, s.peers, j);
    StartsHas(pubs, [], true, k);
    assert |q.log + Starts(pubs, [], true)| > |q.log|;
    assert Step(s, PublishTrack(k)).peers == Reannounce(pubs, s.peers).1;
  }

  lemma OneLate(p: Pub, q: Peer)
    requires Due(p, true) && q.prefix == [] && Listens(q)
    ensures Reannounce([p], [q]) == ([p.(announced := true)], [q.(log := q.log + [SentStart(p.path)])])
  {
    assert [p][..0] == [];
    assert Reannounce([p][..0], [q]) == ([], [q]);
    assert InScope([q][0], p.path);
    assert Reaches([q], p.path);
    assert SendTo([q], p.path) == [SendOne(q, p.path)];
    assert [] + [p.(announced := true)] == [p.(announced := true)];
  }

  lemma FirstTrack(p: Pub, q: Peer)
    requires p.tracks < MAX_PUB_TRACKS && !p.announced && q.prefix == [] && Listens(q)
    ensures Step(Publisher([p], [q]), PublishTrack(0)) ==
              Publisher([p.(tracks := p.tracks + 1, announced := true)], [q.(log := q.log + [SentStart(p.path)])])
  {
    var p' := p.(tracks := p.tracks + 1);
    assert [p][0 := p'] == [p'];
    OneLate(p', q);
    hide Reannounce;
  }

  /** A stream that turns out to be no announce stream may carry an ANNOUNCE_START. */
  lemma StrayStart(path: Bytes)
    requires path != [] && CString(path) == path
    ensures var s := Step(Step(Step(Publisher([], []), PeerOpens), Publish(path)), PublishTrack(0));
            Step(s, PeerTypes(0, false)).peers == [Peer(OtherKind, [], false, false, [SentStart(path)])]
  {
    hide CString;
    hide Reannounce;
    var q := Peer(Untyped, [], false, false, []);
    var s := Step(Step(Publisher([], []), PeerOpens), Publish(path));
    assert s == Publisher([Pub(path, 0, false)], [q]);
    FirstTrack(Pub(path, 0, false), q);
    assert [] + [SentStart(path)] == [SentStart(path)];
  }

  /** A broadcast named in the answer is named once more with its next track. */
  lemma NamedTwice(path: Bytes)
    ensures var s := Publisher([Pub(path, 1, false)], [Peer(AnnounceKind, [], false, false, [])]);
            Step(Step(s, PeerRequests(0, [])), PublishTrack(0)).peers[0].log == [SentOk(1), SentStart(path), SentStart(path)]
  {
    hide Reannounce;
    var p, q := Pub(path, 1, false), Peer(AnnounceKind, [], false, false, []);
    assert [p][..0] == [];
    assert Starts([p], [], false) == [SentStart(path)];
    var q1 := Peer(AnnounceKind, [], true, false, [SentOk(1), SentStart(path)]);
    assert CString([]) == [];
    assert [] + [SentOk(1)] + [SentStart(path)] == [SentOk(1), SentStart(path)];
    assert Answer([p], q, []) == q1;
    assert Step(Publisher([p], [q]), PeerRequests(0, [])) == Publisher([p], [q1]);
    FirstTrack(p, q1);
  }
}

/** From the publisher's stream to the subscriber's callbacks. */
module MoqAnnounceDelivery {
  import opened MoqAnnounceSpec
  import opened MoqParser
  import opened MoqWire
  import opened Options
  import R = MoqAnnounceReplies

  /** Room in one message for the string length, the string and three small integers. */
  const SUFFIX_MAX: nat := MAX_MESSAGE - 11

  predicate Encodable(m: Sent) {
    match m
    case SentOk(active) => active <= VARINT_MAX
    case SentStart(suffix) => |suffix| <= SUFFIX_MAX && CString(suffix) == suffix
  }

  predicate AllEncodable(log: seq<Sent>) {
    forall i :: 0 <= i < |log| ==> Encodable(log[i])
  }

  function Wire(m: Sent): Bytes
    requires Encodable(m)
  {
    match m
    case SentOk(active) => AnnounceOkBytes(0, active)
    case SentStart(suffix) => AnnounceStartBytes(suffix, 0, 0)
  }

  function WireAll(log: seq<Sent>): Bytes
    requires AllEncodable(log)
    decreases |log|
  {
    if log == [] then [] else WireAll(log[..|log| - 1]) + Wire(log[|log| - 1])
  }

  /** One ANNOUNCE_START taken in. */
  function Heard(c: Control, suffix: Bytes): Control {
    var path := JoinPath(c.prefix, suffix);
    c.(log := c.log + [Announced(path, suffix)],
       annNext := c.annNext + 1,
       annExpect := if c.annExpect > 0 then c.annExpect - 1 else 0,
       bcs := c.bcs + [Broadcast(c.annNext, path, false)])
  }

  function HeardAll(c: Control, starts: seq<Sent>): Control
    requires OnlyStarts(starts)
    decreases |starts|
  {
    if starts == [] then c else Heard(HeardAll(c, starts[..|starts| - 1]), starts[|starts| - 1].suffix)
  }

  lemma StartBody(suffix: Bytes)
    requires |suffix| <= SUFFIX_MAX
    ensures var body := StrBytes(suffix) + VarintBytes(0) + VarintBytes(0) + VarintBytes(0);
            |body| <= MAX_MESSAGE && ReadAnnounceStart(body) == Some(suffix)
  {
    hide ReadVarint;
    hide ReadStr;
    hide ReadTwo;
    hide StrBytes;
    hide VarintBytes;
    StrSize(suffix);
    ZeroByte();
    var str, zero := StrBytes(suffix), VarintBytes(0);
    var body := str + zero + zero + zero;
    assert body == str + (zero + (zero + zero));
    StrRoundTrip(suffix, zero + (zero + zero));
    VarintRoundTrip(0, zero + zero);
    assert body[|str|..] == zero + (zero + zero);
    assert body[|str| + 1..] == zero + zero;
    TwoFields(0, 0);
  }

  lemma StrSize(suffix: Bytes)
    requires |suffix| <= SUFFIX_MAX
    ensures |StrBytes(suffix)| <= 8 + |suffix|
  {
  }

  lemma ZeroByte()
    ensures VarintBytes(0) == [0]
  {
  }

  lemma StartUnit(suffix: Bytes)
    requires |suffix| <= SUFFIX_MAX
    ensures var s := AnnounceStartBytes(suffix, 0, 0);
            var body := StrBytes(suffix) + VarintBytes(0) + VarintBytes(0) + VarintBytes(0);
            |body| <= MAX_MESSAGE && TaggedUnit(s) == Unit(0, body, |s|)
  {
    StartBody(suffix);
    TaggedMessage(0, StrBytes(suffix) + VarintBytes(0) + VarintBytes(0) + VarintBytes(0));
  }

  lemma StartIsRead(subs: set<nat>, c: Control, suffix: Bytes)
    requires |suffix| <= SUFFIX_MAX && CString(suffix) == suffix
    requires c.typed && c.kind.Announce? && c.annOk
    ensures Drain(subs, Stream(c, AnnounceStartBytes(suffix, 0, 0))) == Waiting(Stream(Heard(c, suffix), []))
  {
    hide Drain;
    StartBody(suffix);
    StartUnit(suffix);
    hide AnnounceStartBytes;
    hide StrBytes;
    hide VarintBytes;
    hide ReadAnnounceStart;
    hide CString;
    hide TaggedUnit;
    var s := AnnounceStartBytes(suffix, 0, 0);
    OneUnit(subs, c, s, TaggedUnit(s), Heard(c, suffix));
  }

  lemma {:induction false} HeardKeeps(c: Control, starts: seq<Sent>)
    requires OnlyStarts(starts)
    ensures var h := HeardAll(c, starts);
            h.typed == c.typed && h.kind == c.kind && h.annOk == c.annOk && h.prefix == c.prefix
            && h.done == c.done && h.fin == c.fin
    decreases |starts|
  {
    if starts != [] {
      HeardKeeps(c, starts[..|starts| - 1]);
    }
  }

  /** An answer and whatever was added to it, parsed in one piece. */
  lemma {:induction false} LogIsRead(subs: set<nat>, c: Control, active: nat, starts: seq<Sent>)
    requires c.typed && c.kind.Announce? && !c.annOk
    requires OnlyStarts(starts) && AllEncodable([SentOk(active)] + starts)
    ensures Drain(subs, Stream(c, WireAll([SentOk(active)] + starts)))
            == Waiting(Stream(HeardAll(c.(annOk := true, annExpect := active), starts), []))
    decreases |starts|
  {
    hide Drain;
    hide Heard;
    hide AnnounceOkBytes;
    hide AnnounceStartBytes;
    var log := [SentOk(active)] + starts;
    var c1 := c.(annOk := true, annExpect := active);
    assert log[0] == SentOk(active) && Encodable(log[0]);
    if starts == [] {
      assert log == [SentOk(active)] && log[..0] == [];
      assert WireAll(log) == [] + AnnounceOkBytes(0, active);
      R.OkIsRead(subs, c, 0, active);
      assert [] + AnnounceOkBytes(0, active) == AnnounceOkBytes(0, active);
    } else {
      var n := |starts| - 1;
      var before := [SentOk(active)] + starts[..n];
      assert log[..|log| - 1] == before && log[|log| - 1] == starts[n];
      assert forall i :: 0 <= i < |before| ==> before[i] == log[i];
      LogIsRead(subs, c, active, starts[..n]);
      HeardKeeps(c1, starts[..n]);
      var m := starts[n];
      assert Encodable(log[|log| - 1]);
      DrainTwo(subs, c, WireAll(before), HeardAll(c1, starts[..n]), Wire(m));
      StartIsRead(subs, HeardAll(c1, starts[..n]), m.suffix);
    }
  }

  lemma {:induction false} HeardHas(c: Control, starts: seq<Sent>, suffix: Bytes)
    requires OnlyStarts(starts) && SentStart(suffix) in starts
    ensures Announced(JoinPath(c.prefix, suffix), suffix) in HeardAll(c, starts).log
    decreases |starts|
  {
    var n := |starts| - 1;
    HeardKeeps(c, starts[..n]);
    if starts[n] != SentStart(suffix) {
      assert SentStart(suffix) in starts[..n];
      HeardHas(c, starts[..n], suffix);
    }
  }

  /** The stream was asked on once. */
  predicate AskedOnce(log: seq<Sent>) {
    exists k :: 0 <= k < |log| && OnlyAnswer(log, k)
  }

  predicate OnlyAnswer(log: seq<Sent>, k: nat)
    requires k < |log|
  {
    log[k].SentOk? && forall i :: 0 <= i < |log| && i != k ==> log[i].SentStart?
  }

  /** What a subscriber hears, in every reachable publisher state, on every open stream asked
      on once, whatever way its bytes are cut: a broadcast in scope that has a track has been
      reported exactly if no ANNOUNCE_START strayed in front of the answer, and then under
      its own path unless that is the prefix and a bare slash. */
  lemma SubscriberHearsIff(es: seq<MoqAnnounceSpec.Event>, j: nat, i: nat, subs: set<nat>, chunks: seq<Bytes>)
    requires var s := Run(Publisher([], []), es);
             && j < |s.peers| && i < |s.pubs| && s.peers[j].answered && !s.peers[j].done
             && AskedOnce(s.peers[j].log) && AllEncodable(s.peers[j].log)
             && s.pubs[i].tracks > 0 && Suffix(s.peers[j].prefix, s.pubs[i].path).Some?
             && Fits(subs, NewLocal(Announce, s.peers[j].prefix), chunks) && Concat(chunks) == WireAll(s.peers[j].log)
    ensures var s := Run(Publisher([], []), es);
            var prefix, path := s.peers[j].prefix, s.pubs[i].path;
            var sfx := Suffix(prefix, path).value;
            && (Announced(JoinPath(prefix, sfx), sfx) in DataAll(subs, NewLocal(Announce, prefix), chunks).ctl.log
                <==> s.peers[j].log[0].SentOk?)
            && (JoinPath(prefix, sfx) == path <==> prefix == [] || path != prefix + [SLASH])
  {
    var s := Run(Publisher([], []), es);
    var q := s.peers[j];
    NothingYet();
    RunCovers(Publisher([], []), es);
    assert CoveredAt(s, j, i);
    JoinIsInverse(q.prefix, s.pubs[i].path);
    var sfx := Suffix(q.prefix, s.pubs[i].path).value;
    hide Suffix;
    assert SentStart(sfx) in SinceOk(q.log);
    if q.log[0].SentOk? {
      OnceSince(q.log);
      DeliveredAll(q.prefix, q.log[0].active, q.log[1..], subs, chunks, sfx);
    } else {
      StrayDeafens(q.prefix, q.log, subs, chunks);
    }
  }

  /** One ANNOUNCE_START in front of the answer silences the whole stream: however its bytes
      are cut, and whatever comes behind, the subscriber only asks for resets. */
  lemma StrayDeafens(prefix: Bytes, log: seq<Sent>, subs: set<nat>, chunks: seq<Bytes>)
    requires log != [] && log[0].SentStart? && AllEncodable(log) && Concat(chunks) == WireAll(log)
    ensures forall e :: e in DataAll(subs, NewLocal(Announce, prefix), chunks).ctl.log ==> e.Reset?
  {
    WireStarts(log);
    Deaf(prefix, subs, chunks);
  }

  /** The bytes begin with the message type, a zero. */
  lemma {:induction false} WireStarts(log: seq<Sent>)
    requires log != [] && log[0].SentStart? && AllEncodable(log)
    ensures WireAll(log) != [] && WireAll(log)[0] == 0
    decreases |log|
  {
    hide Encodable;
    hide Wire;
    var n := |log| - 1;
    if n == 0 {
      assert Encodable(log[0]);
      assert log[..0] == [];
      StartsWithZero(log[0]);
    } else {
      assert forall i :: 0 <= i < n ==> log[..n][i] == log[i];
      WireStarts(log[..n]);
    }
  }

  lemma StartsWithZero(m: Sent)
    requires m.SentStart? && Encodable(m)
    ensures Wire(m) != [] && Wire(m)[0] == 0
  {
    ZeroByte();
    hide VarintBytes;
  }

  /** Where an answer is expected a zero is an empty message, which is refused and stays. */
  lemma {:induction false} Deaf(prefix: Bytes, subs: set<nat>, chunks: seq<Bytes>)
    requires Concat(chunks) == [] || Concat(chunks)[0] == 0
    ensures var now := DataAll(subs, NewLocal(Announce, prefix), chunks);
            && (forall e :: e in now.ctl.log ==> e.Reset?)
            && (now.ctl.done || (Waits(now.ctl) && now.buf == Concat(chunks)))
    decreases |chunks|
  {
    if chunks != [] {
      var n := |chunks| - 1;
      assert Concat(chunks[..n]) != [] ==> Concat(chunks)[0] == Concat(chunks[..n])[0];
      Deaf(prefix, subs, chunks[..n]);
      var was := DataAll(subs, NewLocal(Announce, prefix), chunks[..n]);
      if !was.ctl.done {
        DeafStep(subs, was.Plus(chunks[n]));
      }
    }
  }

  /** An announce stream that has not taken its answer. */
  predicate Waits(ctl: Control) {
    ctl.typed && ctl.kind.Announce? && !ctl.annOk && !ctl.done && !ctl.fin
  }

  lemma DeafStep(subs: set<nat>, st: Stream)
    requires Waits(st.ctl) && (st.buf == [] || st.buf[0] == 0)
    ensures Parse(subs, st) == if st.buf == [] then st else Stream(st.ctl.Emit(Reset(INTERNAL_ERROR)), st.buf)
  {
    if st.buf == [] {
      Idle(subs, st.ctl);
    } else {
      OneByte(0, st.buf[1..]);
      assert st.buf == [0] + st.buf[1..];
      assert st.buf[1..1] == [];
      assert NextUnit(st.ctl, st.buf) == Unit(0, [], 1);
      assert ReadTwo([]).None?;
      assert MoqParser.Step(subs, st) == Stop(Stream(st.ctl.Emit(Reset(INTERNAL_ERROR)), st.buf));
    }
  }

  lemma NothingYet()
    ensures Kept(Publisher([], []))
  {
  }

  lemma OnceSince(log: seq<Sent>)
    requires AskedOnce(log) && log[0].SentOk?
    ensures OnlyStarts(log[1..]) && SinceOk(log) == log[1..] && log == [SentOk(log[0].active)] + log[1..]
  {
    assert forall i :: 0 <= i < |log[1..]| ==> log[1..][i] == log[i + 1];
    SinceOkAnswer([], log[0].active, log[1..]);
    assert [] + [SentOk(log[0].active)] + log[1..] == log;
  }

  lemma DeliveredAll(prefix: Bytes, active: nat, starts: seq<Sent>, subs: set<nat>, chunks: seq<Bytes>, sfx: Bytes)
    requires OnlyStarts(starts) && AllEncodable([SentOk(active)] + starts) && SentStart(sfx) in starts
    requires Fits(subs, NewLocal(Announce, prefix), chunks) && Concat(chunks) == WireAll([SentOk(active)] + starts)
    ensures Announced(JoinPath(prefix, sfx), sfx) in DataAll(subs, NewLocal(Announce, prefix), chunks).ctl.log
  {
    hide Drain;
    hide MoqParser.Step;
    hide HeardAll;
    hide WireAll;
    hide DataAll;
    hide Concat;
    var st := NewLocal(Announce, prefix);
    var c := st.ctl.(annOk := true, annExpect := active);
    LogIsRead(subs, st.ctl, active, starts);
    HeardHas(c, starts, sfx);
    Idle(subs, st.ctl);
    assert st.Plus(Concat(chunks)) == Stream(st.ctl, [] + Concat(chunks));
    assert [] + Concat(chunks) == Concat(chunks);
    ChunksAreOne(subs, st, chunks);
  }
}

module MoqAnnounceRecord {
  import opened MoqAnnounceSpec
  import opened MoqParser
  import opened MoqWire

  /** The publishing side of a session: its broadcasts and the streams its peer opened. */
  class MoqPublisher {
    var pubs: seq<Pub>
    var peers: seq<Peer>

    ghost function State(): Publisher
      reads this
    {
      Publisher(pubs, peers)
    }

    constructor ()
      ensures State() == Publisher([], [])
    {
      pubs, peers := [], [];
    }

    /** serve_announce_write: count and collect, then OK first. */
    method AnnounceWrite(prefix: Bytes) returns (out: seq<Sent>)
      ensures var starts := Starts(pubs, prefix, false); out == [SentOk(|starts|)] + starts
    {
      var starts: seq<Sent> := [];
      var active := 0;
      var i := 0;
      while i < |pubs|
        invariant i <= |pubs| && starts == Starts(pubs[..i], prefix, false) && active == |starts|
      {
        assert pubs[..i + 1][..i] == pubs[..i];
        if pubs[i].tracks != 0 {
          var suffix := Suffix(prefix, pubs[i].path);
          if suffix.Some? {
            starts := starts + [SentStart(suffix.value)];
            active := active + 1;
          }
        }
        i := i + 1;
      }
      assert pubs[..|pubs|] == pubs;
      return [SentOk(active)] + starts;
    }

    /** serve_parse_announce, on a well-formed request. */
    method OnRequest(i: nat, request: Bytes)
      modifies this
      ensures State() == MoqAnnounceSpec.Step(old(State()), PeerRequests(i, request))
    {
      if i < |peers| && peers[i].kind == AnnounceKind && !peers[i].done {
        var prefix := CString(request);
        var out := AnnounceWrite(prefix);
        ghost var starts := Starts(pubs, prefix, false);
        assert peers[i].log + out == peers[i].log + [SentOk(|starts|)] + starts;
        peers := peers[i := peers[i].(prefix := prefix, answered := true, log := peers[i].log + out)];
      }
    }

    /** serve_parse_announce: nothing yet, the end of the stream, or an answer; what is left
        in the buffer is returned. */
    method ServeParseAnnounce(i: nat, buf: Bytes) returns (rest: Bytes)
      requires i < |peers| && peers[i].kind == AnnounceKind && !peers[i].done
      modifies this
      ensures match ReadRequest(buf)
              case NotYet => State() == old(State()) && rest == buf
              case Bad => State() == MoqAnnounceSpec.Step(old(State()), PeerGone(i)) && rest == buf
              case Asked(prefix, size) =>
                State() == MoqAnnounceSpec.Step(old(State()), PeerRequests(i, prefix)) && rest == buf[size..]
    {
      rest := buf;
      match ReadMsg(buf)
      case NeedMore =>
      case TooLarge => peers := peers[i := peers[i].(done := true)];
      case Message(start, end) =>
        var str := ReadStr(buf[start..end]);
        if str.None? || str.value.size != end - start {
          peers := peers[i := peers[i].(done := true)];
          return;
        }
        OnRequest(i, str.value.value);
        rest := buf[end..];
    }

    /** The inner loop: one broadcast to all streams in scope. */
    method SendStart(path: Bytes) returns (sent: bool)
      modifies this`peers
      ensures peers == SendTo(old(peers), path) && sent == Reaches(old(peers), path)
    {
      sent := false;
      ghost var all := peers;
      var j := 0;
      while j < |peers|
        invariant j <= |peers| == |all|
        invariant forall i :: 0 <= i < |all| ==> peers[i] == if i < j then SendOne(all[i], path) else all[i]
        invariant sent <==> exists i :: 0 <= i < j && InScope(all[i], path)
      {
        var q := peers[j];
        if !q.done && !q.kind.OtherKind? {
          var suffix := Suffix(q.prefix, path);
          if suffix.Some? {
            peers := peers[j := q.(log := q.log + [SentStart(suffix.value)])];
            sent := true;
          }
        }
        j := j + 1;
      }
      assert peers == SendTo(all, path);
    }

    /** serve_reannounce */
    method ServeReannounce()
      modifies this
      ensures (pubs, peers) == Reannounce(old(pubs), old(peers))
    {
      hide SendTo;
      hide Reaches;
      ghost var ps, qs := pubs, peers;
      var i := 0;
      while i < |pubs|
        invariant i <= |pubs| == |ps|
        invariant (pubs[..i], peers) == Reannounce(ps[..i], qs) && pubs[i..] == ps[i..]
      {
        assert ps[..i + 1][..i] == ps[..i] && pubs[i] == ps[i];
        ghost var front := pubs[..i];
        if !pubs[i].announced && pubs[i].tracks != 0 {
          var sent := SendStart(pubs[i].path);
          if sent {
            pubs := pubs[i := pubs[i].(announced := true)];
          }
        }
        assert pubs[..i + 1] == front + [pubs[i]];
        i := i + 1;
      }
      assert pubs[..|ps|] == pubs && ps[..|ps|] == ps;
    }

    method Publish(path: Bytes)
      modifies this
      ensures State() == MoqAnnounceSpec.Step(old(State()), MoqAnnounceSpec.Publish(path))
    {
      var c := CString(path);
      if c != [] {
        pubs := pubs + [Pub(c, 0, false)];
      }
    }

    /** moq_lite_publish_track, as far as announcing goes. */
    method PublishTrack(k: nat)
      modifies this
      ensures State() == MoqAnnounceSpec.Step(old(State()), MoqAnnounceSpec.PublishTrack(k))
    {
      hide Reannounce;
      if k < |pubs| && pubs[k].tracks < MAX_PUB_TRACKS {
        pubs := pubs[k := pubs[k].(tracks := pubs[k].tracks + 1)];
        ServeReannounce();
      }
    }
  }
}
