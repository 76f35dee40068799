/** CRYPTO stream reassembly at one encryption level (section 19.6 of RFC 9000).

    The receiver keeps a sliding byte buffer, a bit-packed fill map, the number of
    bytes TLS has consumed and a contiguous offset. The specification is a partial
    map from stream offset to byte, what has been received, beside three offsets: how
    much TLS took, how far the buffer reaches, and up to where TLS is shown data. */
module CryptoStream {
  import opened Octets

  /** TLS_BUF_SIZE */
  const BUF_SIZE: nat := 65536

  /** QUIC_INITIAL_MAX_PAYLOAD */
  const MAX_CHUNK: nat := 1150

  datatype Frame = Frame(off: nat, data: seq<Octet>)

  // ------------------------------------------------------------------
  // Specification
  // ------------------------------------------------------------------

  datatype Rx = Rx(got: map<nat, Octet>, consumed: nat, end: nat, contig: nat)

  const Empty := Rx(map[], 0, 0, 0)

  predicate Covers(f: Frame, o: nat) {
    f.off <= o < f.off + |f.data|
  }

  /** Laying the bytes of a frame at or above `from` over what is held. */
  function Patch(got: map<nat, Octet>, f: Frame, from: nat): (m: map<nat, Octet>)
    ensures forall o :: o in m <==> o in got || (from <= o && Covers(f, o))
    ensures forall o :: o in m ==> m[o] == if from <= o && Covers(f, o) then f.data[o - f.off] else got[o]
  {
    got + map o: nat | 0 <= o < f.off + |f.data| && from <= o && Covers(f, o) :: f.data[o - f.off]
  }

  /** A frame behind the buffered data is taken when it fits the buffer, one
      before that point when its absolute end is inside the buffer size; a frame
      that leaves a gap is always taken. */
  predicate Accepts(rx: Rx, f: Frame) {
    if f.off == rx.end then f.off + |f.data| <= rx.consumed + BUF_SIZE
    else f.off < rx.end ==> f.off + |f.data| <= BUF_SIZE
  }

  function Max(a: nat, b: nat): nat { if a < b then b else a }

  /** The frame continues a buffer that is shown to its end and has no room for it: the
      contiguous offset moves on over it all the same. */
  predicate Overruns(rx: Rx, f: Frame) {
    f.off == rx.end == rx.contig && f.data != [] && f.off + |f.data| > rx.consumed + BUF_SIZE
  }

  function Received(rx: Rx, f: Frame): Rx {
    var got := if Accepts(rx, f) then Patch(rx.got, f, rx.consumed) else rx.got;
    Rx(got, rx.consumed, if Accepts(rx, f) then Max(rx.end, f.off + |f.data|) else rx.end,
       GapAt(got, if Overruns(rx, f) then f.off + |f.data| else rx.contig))
  }

  ghost predicate Below(got: map<nat, Octet>, end: nat) {
    forall o :: o in got ==> o < end
  }

  ghost predicate Front(got: map<nat, Octet>, c: nat) {
    forall o: nat :: o < c ==> o in got
  }

  /** The first offset at or above `from` that is missing. */
  function GapAt(got: map<nat, Octet>, from: nat): (c: nat)
    ensures c >= from && c !in got
    ensures forall o: nat :: from <= o < c ==> o in got
    decreases |got|
  {
    if from in got then
      assert from in got.Keys && |got.Keys| == |(got - {from}).Keys| + 1 by {
        assert got.Keys == (got - {from}).Keys + {from};
      }
      GapAt(got - {from}, from + 1)
    else from
  }

  lemma GapIs(got: map<nat, Octet>, from: nat, c: nat)
    requires from <= c && c !in got && forall o: nat :: from <= o < c ==> o in got
    ensures GapAt(got, from) == c
  {
    var g := GapAt(got, from);
    assert g < c ==> g in got;
  }

  // ---- runs ----

  /** A frame arrives, or TLS asks for data and releases up to `want` bytes of what
      it is shown. */
  datatype Event = Arrive(f: Frame) | Read(want: nat)

  /** How much TLS is shown. */
  function Avail(rx: Rx): nat {
    if rx.consumed <= rx.contig <= rx.end then rx.contig - rx.consumed
    else if rx.consumed <= rx.end <= rx.contig then rx.end - rx.consumed
    else 0
  }

  function Take(rx: Rx, want: nat): nat {
    if want < Avail(rx) then want else Avail(rx)
  }

  /** A byte below the buffered end that was not received reads as zero. */
  function ShownAt(rx: Rx, o: nat): Octet {
    if o in rx.got then rx.got[o] else 0
  }

  function Step(rx: Rx, e: Event): Rx {
    match e
    case Arrive(f) => Received(rx, f)
    case Read(want) => rx.(consumed := rx.consumed + Take(rx, want))
  }

  /** The bytes an event hands to TLS for good. */
  function Handed(rx: Rx, e: Event): seq<Octet> {
    match e
    case Arrive(_) => []
    case Read(want) => seq<Octet>(Take(rx, want), i requires 0 <= i < Take(rx, want) => ShownAt(rx, rx.consumed + i))
  }

  function Run(rx: Rx, events: seq<Event>): Rx
    decreases |events|
  {
    if events == [] then rx
    else Step(Run(rx, events[..|events| - 1]), events[|events| - 1])
  }

  function Fed(rx: Rx, events: seq<Event>): seq<Octet>
    decreases |events|
  {
    if events == [] then []
    else
      var before := events[..|events| - 1];
      Fed(rx, before) + Handed(Run(rx, before), events[|events| - 1])
  }

  // ---- the sender's stream ----

  /** The frame is a slice of the sender's stream. */
  predicate CutFrom(stream: seq<Octet>, f: Frame) {
    f.off + |f.data| <= |stream| && f.data == stream[f.off..f.off + |f.data|]
  }

  predicate AllCutFrom(stream: seq<Octet>, events: seq<Event>) {
    forall i :: 0 <= i < |events| && events[i].Arrive? ==> CutFrom(stream, events[i].f)
  }

  /** Everything held is the sender's byte for that offset, the buffer does not reach
      past the stream, and TLS is not shown bytes it took before. */
  ghost predicate Faithful(stream: seq<Octet>, rx: Rx) {
    && (forall o :: o in rx.got ==> o < |stream| && rx.got[o] == stream[o])
    && rx.consumed <= rx.end <= |stream| && rx.consumed <= rx.contig
    && Below(rx.got, rx.end) && rx.contig !in rx.got
  }

  ghost predicate Arrived(events: seq<Event>, o: nat) {
    exists i :: 0 <= i < |events| && events[i].Arrive? && Covers(events[i].f, o)
  }

  /** What TLS was handed: the sender's byte where it was received, else zero. */
  ghost predicate FedIs(stream: seq<Octet>, rx: Rx, fed: seq<Octet>)
    requires rx.consumed <= |stream|
  {
    |fed| == rx.consumed && forall o: nat :: o < |fed| ==> fed[o] == if o in rx.got then stream[o] else 0
  }

  /** Whatever is lost, repeated, overlapping or out of order, however TLS reads, and
      however long the stream is: TLS is handed, offset by offset, the sender's byte or,
      where none was received, a zero; and only what arrived is held. */
  lemma {:induction false} RunIsFaithful(stream: seq<Octet>, events: seq<Event>)
    requires AllCutFrom(stream, events)
    ensures var rx := Run(Empty, events);
            && Faithful(stream, rx) && FedIs(stream, rx, Fed(Empty, events))
            && (forall o: nat :: o in rx.got ==> Arrived(events, o))
    decreases |events|
  {
    if events != [] {
      var n := |events| - 1;
      var before, e := events[..n], events[n];
      RunIsFaithful(stream, before);
      var rx, rx' := Run(Empty, before), Run(Empty, events);
      StepIsFaithful(stream, rx, e);
      StepFeeds(stream, rx, e, Fed(Empty, before));
      forall o: nat | o in rx'.got
        ensures Arrived(events, o)
      {
        ArrivedSoFar(events, o);
      }
    }
  }

  lemma StepIsFaithful(stream: seq<Octet>, rx: Rx, e: Event)
    requires Faithful(stream, rx) && (e.Arrive? ==> CutFrom(stream, e.f))
    ensures Faithful(stream, Step(rx, e))
    ensures forall o: nat :: o in rx.got ==> o in Step(rx, e).got
    ensures forall o: nat :: o in Step(rx, e).got ==> o in rx.got || (e.Arrive? && Covers(e.f, o) && rx.consumed <= o)
  {
  }

  lemma StepFeeds(stream: seq<Octet>, rx: Rx, e: Event, fed: seq<Octet>)
    requires Faithful(stream, rx) && FedIs(stream, rx, fed) && (e.Arrive? ==> CutFrom(stream, e.f))
    ensures Step(rx, e).consumed <= |stream| && FedIs(stream, Step(rx, e), fed + Handed(rx, e))
  {
    StepIsFaithful(stream, rx, e);
    var all, rx' := fed + Handed(rx, e), Step(rx, e);
    hide Received;
    forall o: nat | o < |all|
      ensures all[o] == if o in rx'.got then stream[o] else 0
    {
      if o < |fed| {
        assert all[o] == fed[o];
      } else {
        assert all[o] == Handed(rx, e)[o - |fed|] == ShownAt(rx, o);
      }
    }
  }

  lemma ArrivedSoFar(events: seq<Event>, o: nat)
    requires events != []
    ensures var n := |events| - 1;
            Arrived(events, o) <==> Arrived(events[..n], o) || (events[n].Arrive? && Covers(events[n].f, o))
  {
  }

  /** No read goes past the first offset that is missing at that moment. */
  predicate ReadsBelowGap(events: seq<Event>)
    decreases |events|
  {
    events == [] ||
    (var n := |events| - 1;
     ReadsBelowGap(events[..n]) && ReadBelowGap(Run(Empty, events[..n]), events[n]))
  }

  predicate ReadBelowGap(rx: Rx, e: Event) {
    e.Read? ==> rx.consumed + Take(rx, e.want) <= GapAt(rx.got, rx.consumed)
  }

  /** For every run on a stream of any length: all TLS was handed had been received exactly
      if no read went past the first missing offset, and then it is the front of the
      sender's stream. */
  lemma {:induction false} OnlyReceivedIff(stream: seq<Octet>, events: seq<Event>)
    requires AllCutFrom(stream, events)
    ensures var rx := Run(Empty, events);
            && (ReadsBelowGap(events) <==> Front(rx.got, rx.consumed))
            && (ReadsBelowGap(events) ==> rx.consumed <= |stream| && Fed(Empty, events) == stream[..rx.consumed])
    decreases |events|
  {
    hide Fed;
    hide Step;
    RunIsFaithful(stream, events);
    if events != [] {
      var n := |events| - 1;
      OnlyReceivedIff(stream, events[..n]);
      RunIsFaithful(stream, events[..n]);
      StepFront(stream, Run(Empty, events[..n]), events[n]);
    }
  }

  lemma StepFront(stream: seq<Octet>, rx: Rx, e: Event)
    requires Faithful(stream, rx) && (e.Arrive? ==> CutFrom(stream, e.f))
    ensures var rx' := Step(rx, e);
            Front(rx'.got, rx'.consumed) <==> Front(rx.got, rx.consumed) && ReadBelowGap(rx, e)
  {
    StepIsFaithful(stream, rx, e);
    var rx' := Step(rx, e);
    if Front(rx'.got, rx'.consumed) {
      forall o: nat | o < rx.consumed
        ensures o in rx.got
      {
        assert o in rx'.got;
      }
      assert GapAt(rx.got, rx.consumed) < rx'.consumed ==> GapAt(rx.got, rx.consumed) in rx'.got;
    }
  }

  // ---- runs without an overrun ----

  predicate NoOverrun(events: seq<Event>)
    decreases |events|
  {
    events == [] ||
    (var n := |events| - 1;
     NoOverrun(events[..n]) && (events[n].Arrive? ==> !Overruns(Run(Empty, events[..n]), events[n].f)))
  }

  /** Without an overrun the contiguous offset is the first one missing, so no read goes
      past that. */
  lemma {:induction false} NoOverrunIsClean(stream: seq<Octet>, events: seq<Event>)
    requires AllCutFrom(stream, events) && NoOverrun(events)
    ensures var rx := Run(Empty, events); Front(rx.got, rx.contig)
    ensures ReadsBelowGap(events)
    decreases |events|
  {
    hide Fed;
    if events != [] {
      var n := |events| - 1;
      var rx := Run(Empty, events[..n]);
      NoOverrunIsClean(stream, events[..n]);
      RunIsFaithful(stream, events[..n]);
      GapIs(rx.got, rx.consumed, rx.contig);
      StepIsFaithful(stream, rx, events[n]);
    }
  }

  /** A frame that leaves a gap ends inside the window. (Behind it the source grows the
      byte buffer, but not the fill map.) */
  predicate InWindow(rx: Rx, f: Frame) {
    f.off > rx.end ==> f.off + |f.data| <= rx.consumed + BUF_SIZE
  }

  predicate WindowRun(events: seq<Event>)
    decreases |events|
  {
    events == [] ||
    (var n := |events| - 1;
     WindowRun(events[..n]) && (events[n].Arrive? ==> InWindow(Run(Empty, events[..n]), events[n].f)))
  }

  /** On a stream that fits the buffer no run overruns it or leaves the window, and
      everything that arrived is held. */
  lemma {:induction false} SmallStreamIsSafe(stream: seq<Octet>, events: seq<Event>)
    requires |stream| <= BUF_SIZE && AllCutFrom(stream, events)
    ensures NoOverrun(events) && WindowRun(events)
    ensures forall o: nat :: Arrived(events, o) ==> o in Run(Empty, events).got
    decreases |events|
  {
    hide Fed;
    if events != [] {
      var n := |events| - 1;
      var rx := Run(Empty, events[..n]);
      SmallStreamIsSafe(stream, events[..n]);
      RunIsFaithful(stream, events[..n]);
      NoOverrunIsClean(stream, events[..n]);
      OnlyReceivedIff(stream, events[..n]);
      StepIsFaithful(stream, rx, events[n]);
      forall o: nat | Arrived(events, o)
        ensures o in Run(Empty, events).got
      {
        ArrivedSoFar(events, o);
        if events[n].Arrive? && Covers(events[n].f, o) && o < rx.consumed {
          assert o in rx.got;
        }
      }
    }
  }

  /** Nothing is withheld: once the first `n` bytes have arrived, in whatever pieces,
      TLS can have all of them. */
  lemma {:induction false} AllArrivedAllAvailable(stream: seq<Octet>, events: seq<Event>, n: nat)
    requires |stream| <= BUF_SIZE && AllCutFrom(stream, events) && n <= |stream|
    requires forall o: nat :: o < n ==> Arrived(events, o)
    ensures var rx := Run(Empty, events); rx.consumed + Avail(rx) >= n
  {
    RunIsFaithful(stream, events);
    SmallStreamIsSafe(stream, events);
    var rx := Run(Empty, events);
    assert rx.contig !in rx.got;
    if n > 0 {
      assert n - 1 in rx.got;
    }
  }

  /** A frame that fills a gap below the buffered end is taken exactly when its
      absolute end is within the buffer size, however far the window has moved on:
      for a stream longer than the buffer, a lost byte at or above BUF_SIZE that later
      data has already overtaken stays lost. */
  lemma GapFillTakenIff(rx: Rx, f: Frame, o: nat)
    requires f.off < rx.end && Covers(f, o) && rx.consumed <= o && o !in rx.got
    ensures o in Received(rx, f).got <==> f.off + |f.data| <= BUF_SIZE
  {
  }

  /** A frame that continues the buffered data is taken exactly when it ends inside the window,
      and one that leaves a gap always; nothing is taken below what TLS took. */
  lemma NextTakenIff(rx: Rx, f: Frame, o: nat)
    requires f.off >= rx.end && Covers(f, o) && Below(rx.got, rx.end)
    ensures o in Received(rx, f).got <==> o >= rx.consumed && (f.off > rx.end || f.off + |f.data| <= rx.consumed + 65536)
    ensures o in Received(rx, f).got ==> Received(rx, f).got[o] == f.data[o - f.off]
  {
  }

  function Sum(lens: seq<nat>): nat
    decreases |lens|
  {
    if lens == [] then 0 else Sum(lens[..|lens| - 1]) + lens[|lens| - 1]
  }

  /** Frames of these lengths back to back, each followed by a read of its length. */
  function Lockstep(stream: seq<Octet>, lens: seq<nat>): seq<Event>
    requires Sum(lens) <= |stream|
    decreases |lens|
  {
    if lens == [] then []
    else
      var n := |lens| - 1;
      var off := Sum(lens[..n]);
      Lockstep(stream, lens[..n]) + [Arrive(Frame(off, stream[off..off + lens[n]]))] + [Read(lens[n])]
  }

  lemma {:induction false} LockstepIsCut(stream: seq<Octet>, lens: seq<nat>)
    requires Sum(lens) <= |stream|
    ensures AllCutFrom(stream, Lockstep(stream, lens))
    decreases |lens|
  {
    if lens != [] {
      LockstepIsCut(stream, lens[..|lens| - 1]);
    }
  }

  lemma {:induction false} LockstepRuns(stream: seq<Octet>, lens: seq<nat>)
    requires Sum(lens) <= |stream| && forall i :: 0 <= i < |lens| ==> lens[i] <= 65536
    ensures var rx := Run(Empty, Lockstep(stream, lens)); rx.consumed == rx.end == rx.contig == Sum(lens)
    ensures NoOverrun(Lockstep(stream, lens))
    decreases |lens|
  {
    hide Received;
    hide Run;
    hide Step;
    hide Overruns;
    if lens == [] {
      NoEvents();
    } else {
      var n := |lens| - 1;
      LockstepRuns(stream, lens[..n]);
      var before, off := Lockstep(stream, lens[..n]), Sum(lens[..n]);
      var f := Frame(off, stream[off..off + lens[n]]);
      LockstepIsCut(stream, lens[..n]);
      RunIsFaithful(stream, before);
      OneStep(stream, Run(Empty, before), f);
      RunPush(before, Arrive(f));
      RunPush(before + [Arrive(f)], Read(lens[n]));
      NoOverrunPush(before, Arrive(f));
      NoOverrunPush(before + [Arrive(f)], Read(lens[n]));
    }
  }

  lemma NoOverrunPush(events: seq<Event>, e: Event)
    ensures NoOverrun(events + [e]) <==> NoOverrun(events) && (e.Arrive? ==> !Overruns(Run(Empty, events), e.f))
  {
    assert (events + [e])[..|events|] == events;
  }

  /** A stream of any length that arrives in order, no frame longer than the window, and is
      read up after each: TLS gets all of it. */
  lemma InOrderIsFed(stream: seq<Octet>, lens: seq<nat>)
    requires Sum(lens) <= |stream| && forall i :: 0 <= i < |lens| ==> lens[i] <= 65536
    ensures Fed(Empty, Lockstep(stream, lens)) == stream[..Sum(lens)]
  {
    hide Fed;
    hide Run;
    LockstepIsCut(stream, lens);
    LockstepRuns(stream, lens);
    NoOverrunIsClean(stream, Lockstep(stream, lens));
    OnlyReceivedIff(stream, Lockstep(stream, lens));
  }

  lemma NoEvents()
    ensures Run(Empty, []) == Empty
  {
  }

  lemma RunPush(events: seq<Event>, e: Event)
    ensures Run(Empty, events + [e]) == Step(Run(Empty, events), e)
  {
    assert (events + [e])[..|events|] == events;
  }

  lemma OneStep(stream: seq<Octet>, rx: Rx, f: Frame)
    requires Faithful(stream, rx) && rx.consumed == rx.end == rx.contig == f.off && |f.data| <= 65536
    ensures var rx' := Step(Step(rx, Arrive(f)), Read(|f.data|));
            rx'.consumed == rx'.end == rx'.contig == f.off + |f.data| && !Overruns(rx, f)
  {
    var got := Patch(rx.got, f, rx.consumed);
    GapIs(got, rx.contig, f.off + |f.data|);
  }

  /** What an overrun can lead to: TLS takes `n` of the bytes it is shown, and a later
      frame of the stream, inside the window by now, leaves a gap that begins where the
      lost frame began. The bytes of the lost frame below `g` are then shown to TLS as
      zeros, although none of them was received. */
  lemma OverrunShowsZeros(rx: Rx, f: Frame, n: nat, g: Frame)
    requires rx.consumed <= rx.contig && Below(rx.got, rx.end) && Overruns(rx, f) && n <= rx.end - rx.consumed
    requires f.off < g.off <= f.off + |f.data| < g.off + |g.data| <= rx.consumed + n + BUF_SIZE
    ensures var after := Received(Step(Received(rx, f), Read(n)), g);
            && after.consumed == rx.consumed + n && Avail(after) == g.off + |g.data| - after.consumed
            && forall o: nat :: f.off <= o < g.off ==> o !in after.got && ShownAt(after, o) == 0
  {
    var lost := Received(rx, f);
    GapIs(rx.got, f.off + |f.data|, f.off + |f.data|);
    assert lost == rx.(contig := f.off + |f.data|);
    var read := Step(lost, Read(n));
    assert read == lost.(consumed := rx.consumed + n);
    var after := Received(read, g);
    assert after.got == Patch(rx.got, g, read.consumed);
    GapIs(after.got, lost.contig, g.off + |g.data|);
  }
}

/** The receive side of one encryption level: buffer, fill map, contiguous offset,
    worked on in place. */
module CryptoReceiver {
  import opened CryptoStream
  import opened FillMap
  import opened Octets

  // ---- what the three branches of a frame come to ----

  lemma ReceivedNext(rx: Rx, f: Frame)
    requires f.off == rx.end && rx.consumed <= rx.contig && rx.contig !in rx.got
    ensures var fits := f.off + |f.data| <= rx.consumed + BUF_SIZE;
            var got := if fits then Patch(rx.got, f, rx.consumed) else rx.got;
            Received(rx, f) == Rx(got, rx.consumed, if fits then f.off + |f.data| else rx.end,
                                  GapAt(got, if f.off == rx.contig then rx.contig + |f.data| else rx.contig))
  {
    var rx' := Received(rx, f);
    if f.off == rx.contig && !Overruns(rx, f) {
      GapIs(rx'.got, rx.contig, GapAt(rx'.got, rx.contig + |f.data|));
    }
  }

  lemma ReceivedBefore(rx: Rx, f: Frame)
    requires f.off < rx.end && rx.consumed <= rx.end && rx.consumed <= rx.contig && rx.contig !in rx.got
    ensures var end := f.off + |f.data|;
            var got := Patch(rx.got, f, rx.consumed);
            Received(rx, f) ==
              if end > BUF_SIZE || end <= rx.consumed then rx.(contig := GapAt(rx.got, rx.contig))
              else Rx(got, rx.consumed, Max(rx.end, end),
                      GapAt(got, if Max(f.off, rx.consumed) == rx.contig then end else rx.contig))
  {
    var got := Patch(rx.got, f, rx.consumed);
    if f.off + |f.data| <= rx.consumed {
      assert got == rx.got;
    } else if Max(f.off, rx.consumed) == rx.contig {
      GapIs(got, rx.contig, GapAt(got, f.off + |f.data|));
    }
  }

  lemma ReceivedGap(rx: Rx, f: Frame)
    requires f.off > rx.end
    ensures var got := Patch(rx.got, f, rx.consumed);
            Received(rx, f) == Rx(got, rx.consumed, f.off + |f.data|, GapAt(got, rx.contig))
  {
  }

  /** Entry `i` of the window: its flag says whether the byte was received; the buffer
      holds it, or below the buffered end a zero. */
  ghost predicate Entry(rx: Rx, bits: seq<bool>, buf: seq<Octet>, i: nat)
    requires i < |bits| == |buf|
  {
    && bits[i] == (rx.consumed + i in rx.got)
    && (bits[i] ==> buf[i] == rx.got[rx.consumed + i])
    && (!bits[i] && rx.consumed + i < rx.end ==> buf[i] == 0)
  }

  ghost predicate MirrorsUpTo(rx: Rx, bits: seq<bool>, buf: seq<Octet>, k: nat)
    requires k <= |bits| == |buf|
  {
    k == 0 || (Entry(rx, bits, buf, k - 1) && MirrorsUpTo(rx, bits, buf, k - 1))
  }

  /** The fill map and the buffer show exactly what was received, shifted down by what
      was consumed; nothing was received at or behind the buffered end. */
  ghost predicate Mirrors(rx: Rx, bits: seq<bool>, buf: seq<Octet>) {
    && |bits| == |buf|
    && MirrorsUpTo(rx, bits, buf, |bits|)
    && Below(rx.got, rx.end)
  }

  lemma {:induction false} MirrorsEntry(rx: Rx, bits: seq<bool>, buf: seq<Octet>, k: nat, i: nat)
    requires i < k <= |bits| == |buf| && MirrorsUpTo(rx, bits, buf, k)
    ensures Entry(rx, bits, buf, i)
  {
    if i < k - 1 {
      MirrorsEntry(rx, bits, buf, k - 1, i);
    }
  }

  lemma {:induction false} EntriesMirror(rx: Rx, bits: seq<bool>, buf: seq<Octet>, k: nat)
    requires k <= |bits| == |buf|
    requires forall i :: 0 <= i < k ==> Entry(rx, bits, buf, i)
    ensures MirrorsUpTo(rx, bits, buf, k)
  {
    if k > 0 {
      EntriesMirror(rx, bits, buf, k - 1);
    }
  }

  /** The buffer after the frame's bytes were copied in. */
  function CopiedIn(buf: seq<Octet>, f: Frame, consumed: nat): seq<Octet> {
    seq(|buf|, i requires 0 <= i < |buf| =>
      if Covers(f, consumed + i) then f.data[consumed + i - f.off] else buf[i])
  }

  lemma StoreMirrors(rx: Rx, bits: seq<bool>, buf: seq<Octet>, f: Frame, absOff: nat)
    requires Mirrors(rx, bits, buf)
    requires absOff == Max(f.off, rx.consumed) <= f.off + |f.data| <= rx.consumed + |bits| && absOff <= rx.end
    ensures Mirrors(rx.(got := Patch(rx.got, f, rx.consumed), end := Max(rx.end, f.off + |f.data|)),
                    Filled(bits, absOff - rx.consumed, f.off + |f.data| - absOff),
                    CopiedIn(buf, f, rx.consumed))
  {
    var rx' := rx.(got := Patch(rx.got, f, rx.consumed), end := Max(rx.end, f.off + |f.data|));
    var bits', buf' := Filled(bits, absOff - rx.consumed, f.off + |f.data| - absOff), CopiedIn(buf, f, rx.consumed);
    forall i | 0 <= i < |bits|
      ensures Entry(rx', bits', buf', i)
    {
      MirrorsEntry(rx, bits, buf, |bits|, i);
    }
    EntriesMirror(rx', bits', buf', |bits|);
  }

  lemma GapMirrors(rx: Rx, bits: seq<bool>, buf: seq<Octet>, buf': seq<Octet>, end: nat)
    requires Mirrors(rx, bits, buf) && |buf'| == |buf| && rx.end <= end
    requires forall i :: 0 <= i < |buf| && rx.consumed + i < rx.end ==> buf'[i] == buf[i]
    requires forall i :: 0 <= i < |buf| && rx.end <= rx.consumed + i < end ==> buf'[i] == 0
    ensures Mirrors(rx.(end := end), bits, buf')
  {
    forall i | 0 <= i < |bits|
      ensures Entry(rx.(end := end), bits, buf', i)
    {
      MirrorsEntry(rx, bits, buf, |bits|, i);
    }
    EntriesMirror(rx.(end := end), bits, buf', |bits|);
  }

  /** The first `rem` bytes behind `n`, moved down to the front. */
  function MovedDown(buf: seq<Octet>, n: nat, rem: nat): seq<Octet>
    requires n + rem <= |buf|
  {
    seq(|buf|, i requires 0 <= i < |buf| => if i < rem then buf[i + n] else buf[i])
  }

  lemma DropMirrors(rx: Rx, bits: seq<bool>, buf: seq<Octet>, n: nat)
    requires Mirrors(rx, bits, buf)
    requires rx.consumed + n <= rx.end <= rx.consumed + |buf|
    ensures Mirrors(rx.(consumed := rx.consumed + n), Dropped(bits, n), MovedDown(buf, n, rx.end - rx.consumed - n))
  {
    var rx', bits', buf' := rx.(consumed := rx.consumed + n), Dropped(bits, n), MovedDown(buf, n, rx.end - rx.consumed - n);
    forall i | 0 <= i < |bits|
      ensures Entry(rx', bits', buf', i)
    {
      if i + n < |bits| {
        MirrorsEntry(rx, bits, buf, |bits|, i + n);
      }
    }
    EntriesMirror(rx', bits', buf', |bits|);
  }

  lemma ClearMirrors(rx: Rx, buf: seq<Octet>)
    requires Below(rx.got, rx.end) && rx.end <= rx.consumed
    ensures Mirrors(rx, NoFlags(|buf|), buf)
  {
    EntriesMirror(rx, NoFlags(|buf|), buf, |buf|);
  }

  class CryptoLevel {
    const rbuf: array<Octet>
    const fill: FillMap
    var rlen: nat
    var consumed: nat
    var contig: nat
    ghost var got: map<nat, Octet>

    ghost function Abs(): Rx
      reads this
    {
      Rx(got, consumed, consumed + rlen, contig)
    }

    /** What buffer and fill map are about. */
    ghost function Core(): Rx
      reads this
    {
      Abs().(contig := 0)
    }

    /** Buffer and fill map are exact; the contiguous offset may still have received bytes
        at it and above. */
    ghost predicate Held()
      reads this, rbuf, fill, fill.bytes
    {
      && fill.Valid() && rbuf.Length == BUF_SIZE && |fill.bits| == BUF_SIZE && rlen <= BUF_SIZE
      && Mirrors(Core(), fill.bits, rbuf[..]) && consumed <= contig
    }

    ghost predicate Valid()
      reads this, rbuf, fill, fill.bytes
    {
      Held() && contig !in got
    }

    constructor ()
      ensures Valid() && Abs() == Empty
      ensures fresh(rbuf) && fresh(fill) && fresh(fill.bytes)
    {
      var buf := new Octet[BUF_SIZE];
      rbuf := buf;
      fill := new FillMap(BUF_SIZE / 8);
      rlen, consumed, contig := 0, 0, 0;
      got := map[];
      new;
      ClearMirrors(Empty, rbuf[..]);
    }

    /** Advances the contiguous offset to the next byte that is not there. */
    method ContigScan()
      requires Held()
      modifies this`contig
      ensures Valid() && Abs() == old(Abs()).(contig := GapAt(got, old(contig)))
    {
      var c := contig;
      var bufEnd := consumed + rlen;
      while c < bufEnd
        invariant old(contig) <= c && (c == old(contig) || c <= bufEnd)
        invariant forall o: nat :: old(contig) <= o < c ==> o in got
        modifies {}
      {
        var isSet := fill.Test(c - consumed);
        MirrorsEntry(Core(), fill.bits, rbuf[..], BUF_SIZE, c - consumed);
        if !isSet {
          break;
        }
        c := c + 1;
      }
      GapIs(got, contig, c);
      contig := c;
    }

    method CopyIn(f: Frame, relOff: nat, len: nat)
      requires relOff + len <= rbuf.Length
      requires consumed + relOff == Max(f.off, consumed) && relOff + len + consumed == f.off + |f.data|
      modifies rbuf
      ensures rbuf[..] == CopiedIn(old(rbuf[..]), f, consumed)
    {
      ghost var was := rbuf[..];
      forall i | relOff <= i < relOff + len {
        rbuf[i] := f.data[consumed + i - f.off];
      }
      forall i | 0 <= i < rbuf.Length
        ensures rbuf[..][i] == CopiedIn(was, f, consumed)[i]
      {
        assert relOff <= i < relOff + len <==> Covers(f, consumed + i);
      }
    }

    /** Copies the part of the frame at or above `absOff` into the buffer, marks it
        and extends the buffered length over it. */
    method Store(f: Frame, absOff: nat)
      requires Held()
      requires absOff == Max(f.off, consumed) <= f.off + |f.data| <= consumed + BUF_SIZE
      requires absOff <= consumed + rlen
      modifies this`rlen, this`got, rbuf, fill, fill.bytes
      ensures Held()
      ensures Abs() == old(Abs()).(got := Patch(old(got), f, consumed), end := Max(old(consumed + rlen), f.off + |f.data|))
    {
      hide Mirrors;
      hide Patch;
      hide Filled;
      hide CopiedIn;
      var relOff, len := absOff - consumed, f.off + |f.data| - absOff;
      ghost var bits', buf' := Filled(fill.bits, relOff, len), CopiedIn(rbuf[..], f, consumed);
      StoreMirrors(Core(), fill.bits, rbuf[..], f, absOff);
      CopyIn(f, relOff, len);
      fill.Set(relOff, len);
      assert fill.bits == bits' && rbuf[..] == buf';
      got := Patch(got, f, consumed);
      rlen := Max(rlen, relOff + len);
      assert Mirrors(Core(), bits', buf');
    }

    /** One CRYPTO frame: buffer, fill map and offsets follow the specification, also where
        the contiguous offset moves on over bytes that were not stored. */
    method Feed(f: Frame)
      requires Valid() && InWindow(Abs(), f)
      modifies this, rbuf, fill, fill.bytes
      ensures Valid() && Abs() == Received(old(Abs()), f)
    {
      if f.off == consumed + rlen {
        FeedNext(f);
      } else {
        if f.off < consumed + rlen {
          FeedRetransmit(f);
        } else {
          FeedGap(f);
        }
        ContigScan();
      }
    }

    /** The frame continues the buffered data. */
    method FeedNext(f: Frame)
      requires Valid() && f.off == consumed + rlen
      modifies this, rbuf, fill, fill.bytes
      ensures Valid() && Abs() == Received(old(Abs()), f)
    {
      hide GapAt;
      hide Received;
      hide Patch;
      hide Mirrors;
      ReceivedNext(Abs(), f);
      var clen, atContig := |f.data|, f.off == contig;
      if rlen + clen <= rbuf.Length {
        Store(f, f.off);
      }
      if atContig {
        contig := contig + clen;
      }
      ContigScan();
    }

    /** The frame starts inside, or before, the buffered data. */
    method FeedRetransmit(f: Frame)
      requires Valid() && f.off < consumed + rlen
      modifies this, rbuf, fill, fill.bytes
      ensures Held()
      ensures Abs().(contig := GapAt(got, contig)) == Received(old(Abs()), f)
    {
      hide GapAt;
      hide Received;
      hide Patch;
      hide Mirrors;
      ReceivedBefore(Abs(), f);
      var absOff, absEnd := f.off, f.off + |f.data|;
      if rbuf.Length >= absEnd {
        if absEnd <= consumed {
          return;
        }
        if absOff < consumed {
          absOff := consumed;
        }
        Store(f, absOff);
        if absOff == contig {
          contig := absEnd;
        }
      }
    }

    /** The frame starts behind the buffered data: the bytes in between are zeroed and
        stay unmarked. */
    method FeedGap(f: Frame)
      requires Held() && f.off > consumed + rlen && f.off + |f.data| <= consumed + BUF_SIZE
      modifies this`rlen, this`got, rbuf, fill, fill.bytes
      ensures Held()
      ensures Abs().(contig := GapAt(got, contig)) == Received(old(Abs()), f)
    {
      hide GapAt;
      hide Received;
      hide Patch;
      ReceivedGap(Abs(), f);
      var gap := f.off - (consumed + rlen);
      ghost var rx, was := Core(), rbuf[..];
      forall i | rlen <= i < rlen + gap {
        rbuf[i] := 0;
      }
      GapMirrors(rx, fill.bits, was, rbuf[..], f.off);
      rlen := rlen + gap;
      Store(f, f.off);
    }

    /** What TLS is shown: the buffered bytes below the contiguous offset, each one received
        or a zero. */
    method Recv() returns (bytes: seq<Octet>)
      requires Valid()
      ensures |bytes| == Avail(Abs())
      ensures forall i :: 0 <= i < |bytes| ==> bytes[i] == ShownAt(Abs(), consumed + i)
    {
      if rlen == 0 {
        return [];
      }
      var avail := rlen;
      if contig > consumed {
        if contig - consumed < avail {
          avail := contig - consumed;
        }
      } else {
        avail := 0;
      }
      bytes := rbuf[..avail];
      forall i | 0 <= i < |bytes|
        ensures bytes[i] == ShownAt(Abs(), consumed + i)
      {
        MirrorsEntry(Core(), fill.bits, rbuf[..], BUF_SIZE, i);
      }
    }

    /** TLS is done with `n` bytes, no more than it was shown (an n above the buffered
        length is ignored). */
    method Release(n: nat)
      requires Valid() && (n <= Avail(Abs()) || n > rlen)
      modifies this`rlen, this`consumed, rbuf, fill, fill.bytes
      ensures Valid() && Abs() == old(Abs()).(consumed := old(consumed) + (if n <= old(rlen) then n else 0))
    {
      if 0 < n <= rlen {
        var rem := rlen - n;
        if rem > 0 {
          DropMirrors(Core(), fill.bits, rbuf[..], n);
          MoveDown(n, rem);
          fill.Drop(n);
        } else {
          ClearMirrors(Core().(consumed := consumed + n), rbuf[..]);
          fill.Clear();
        }
        rlen := rem;
        consumed := consumed + n;
      }
    }

    /** The first `rem` bytes behind `n` move down to the front. */
    method MoveDown(n: nat, rem: nat)
      requires n + rem <= rbuf.Length
      modifies rbuf
      ensures rbuf[..] == MovedDown(old(rbuf[..]), n, rem)
    {
      forall i | 0 <= i < rem {
        rbuf[i] := rbuf[i + n];
      }
    }
  }

  /** Any schedule of arrivals and reads, run on the real buffers, does what the
      specification says, as long as no frame leaves a gap up to behind the window: TLS is
      fed the sender's bytes, or zeros where none was received. On a stream that fits the
      buffer every schedule is of that kind and there are no zeros. */
  method Drive(stream: seq<Octet>, level: CryptoLevel, events: seq<Event>) returns (fed: seq<Octet>)
    requires level.Valid() && level.Abs() == Empty
    requires AllCutFrom(stream, events) && (|stream| <= BUF_SIZE || WindowRun(events))
    modifies level, level.rbuf, level.fill, level.fill.bytes
    ensures level.Valid() && level.Abs() == Run(Empty, events) && fed == Fed(Empty, events)
    ensures level.consumed <= |stream| && FedIs(stream, level.Abs(), fed)
    ensures ReadsBelowGap(events) || |stream| <= BUF_SIZE ==> fed == stream[..level.consumed]
  {
    if |stream| <= BUF_SIZE {
      SmallStreamIsSafe(stream, events);
      NoOverrunIsClean(stream, events);
    }
    fed := [];
    for i := 0 to |events|
      invariant level.Valid() && level.Abs() == Run(Empty, events[..i])
      invariant fed == Fed(Empty, events[..i])
    {
      WindowAt(events, i);
      var bytes := Apply(level, events[i]);
      fed := fed + bytes;
    }
    assert events[..|events|] == events;
    RunIsFaithful(stream, events);
    OnlyReceivedIff(stream, events);
  }

  lemma {:induction false} WindowAt(events: seq<Event>, i: nat)
    requires i < |events| && WindowRun(events)
    ensures events[i].Arrive? ==> InWindow(Run(Empty, events[..i]), events[i].f)
    ensures Run(Empty, events[..i + 1]) == Step(Run(Empty, events[..i]), events[i])
    ensures Fed(Empty, events[..i + 1]) == Fed(Empty, events[..i]) + Handed(Run(Empty, events[..i]), events[i])
    decreases |events|
  {
    hide Step;
    hide Handed;
    hide InWindow;
    var n := |events| - 1;
    if i < n {
      WindowAt(events[..n], i);
      assert events[..n][..i] == events[..i] && events[..n][..i + 1] == events[..i + 1];
    } else {
      assert events[..i + 1] == events;
    }
  }

  /** One event on the real buffers. */
  method Apply(level: CryptoLevel, e: Event) returns (bytes: seq<Octet>)
    requires level.Valid() && (e.Arrive? ==> InWindow(level.Abs(), e.f))
    modifies level, level.rbuf, level.fill, level.fill.bytes
    ensures level.Valid() && level.Abs() == Step(old(level.Abs()), e)
    ensures bytes == Handed(old(level.Abs()), e)
  {
    match e
    case Arrive(f) =>
      level.Feed(f);
      bytes := [];
    case Read(want) =>
      var shown := level.Recv();
      var n := if want < |shown| then want else |shown|;
      level.Release(n);
      bytes := shown[..n];
  }
}

/** Cutting the TLS output into CRYPTO frames. */
module CryptoSender {
  import opened CryptoStream
  import opened Octets

  /** The frames lie back to back from `off` on and carry exactly `data`. */
  predicate Tiles(frames: seq<Frame>, off: nat, data: seq<Octet>)
    decreases |frames|
  {
    if frames == [] then data == []
    else
      var n := |frames| - 1;
      var last := frames[n];
      && |last.data| <= |data|
      && last.off == off + |data| - |last.data|
      && last.data == data[|data| - |last.data|..]
      && Tiles(frames[..n], off, data[..|data| - |last.data|])
  }

  ghost predicate CoveredBy(frames: seq<Frame>, o: nat) {
    exists i :: 0 <= i < |frames| && Covers(frames[i], o)
  }

  /** Tiles are slices of the stream, and together they miss no byte of it. */
  lemma {:induction false} TilesAreCut(stream: seq<Octet>, frames: seq<Frame>, off: nat, data: seq<Octet>)
    requires Tiles(frames, off, data)
    requires off + |data| <= |stream| && stream[off..off + |data|] == data
    ensures forall i :: 0 <= i < |frames| ==> CutFrom(stream, frames[i])
    ensures forall o: nat :: off <= o < off + |data| ==> CoveredBy(frames, o)
    decreases |frames|
  {
    if frames != [] {
      var n := |frames| - 1;
      var last := frames[n];
      var front := data[..|data| - |last.data|];
      assert stream[off..off + |front|] == front;
      TilesAreCut(stream, frames[..n], off, front);
      assert CutFrom(stream, last);
      forall o: nat | off <= o < off + |data|
        ensures CoveredBy(frames, o)
      {
        if o < off + |front| {
          assert CoveredBy(frames[..n], o);
          var i :| 0 <= i < |frames[..n]| && Covers(frames[..n][i], o);
          assert Covers(frames[i], o);
        } else {
          assert Covers(frames[n], o);
        }
      }
    }
  }

  lemma NoTiles(off: nat, buf: seq<Octet>)
    ensures Tiles([], off, buf[..0])
  {
  }

  lemma TilesPush(frames: seq<Frame>, off: nat, buf: seq<Octet>, total: nat, chunk: nat)
    requires total + chunk <= |buf| && Tiles(frames, off, buf[..total])
    ensures Tiles(frames + [Frame(off + total, buf[total..total + chunk])], off, buf[..total + chunk])
  {
    var all := frames + [Frame(off + total, buf[total..total + chunk])];
    assert buf[..total + chunk][..total] == buf[..total];
    assert all[..|frames|] == frames;
  }

  class Sender {
    var sendOff: nat
    var sent: seq<Octet>
    var pending: bool

    /** All that was accepted so far is the front of the TLS output stream. */
    ghost predicate Valid(stream: seq<Octet>)
      reads this
    {
      sendOff <= |stream| && sent == stream[..sendOff]
    }

    constructor ()
      ensures Valid([]) && sendOff == 0
    {
      sendOff, sent, pending := 0, [], false;
    }

    /** TLS offers the next bytes of its stream; `ok(i)` is the answer of the packet
        layer to the i-th frame of this call. A refusal takes back the whole offer:
        the frames already out are repeated by the next call. Either way every
        frame is a slice of the stream. */
    method Send(ghost stream: seq<Octet>, buf: seq<Octet>, ok: nat -> bool)
      returns (taken: nat, frames: seq<Frame>)
      requires Valid(stream)
      requires sendOff + |buf| <= |stream| && stream[sendOff..sendOff + |buf|] == buf
      modifies this
      ensures Valid(stream) && sendOff == old(sendOff) + taken
      ensures taken == |buf| || taken == 0
      ensures exists k :: 0 <= k <= |buf| && Tiles(frames, old(sendOff), buf[..k]) && (taken == |buf| ==> k == |buf|)
      ensures forall i :: 0 <= i < |frames| ==> 0 < |frames[i].data| <= MAX_CHUNK
      ensures forall i :: 0 <= i < |frames| ==> ok(i)
      ensures taken < |buf| ==> !ok(|frames|)
      ensures forall i :: 0 <= i < |frames| - (if taken == |buf| then 1 else 0) ==> |frames[i].data| == MAX_CHUNK
      ensures pending == (old(pending) || taken < |buf|)
    {
      hide Tiles;
      frames := [];
      var total := 0;
      NoTiles(sendOff, buf);
      while total < |buf|
        invariant 0 <= total <= |buf|
        invariant sendOff == old(sendOff) && sent == old(sent)
        invariant Tiles(frames, sendOff, buf[..total])
        invariant forall i :: 0 <= i < |frames| ==> 0 < |frames[i].data| <= MAX_CHUNK && ok(i)
        invariant forall i :: 0 <= i < |frames| - 1 ==> |frames[i].data| == MAX_CHUNK
        invariant total < |buf| && frames != [] ==> |frames[|frames| - 1].data| == MAX_CHUNK
        invariant pending == old(pending)
      {
        var chunk := |buf| - total;
        if chunk > MAX_CHUNK {
          chunk := MAX_CHUNK;
        }
        var f := Frame(sendOff + total, buf[total..total + chunk]);
        if !ok(|frames|) {
          pending := true;
          assert Tiles(frames, old(sendOff), buf[..total]);
          return 0, frames;
        }
        TilesPush(frames, sendOff, buf, total, chunk);
        frames := frames + [f];
        total := total + chunk;
      }
      assert buf[..total] == buf;
      assert Tiles(frames, old(sendOff), buf[..total]);
      sent := sent + buf;
      sendOff := sendOff + |buf|;
      taken := |buf|;
    }
  }
}
