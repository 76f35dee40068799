/** Following a peer's key updates: a packet that does not open is tried once more with the
    next generation of keys, which are put in place for the trial and taken out again. */
module KeyUpdateSpec {
  import A = AckSpec

  /** Secrets and keys are named by their generation: HKDF takes generation n to n + 1.
      `sealed` counts the packets really sealed under the write key in place. */
  datatype Keys = Keys(
    readKey: nat, writeKey: nat, readSecret: nat, writeSecret: nat,
    peerPhase: Bit, currentPhase: Bit,
    pktsSent: nat, aeadCount: nat, warned: bool,
    readSaved: bool, writeSaved: bool, spin: Bit,
    sealed: nat)

  const AEAD_LIMIT_WARN: nat := 1048576

  type Bit = b: nat | b < 2

  /** The first generation; `readSaved` and `writeSaved` say which secrets were kept. */
  function Start(readSaved: bool, writeSaved: bool): Keys {
    Keys(0, 0, 0, 0, 0, 0, 0, 0, false, readSaved, writeSaved, 0, 0)
  }

  /** A short-header packet as it arrives. `gen` and `pn` are what it was sealed with (if
      `genuine`), `decoded` what quic_pn_decode makes of the `pnLen` bytes `wire`; `rawSpin`
      is the spin bit while the header is still covered. */
  datatype Packet = Packet(
    hpRemoved: bool, reserved: nat, phase: Bit, dcidOk: bool, longEnough: bool,
    genuine: bool, gen: nat, pn: nat, pnLen: nat, wire: nat, decoded: nat,
    spin: Bit, rawSpin: Bit)

  /** Whether HKDF works for the read and the write secret. */
  datatype Env = Env(okRead: bool, okWrite: bool)

  datatype Outcome = Dropped | Accepted(pn: nat)

  /** The header is in the clear. */
  predicate HeaderOk(p: Packet) {
    p.hpRemoved && p.reserved == 0
  }

  /** AEAD: a packet opens under the key and the packet number it was sealed with. */
  predicate Opens(key: nat, p: Packet, pn: nat) {
    HeaderOk(p) && p.genuine && p.gen == key && p.pn == pn
  }

  /** Numbers tried besides the decoded one, for a one-byte number past 256. */
  function Candidates(p: Packet): seq<nat> {
    [p.wire, p.wire + 256]
    + (if p.decoded >= 512 then [p.decoded - 512] else [])
    + (if p.decoded >= 768 then [p.decoded - 768] else [])
  }

  predicate OpensAlternate(key: nat, p: Packet) {
    p.pnLen == 1 && p.decoded >= 256 && p.pn in Candidates(p) && Opens(key, p, p.pn)
  }

  /** The write side follows if its secret was kept and its keys can be derived. */
  predicate WriteFollows(k: Keys, env: Env) {
    k.writeSaved && env.okWrite
  }

  function NextWrite(k: Keys): Keys {
    k.(writeKey := k.writeSecret + 1, writeSecret := k.writeSecret + 1, sealed := 0)
  }

  function Install(k: Keys, env: Env): Keys {
    var k1 := k.(readKey := k.readSecret + 1, readSecret := k.readSecret + 1);
    var k2 := if WriteFollows(k, env) then NextWrite(k1) else k1;
    ResetCounters(k2.(peerPhase := 1 - k.peerPhase, currentPhase := 1 - k.peerPhase))
  }

  /** Both phases go back to what the peer's was; the counters stay at zero. */
  function RollBack(k: Keys): Keys {
    ResetCounters(k.(currentPhase := k.peerPhase))
  }

  function ResetCounters(k: Keys): Keys {
    k.(pktsSent := 0, aeadCount := 0, warned := false)
  }

  /** The later phase synchronisation. */
  function Sync(k: Keys, p: Packet, env: Env): Keys {
    if p.phase == k.peerPhase then k
    else
      var k1 := if k.currentPhase == k.peerPhase && WriteFollows(k, env) then NextWrite(k) else k;
      ResetCounters(k1.(peerPhase := p.phase, currentPhase := p.phase))
  }

  /** A next generation of keys is tried on the packet. */
  predicate Tries(k: Keys, p: Packet, env: Env) {
    && (HeaderOk(p) ==> p.dcidOk && p.longEnough)
    && !Opens(k.readKey, p, p.decoded) && !OpensAlternate(k.readKey, p)
    && k.readSaved && env.okRead
  }

  /** The spin bit is taken over before anything is authenticated. */
  function Feed(k: Keys, p: Packet, env: Env): (Keys, Outcome) {
    var k0 := if HeaderOk(p) then k.(spin := p.spin) else k;
    if HeaderOk(p) && (!p.dcidOk || !p.longEnough) then (k0, Dropped)
    else if Opens(k.readKey, p, p.decoded) then (Sync(k0, p, env), Accepted(p.decoded))
    else if OpensAlternate(k.readKey, p) then (Sync(k0, p, env), Accepted(p.pn))
    else if !k.readSaved || !env.okRead then (k0, Dropped)
    else
      var t := k0.(spin := if HeaderOk(p) then p.spin else p.rawSpin);
      var k1 := Install(t, env);
      if Opens(k1.readKey, p, p.decoded) then (Sync(k1, p, env), Accepted(p.decoded))
      else (RollBack(t), Dropped)
  }

  /** send_quic_packet: a packet is counted before it is sealed, and sealing may fail;
      `recorded` says that it goes out and loss recovery takes it as ack-eliciting. */
  function Send(k: Keys, sealsOk: bool, recorded: bool): Keys {
    k.(aeadCount := k.aeadCount + 1,
       warned := k.warned || k.aeadCount + 1 >= AEAD_LIMIT_WARN,
       pktsSent := if sealsOk && recorded then k.pktsSent + 1 else k.pktsSent,
       sealed := if sealsOk then k.sealed + 1 else k.sealed)
  }

  /** An acknowledgement sent at once because of a gap, or a CONNECTION_CLOSE: sealed under
      the write key, but not counted. */
  function SendAside(k: Keys, sealsOk: bool): Keys {
    k.(sealed := if sealsOk then k.sealed + 1 else k.sealed)
  }

  // ------------------------------------------------------------------
  // Properties
  // ------------------------------------------------------------------

  /** The read side is at one generation, the phase tells which, and the write side is
      `lag` generations behind. */
  predicate Following(k: Keys, lag: nat) {
    && k.readKey == k.readSecret && k.writeKey == k.writeSecret && k.writeKey + lag == k.readKey
    && k.peerPhase == k.currentPhase == k.readKey % 2
  }

  /** The peer puts the parity of its generation into the phase bit. */
  predicate Honest(p: Packet) {
    p.genuine ==> p.phase == p.gen % 2
  }

  /** Exactly the packets that are accepted. */
  lemma AcceptedIff(k: Keys, lag: nat, p: Packet, env: Env)
    requires Following(k, lag)
    ensures Feed(k, p, env).1.Accepted? <==>
              && HeaderOk(p) && p.dcidOk && p.longEnough && p.genuine
              && ( || (p.gen == k.readKey && Numbered(p))
                   || (p.gen == k.readKey + 1 && p.pn == p.decoded && env.okRead && k.readSaved))
    ensures Feed(k, p, env).1.Accepted? ==> Feed(k, p, env).1.pn == p.pn
  {
  }

  /** The packet number is decoded right, or found among the other candidates. */
  predicate Numbered(p: Packet) {
    p.pn == p.decoded || (p.pnLen == 1 && p.decoded >= 256 && p.pn in Candidates(p))
  }

  /** A packet is found under its own number if that is the one decoded; or, for a one-byte
      number decoded to 256 or more, the byte on the wire, that plus 256, or the decoded one
      less 512 or 768. */
  lemma NumberedIff(p: Packet)
    ensures Numbered(p) <==>
              || p.pn == p.decoded
              || (p.pnLen == 1 && p.decoded >= 256
                  && (p.pn == p.wire || p.pn == p.wire + 256 || p.pn == p.decoded - 512 || p.pn == p.decoded - 768))
  {
  }

  /** A rise of the generation in which the write side stays behind. */
  predicate Splits(k: Keys, p: Packet, env: Env) {
    Feed(k, p, env).1.Accepted? && p.gen != k.readKey && !WriteFollows(k, env)
  }

  /** What a packet does to the generation: it stays, or rises by one on a packet that
      opened under the next key; phases go along, and so does the write side unless its keys
      cannot be derived. */
  lemma FeedFollows(k: Keys, lag: nat, p: Packet, env: Env)
    requires Following(k, lag) && Honest(p)
    ensures var (k', o) := Feed(k, p, env);
            && k'.readKey == (if o.Accepted? then p.gen else k.readKey)
            && k.readKey <= k'.readKey <= k.readKey + 1
            && Following(k', if Splits(k, p, env) then lag + 1 else lag)
            && k'.readSaved == k.readSaved && k'.writeSaved == k.writeSaved
  {
    hide OpensAlternate;
    FeedCases(k, p, env);
    var k0 := if HeaderOk(p) then k.(spin := p.spin) else k;
    SyncIdle(k0, p, env);
    hide Feed;
    var o := Feed(k, p, env).1;
    if o.Accepted? && p.gen != k.readKey {
      SyncIdle(Install(k0, env), p, env);
    }
  }

  /** In terms of outcomes only. */
  lemma FeedCases(k: Keys, p: Packet, env: Env)
    requires k.readKey == k.readSecret
    ensures var (k', o) := Feed(k, p, env);
            var k0 := if HeaderOk(p) then k.(spin := p.spin) else k;
            if o.Accepted? then
              HeaderOk(p) && p.genuine
              && (if p.gen == k.readKey then k' == Sync(k0, p, env)
                  else p.gen == k.readSecret + 1 && k' == Sync(Install(k0, env), p, env))
            else if Tries(k, p, env) then k' == RollBack(k.(spin := k'.spin))
            else k' == k.(spin := k'.spin)
  {
    hide Candidates;
    hide Sync;
  }

  lemma SyncIdle(k: Keys, p: Packet, env: Env)
    ensures p.phase == k.peerPhase ==> Sync(k, p, env) == k
  {
  }

  /** The later synchronisation has nothing to do, except for a peer whose phase bit is not
      the parity of its generation. */
  lemma SyncFiresIff(k: Keys, lag: nat, p: Packet, env: Env)
    requires Following(k, lag) && Feed(k, p, env).1.Accepted?
    ensures var k0 := k.(spin := p.spin);
            var k1 := if p.gen == k.readKey then k0 else Install(k0, env);
            && Feed(k, p, env).0 == Sync(k1, p, env)
            && (p.phase != k1.peerPhase <==> p.phase != p.gen % 2)
  {
  }

  /** A packet that is not accepted leaves keys, secrets and phases as they were; the two
      counters are lost exactly when a trial was made. */
  lemma DroppedRestores(k: Keys, lag: nat, p: Packet, env: Env)
    requires Following(k, lag) && Feed(k, p, env).1 == Dropped
    ensures var k' := Feed(k, p, env).0;
            k' == if Tries(k, p, env) then k.(pktsSent := 0, aeadCount := 0, warned := false, spin := k'.spin)
                  else k.(spin := k'.spin)
  {
    hide Candidates;
  }

  // ---- runs ----

  datatype Event = Receive(p: Packet, env: Env) | SendOne(sealsOk: bool, recorded: bool) | Aside(sealsOk: bool)

  function Step(k: Keys, e: Event): Keys {
    match e
    case Receive(p, env) => Feed(k, p, env).0
    case SendOne(sealsOk, recorded) => Send(k, sealsOk, recorded)
    case Aside(sealsOk) => SendAside(k, sealsOk)
  }

  /** Of a run: the generations of the packets accepted, and how often the write side stayed
      behind. */
  datatype Past = Past(gens: seq<nat>, splits: nat)

  function Run(k: Keys, es: seq<Event>): (Keys, Past)
    decreases |es|
  {
    if es == [] then (k, Past([], 0))
    else
      var n := |es| - 1;
      var (k1, past) := Run(k, es[..n]);
      (Step(k1, es[n]), Note(k1, past, es[n]))
  }

  function Note(k: Keys, past: Past, e: Event): Past {
    if e.Receive? && Feed(k, e.p, e.env).1.Accepted?
    then Past(past.gens + [e.p.gen], if Splits(k, e.p, e.env) then past.splits + 1 else past.splits)
    else past
  }

  predicate AllHonest(es: seq<Event>) {
    forall i :: 0 <= i < |es| && es[i].Receive? ==> Honest(es[i].p)
  }

  /** Each generation is the one before or the next; the first is 0 or 1. */
  predicate Climbs(gens: seq<nat>) {
    forall i :: 0 <= i < |gens| ==> ClimbsAt(gens, i)
  }

  predicate ClimbsAt(gens: seq<nat>, i: nat)
    requires i < |gens|
  {
    var before := if i == 0 then 0 else gens[i - 1];
    before <= gens[i] <= before + 1
  }

  function Last(gens: seq<nat>): nat {
    if gens == [] then 0 else gens[|gens| - 1]
  }

  lemma ClimbsPush(gens: seq<nat>, g: nat)
    requires Climbs(gens) && Last(gens) <= g <= Last(gens) + 1
    ensures Climbs(gens + [g]) && Last(gens + [g]) == g
  {
    var all := gens + [g];
    forall i | 0 <= i < |all|
      ensures ClimbsAt(all, i)
    {
      if i < |gens| {
        assert ClimbsAt(gens, i);
      }
    }
  }

  /** Over every run with an honest peer: the read side is at the generation of the last
      packet accepted, which has risen one by one through the packets before it; the phase is
      its parity; and the write side is behind by as many generations as its keys could not
      be derived for, so that both sides are together exactly if that never happened. */
  lemma {:induction false} RunFollows(k: Keys, es: seq<Event>)
    requires Following(k, 0) && k.readKey == 0 && AllHonest(es)
    ensures var (k', past) := Run(k, es);
            && Following(k', past.splits) && Climbs(past.gens) && Last(past.gens) == k'.readKey
            && k'.readSaved == k.readSaved && k'.writeSaved == k.writeSaved
    decreases |es|
  {
    hide Feed;
    hide Climbs;
    hide Splits;
    if es == [] {
      NoneClimbs();
    } else {
      var n := |es| - 1;
      RunFollows(k, es[..n]);
      var (k1, past) := Run(k, es[..n]);
      if es[n].Receive? {
        FeedFollows(k1, past.splits, es[n].p, es[n].env);
        SplitsOnlyAccepted(k1, es[n].p, es[n].env);
        if Feed(k1, es[n].p, es[n].env).1.Accepted? {
          ClimbsPush(past.gens, es[n].p.gen);
        }
      }
    }
  }

  lemma NoneClimbs()
    ensures Climbs([])
  {
  }

  lemma SplitsOnlyAccepted(k: Keys, p: Packet, env: Env)
    ensures Splits(k, p, env) ==> Feed(k, p, env).1.Accepted?
  {
  }

  lemma StartFollows(readSaved: bool, writeSaved: bool)
    ensures Following(Start(readSaved, writeSaved), 0)
  {
  }

  /** After any such run a packet is accepted exactly if it is whole and of the generation of
      the last one accepted, or of the next and the read keys can be derived; under its own
      number. A packet of an earlier generation never is. */
  lemma RunAccepts(readSaved: bool, writeSaved: bool, es: seq<Event>, p: Packet, env: Env)
    requires AllHonest(es)
    ensures var (k, past) := Run(Start(readSaved, writeSaved), es);
            var o := Feed(k, p, env).1;
            && (o.Accepted? <==>
                  && HeaderOk(p) && p.dcidOk && p.longEnough && p.genuine
                  && ( || (p.gen == Last(past.gens) && Numbered(p))
                       || (p.gen == Last(past.gens) + 1 && p.pn == p.decoded && env.okRead && readSaved)))
            && (o.Accepted? ==> o.pn == p.pn)
  {
    hide Run;
    hide Feed;
    hide Climbs;
    hide Numbered;
    StartFollows(readSaved, writeSaved);
    RunFollows(Start(readSaved, writeSaved), es);
    var (k, past) := Run(Start(readSaved, writeSaved), es);
    AcceptedIff(k, past.splits, p, env);
  }

  // ---- the count of sealed packets ----

  /** Since the write key in use was put in place: packets sealed without being counted,
      counts lost to trials, and packets counted that could not be sealed. */
  datatype Ledger = Ledger(aside: nat, forgotten: nat, failed: nat)

  function Enter(k: Keys, l: Ledger, e: Event): Ledger {
    match e
    case Receive(p, env) =>
      if Feed(k, p, env).0.writeKey != k.writeKey then Ledger(0, 0, 0)
      else if Tries(k, p, env) then l.(forgotten := l.forgotten + k.aeadCount)
      else l
    case SendOne(sealsOk, _) => if sealsOk then l else l.(failed := l.failed + 1)
    case Aside(sealsOk) => if sealsOk then l.(aside := l.aside + 1) else l
  }

  function Account(k: Keys, es: seq<Event>): Ledger
    decreases |es|
  {
    if es == [] then Ledger(0, 0, 0)
    else
      var n := |es| - 1;
      Enter(Run(k, es[..n]).0, Account(k, es[..n]), es[n])
  }

  lemma StepCounts(k: Keys, lag: nat, l: Ledger, e: Event)
    requires Following(k, lag) && (e.Receive? ==> Honest(e.p))
    requires k.aeadCount + l.aside + l.forgotten == k.sealed + l.failed
    ensures var k', l' := Step(k, e), Enter(k, l, e);
            k'.aeadCount + l'.aside + l'.forgotten == k'.sealed + l'.failed
  {
    if e.Receive? {
      FeedCases(k, e.p, e.env);
      AcceptsNotTries(k, lag, e.p, e.env);
      var k0 := if HeaderOk(e.p) then k.(spin := e.p.spin) else k;
      SyncIdle(k0, e.p, e.env);
      SyncIdle(Install(k0, e.env), e.p, e.env);
      hide Feed;
      hide Tries;
      hide Sync;
    }
  }

  lemma AcceptsNotTries(k: Keys, lag: nat, p: Packet, env: Env)
    requires Following(k, lag)
    ensures Feed(k, p, env).1.Accepted? ==> (Tries(k, p, env) <==> p.gen != k.readKey)
  {
    hide Sync;
    hide Install;
  }

  /** The count kept against the AEAD limit, after any run: it differs from the packets sealed
      under the write key in use by exactly those sealed aside and the counts lost to trials,
      even for packets nobody sealed, less those that could not be sealed. So it is too small
      exactly if the former outnumber the latter. */
  lemma {:induction false} RunCounts(k: Keys, es: seq<Event>)
    requires Following(k, 0) && k.readKey == 0 && k.aeadCount == k.sealed && AllHonest(es)
    ensures var k', l := Run(k, es).0, Account(k, es);
            && k'.aeadCount + l.aside + l.forgotten == k'.sealed + l.failed
            && (k'.aeadCount < k'.sealed <==> l.failed < l.aside + l.forgotten)
    decreases |es|
  {
    hide Step;
    hide Enter;
    hide Note;
    if es != [] {
      var n := |es| - 1;
      RunCounts(k, es[..n]);
      RunFollows(k, es[..n]);
      var (k1, past) := Run(k, es[..n]);
      StepCounts(k1, past.splits, Account(k, es[..n]), es[n]);
    }
  }

  /** The warning stands exactly while the count is at the limit or above, in every run; no
      more packets are recorded than counted. */
  lemma {:induction false} WarnedIff(k: Keys, es: seq<Event>)
    requires (k.warned <==> k.aeadCount >= 1048576) && k.pktsSent <= k.aeadCount
    ensures var k' := Run(k, es).0; (k'.warned <==> k'.aeadCount >= 1048576) && k'.pktsSent <= k'.aeadCount
    decreases |es|
  {
    hide Note;
    hide Step;
    if es != [] {
      var n := |es| - 1;
      WarnedIff(k, es[..n]);
      StepWarns(Run(k, es[..n]).0, es[n]);
    }
  }

  lemma StepWarns(k: Keys, e: Event)
    requires (k.warned <==> k.aeadCount >= 1048576) && k.pktsSent <= k.aeadCount
    ensures var k' := Step(k, e); (k'.warned <==> k'.aeadCount >= 1048576) && k'.pktsSent <= k'.aeadCount
  {
    hide Opens;
    hide OpensAlternate;
    hide HeaderOk;
  }

  /** The packets recorded since the counters were last started anew, which every trial does. */
  function RecordedSince(k: Keys, es: seq<Event>): nat
    decreases |es|
  {
    if es == [] then 0
    else
      var n := |es| - 1;
      var before := RecordedSince(k, es[..n]);
      match es[n]
      case Receive(p, env) => if Tries(Run(k, es[..n]).0, p, env) then 0 else before
      case SendOne(sealsOk, recorded) => if sealsOk && recorded then before + 1 else before
      case Aside(_) => before
  }

  lemma {:induction false} RunRecords(k: Keys, es: seq<Event>)
    requires Following(k, 0) && k.readKey == 0 && k.pktsSent == 0 && AllHonest(es)
    ensures Run(k, es).0.pktsSent == RecordedSince(k, es)
    decreases |es|
  {
    hide Note;
    hide Feed;
    hide Tries;
    if es != [] {
      var n := |es| - 1;
      RunRecords(k, es[..n]);
      RunFollows(k, es[..n]);
      var (k1, past) := Run(k, es[..n]);
      if es[n].Receive? {
        FeedRecords(k1, past.splits, es[n].p, es[n].env);
      }
    }
  }

  lemma FeedRecords(k: Keys, lag: nat, p: Packet, env: Env)
    requires Following(k, lag) && Honest(p)
    ensures Feed(k, p, env).0.pktsSent == if Tries(k, p, env) then 0 else k.pktsSent
  {
    FeedCases(k, p, env);
    AcceptsNotTries(k, lag, p, env);
    var k0 := if HeaderOk(p) then k.(spin := p.spin) else k;
    SyncIdle(k0, p, env);
    SyncIdle(Install(k0, env), p, env);
    hide Feed;
    hide Tries;
    hide Sync;
  }

  /** Whatever the state: a packet that is accepted leaves its phase behind as the peer's, one
      that is not leaves the peer's phase alone, and a change of phase as well as a trial
      leaves the two phases equal. */
  lemma PhaseIsTaken(k: Keys, p: Packet, env: Env)
    ensures var (k', outcome) := Feed(k, p, env);
            && k'.peerPhase == (if outcome.Accepted? then p.phase else k.peerPhase)
            && (k'.peerPhase != k.peerPhase || Tries(k, p, env) || k.currentPhase == k.peerPhase ==>
                  k'.currentPhase == k'.peerPhase)
  {
    hide OpensAlternate;
    hide Opens;
    hide HeaderOk;
  }

  /** The spin bit is that of the last packet with its header in the clear; a packet whose
      header stays covered leaves its raw bit behind if it leads to a trial. */
  lemma SpinIsEchoed(k: Keys, p: Packet, env: Env)
    ensures HeaderOk(p) ==> Feed(k, p, env).0.spin == p.spin
    ensures !HeaderOk(p) ==> Feed(k, p, env).0.spin == if k.readSaved && env.okRead then p.rawSpin else k.spin
  {
    hide Candidates;
  }

  /** A packet of the first generation, well received. */
  predicate Plain(p: Packet, pn: nat) {
    HeaderOk(p) && p.dcidOk && p.longEnough && p.genuine && p.gen == 0 && p.phase == 0 && p.pn == p.decoded == pn
  }

  /** Packets 1 and 3 arrive and the gap is acknowledged at once: no trial, nothing failed,
      and still the packet sealed is not counted. */
  lemma GapAckIsUncounted(p: Packet, q: Packet, env: Env)
    requires Plain(p, 1) && Plain(q, 3)
    ensures A.Run(A.NEW, [A.Rx(1, true, false, true), A.Rx(3, true, false, true)]).sent == [A.Block(1, 1)]
    ensures var es := [Receive(p, env), Receive(q, env), Aside(true)];
            var (k, past) := Run(Start(true, true), es);
            && past.gens == [0, 0] && Account(Start(true, true), es) == Ledger(1, 0, 0)
            && k.aeadCount == 0 && k.sealed == 1
  {
    hide Feed;
    hide Tries;
    hide A.Run;
    hide HeaderOk;
    GapIsSentAtOnce();
    var k := Start(true, true);
    var k1 := k.(spin := p.spin);
    var e1, e2 := Receive(p, env), Receive(q, env);
    PlainIsAccepted(k, p, 1, env);
    PlainIsAccepted(k1, q, 3, env);
    assert Run(k, []) == (k, Past([], 0)) && Account(k, []) == Ledger(0, 0, 0);
    RunPush(k, [], e1);
    RunPush(k, [e1], e2);
    RunPush(k, [e1, e2], Aside(true));
    assert [] + [e1] == [e1] && [e1] + [e2] == [e1, e2] && [e1, e2] + [Aside(true)] == [e1, e2, Aside(true)];
    assert [] + [0] == [0] && [0] + [0] == [0, 0];
    hide Run;
    hide Account;
  }

  lemma GapIsSentAtOnce()
    ensures A.Run(A.NEW, [A.Rx(1, true, false, true), A.Rx(3, true, false, true)]).sent == [A.Block(1, 1)]
  {
    var rx := [A.Rx(1, true, false, true), A.Rx(3, true, false, true)];
    assert rx[..1] == [rx[0]] && rx[..1][..0] == [];
    assert A.Run(A.NEW, rx[..1]) == A.Begin(A.NEW.(largestRx := 1), 1);
  }

  lemma RunPush(k: Keys, es: seq<Event>, e: Event)
    ensures var (k1, past) := Run(k, es);
            && Run(k, es + [e]) == (Step(k1, e), Note(k1, past, e))
            && Account(k, es + [e]) == Enter(k1, Account(k, es), e)
  {
    assert (es + [e])[..|es|] == es;
  }

  lemma PlainIsAccepted(k: Keys, p: Packet, pn: nat, env: Env)
    requires Following(k, 0) && k.readKey == 0 && Plain(p, pn)
    ensures Feed(k, p, env) == (k.(spin := p.spin), Accepted(pn)) && !Tries(k, p, env)
  {
    SyncIdle(k.(spin := p.spin), p, env);
  }
}

module KeyUpdateRecord {
  import opened KeyUpdateSpec

  class AppKeys {
    var readKey: nat
    var writeKey: nat
    var readSecret: nat
    var writeSecret: nat
    var peerKeyPhase: Bit
    var currentKeyPhase: Bit
    var pktsSentWithKey: nat
    var aeadPktCount: nat
    var aeadLimitWarned: bool
    const appReadSecretSaved: bool
    const appWriteSecretSaved: bool
    var spinBit: Bit
    ghost var sealed: nat

    ghost function State(): Keys
      reads this
    {
      Keys(readKey, writeKey, readSecret, writeSecret, peerKeyPhase, currentKeyPhase,
           pktsSentWithKey, aeadPktCount, aeadLimitWarned, appReadSecretSaved, appWriteSecretSaved, spinBit, sealed)
    }

    constructor (readSaved: bool, writeSaved: bool)
      ensures State() == Start(readSaved, writeSaved)
    {
      appReadSecretSaved, appWriteSecretSaved, spinBit := readSaved, writeSaved, 0;
      readKey, writeKey, readSecret, writeSecret := 0, 0, 0, 0;
      peerKeyPhase, currentKeyPhase := 0, 0;
      pktsSentWithKey, aeadPktCount, aeadLimitWarned := 0, 0, false;
      sealed := 0;
    }

    /** The extra packet numbers, each tried once. */
    method TryAlternates(p: Packet) returns (ok: bool, pn: nat)
      requires !Opens(readKey, p, p.decoded)
      ensures ok <==> OpensAlternate(readKey, p)
      ensures ok ==> pn == p.pn
    {
      ok, pn := false, p.decoded;
      if p.pnLen != 1 || p.decoded < 256 {
        return;
      }
      var candidates := Candidates(p);
      var ci := 0;
      while ci < |candidates|
        invariant ci <= |candidates|
        invariant forall j :: 0 <= j < ci ==> !Opens(readKey, p, candidates[j])
      {
        if candidates[ci] != p.decoded && candidates[ci] !in candidates[..ci] {
          if Opens(readKey, p, candidates[ci]) {
            return true, candidates[ci];
          }
        }
        ci := ci + 1;
      }
    }

    method FeedShort(p: Packet, env: Env) returns (o: Outcome)
      modifies this
      ensures (State(), o) == Feed(old(State()), p, env)
    {
      hide Candidates;
      var keysOk, pn := false, p.decoded;
      if HeaderOk(p) {
        spinBit := p.spin;
        if !p.dcidOk || !p.longEnough {
          return Dropped;
        }
        if Opens(readKey, p, p.decoded) {
          keysOk := true;
        } else {
          keysOk, pn := TryAlternates(p);
        }
      }
      if !keysOk {
        pn := p.decoded;
        keysOk := TryNextKeys(p, env);
      }
      if !keysOk {
        return Dropped;
      }
      SyncPhase(p, env);
      return Accepted(pn);
    }

    /** Puts the next generation in place; keeps it if the packet opens. */
    method TryNextKeys(p: Packet, env: Env) returns (ok: bool)
      modifies this
      ensures var can := appReadSecretSaved && env.okRead;
              var t := old(State()).(spin := if HeaderOk(p) then p.spin else p.rawSpin);
              && (ok <==> can && Opens(old(readSecret) + 1, p, p.decoded))
              && State() == if ok then Install(t, env) else if can then RollBack(t) else old(State())
    {
      if !appReadSecretSaved {
        return false;
      }
      var oldRead, oldWrite := readKey, writeKey;
      var oldReadSecret, oldWriteSecret := readSecret, writeSecret;
      var oldPhase := peerKeyPhase;
      ghost var oldSealed := sealed;
      if !env.okRead {
        return false;
      }
      spinBit := if HeaderOk(p) then p.spin else p.rawSpin;
      InstallNext(env);
      if Opens(readKey, p, p.decoded) {
        return true;
      }
      PutBack(oldRead, oldWrite, oldReadSecret, oldWriteSecret, oldPhase, oldSealed);
      return false;
    }

    method InstallNext(env: Env)
      modifies this
      ensures State() == Install(old(State()), env)
    {
      readKey := readSecret + 1;
      readSecret := readSecret + 1;
      if appWriteSecretSaved && env.okWrite {
        writeKey := writeSecret + 1;
        writeSecret := writeSecret + 1;
        sealed := 0;
      }
      peerKeyPhase := 1 - peerKeyPhase;
      currentKeyPhase := peerKeyPhase;
      pktsSentWithKey := 0;
      aeadPktCount := 0;
      aeadLimitWarned := false;
    }

    method PutBack(oldRead: nat, oldWrite: nat, oldReadSecret: nat, oldWriteSecret: nat, oldPhase: Bit,
                   ghost oldSealed: nat)
      modifies this
      ensures State() == old(State()).(
                readKey := oldRead, writeKey := oldWrite, readSecret := oldReadSecret,
                writeSecret := if appWriteSecretSaved then oldWriteSecret else old(writeSecret),
                peerPhase := oldPhase, currentPhase := oldPhase, sealed := oldSealed)
    {
      readKey, writeKey := oldRead, oldWrite;
      readSecret := oldReadSecret;
      if appWriteSecretSaved {
        writeSecret := oldWriteSecret;
      }
      peerKeyPhase := oldPhase;
      currentKeyPhase := oldPhase;
      sealed := oldSealed;
    }

    method SyncPhase(p: Packet, env: Env)
      modifies this
      ensures State() == Sync(old(State()), p, env)
    {
      if p.phase != peerKeyPhase {
        if currentKeyPhase == peerKeyPhase && appWriteSecretSaved && env.okWrite {
          writeKey := writeSecret + 1;
          writeSecret := writeSecret + 1;
          sealed := 0;
        }
        peerKeyPhase := p.phase;
        currentKeyPhase := p.phase;
        pktsSentWithKey := 0;
        aeadPktCount := 0;
        aeadLimitWarned := false;
      }
    }

    /** send_quic_packet, as far as keys and counters go */
    method OnSend(sealsOk: bool, recorded: bool)
      modifies this
      ensures State() == Send(old(State()), sealsOk, recorded)
    {
      aeadPktCount := aeadPktCount + 1;
      if !aeadLimitWarned && aeadPktCount >= AEAD_LIMIT_WARN {
        aeadLimitWarned := true;
      }
      if !sealsOk {
        return;
      }
      sealed := sealed + 1;
      if recorded {
        pktsSentWithKey := pktsSentWithKey + 1;
      }
    }

    /** build_and_send_ack and the packet of CONNECTION_CLOSE */
    method OnSendAside(sealsOk: bool)
      modifies this
      ensures State() == SendAside(old(State()), sealsOk)
    {
      if !sealsOk {
        return;
      }
      sealed := sealed + 1;
    }
  }
}
