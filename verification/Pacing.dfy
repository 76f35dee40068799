/** The pacing token bucket. Balances are real numbers of bytes, times nanoseconds. */
module PacingSpec {

  const BURST_WINDOW_US: nat := 10000
  const MAX_BURST_CAP: nat := 65536
  const MIN_BURST: nat := 2400
  const INIT_BURST: nat := 2400
  const NS_PER_SEC: nat := 1000000000
  const MAX_WAIT_NS: nat := 1000000000000

  /** `rate` is in bytes per second, 0 when pacing is off; `last` is 0 while not anchored. */
  datatype Bucket = Bucket(rate: nat, tokens: real, last: nat, maxBurst: nat)

  function CalcBurst(rate: nat): (r: nat)
    ensures MIN_BURST <= r <= MAX_BURST_CAP
  {
    var burst := (rate as real * BURST_WINDOW_US as real / 1000000.0).Floor;
    if burst < MIN_BURST then MIN_BURST else if burst > MAX_BURST_CAP then MAX_BURST_CAP else burst
  }

  function Init(rate: nat, maxBurst: nat): Bucket {
    Bucket(rate, 0.0, 0,
           if maxBurst != 0 then maxBurst else if rate != 0 then CalcBurst(rate) else INIT_BURST)
  }

  function SetRate(b: Bucket, rate: nat): Bucket {
    if b.rate == rate then b
    else if rate == 0 then Bucket(0, 0.0, 0, INIT_BURST)
    else
      var burst := CalcBurst(rate);
      Bucket(rate, if b.tokens > burst as real then burst as real else b.tokens, 0, burst)
  }

  function Earned(rate: nat, from: nat, to: nat): real
    requires from <= to
  {
    rate as real * (to - from) as real / NS_PER_SEC as real
  }

  function Refill(b: Bucket, now: nat): Bucket {
    if b.rate == 0 then b
    else if b.last == 0 then b.(last := now)
    else if now <= b.last then b
    else
      var tokens := b.tokens + Earned(b.rate, b.last, now);
      b.(tokens := if tokens > b.maxBurst as real then b.maxBurst as real else tokens, last := now)
  }

  function Acquire(b: Bucket, bytes: nat, now: nat): (Bucket, bool) {
    if b.rate == 0 then (b, true)
    else
      var b1 := Refill(b, now);
      if b1.tokens >= bytes as real then (b1.(tokens := b1.tokens - bytes as real), true) else (b1, false)
  }

  /** The balance as it would stand at `now`. */
  function Avail(b: Bucket, now: nat): real {
    var avail := if b.last != 0 && now > b.last then b.tokens + Earned(b.rate, b.last, now) else b.tokens;
    if avail > b.maxBurst as real then b.maxBurst as real else avail
  }

  /** The exact time to wait, before it is cut to whole nanoseconds. */
  function WaitReal(b: Bucket, bytes: nat, now: nat): real
    requires b.rate != 0
  {
    (bytes as real - Avail(b, now)) / b.rate as real * NS_PER_SEC as real
  }

  function WaitNs(b: Bucket, bytes: nat, now: nat): nat {
    if b.rate == 0 || Avail(b, now) >= bytes as real then 0
    else
      var wait := WaitReal(b, bytes, now);
      if wait <= 0.0 then 0
      else if wait > MAX_WAIT_NS as real then MAX_WAIT_NS
      else wait.Floor
  }

  // ------------------------------------------------------------------
  // Runs
  // ------------------------------------------------------------------

  datatype Op = DoSetRate(rate: nat, at: nat) | DoRefill(at: nat) | DoAcquire(bytes: nat, at: nat)

  /** The next bucket, and the bytes let through by pacing (not past it, at rate 0). */
  function Step(b: Bucket, op: Op): (Bucket, nat) {
    match op
    case DoSetRate(rate, _) => (SetRate(b, rate), 0)
    case DoRefill(at) => (Refill(b, at), 0)
    case DoAcquire(bytes, at) =>
      var (b', ok) := Acquire(b, bytes, at);
      (b', if ok && b.rate != 0 then bytes else 0)
  }

  function Run(b: Bucket, ops: seq<Op>): (Bucket, nat)
    decreases |ops|
  {
    if ops == [] then (b, 0)
    else
      var (b1, n) := Step(b, ops[0]);
      var (b2, m) := Run(b1, ops[1..]);
      (b2, n + m)
  }

  /** A clock that never goes back. */
  predicate Monotone(t: nat, ops: seq<Op>)
    decreases |ops|
  {
    ops == [] || (t <= ops[0].at && Monotone(ops[0].at, ops[1..]))
  }

  /** Rate times time, summed over the stretches of a run: known from the operations alone. */
  function Allowance(rate: nat, t: nat, ops: seq<Op>): real
    requires Monotone(t, ops)
    decreases |ops|
  {
    if ops == [] then 0.0
    else Earned(rate, t, ops[0].at) + Allowance(if ops[0].DoSetRate? then ops[0].rate else rate, ops[0].at, ops[1..])
  }

  /** The balance is never negative and never above the burst. */
  predicate Kept(b: Bucket) {
    0.0 <= b.tokens <= b.maxBurst as real
  }

  /** The burst is what ten milliseconds of the rate bring, within its limits. */
  lemma BurstIs(rate: nat)
    ensures CalcBurst(rate) == if rate / 100 < 2400 then 2400 else if rate / 100 > 65536 then 65536 else rate / 100
  {
    var exact := rate as real * 10000.0 / 1000000.0;
    assert exact == rate as real / 100.0;
    Hundredth(rate);
  }

  lemma Hundredth(rate: nat)
    ensures (rate as real / 100.0).Floor == rate / 100
  {
    var q, r := rate / 100, rate % 100;
    assert rate as real == 100.0 * q as real + r as real;
    assert rate as real / 100.0 == q as real + r as real / 100.0;
  }

  /** A new rate sets the burst, keeps the balance as far as that goes, and drops the anchor;
      rate 0 empties the bucket; the same rate changes nothing. */
  lemma NewRate(b: Bucket, rate: nat)
    ensures var b' := SetRate(b, rate);
            if rate == b.rate then b' == b
            else
              && b'.rate == rate && b'.last == 0
              && b'.maxBurst == (if rate == 0 then 2400 else CalcBurst(rate))
              && b'.tokens == if rate == 0 then 0.0 else if b.tokens <= b'.maxBurst as real then b.tokens else b'.maxBurst as real
  {
  }

  /** A new bucket is empty and not anchored; its burst is the one asked for, else that of
      the rate, else the initial one. */
  lemma NewBucket(rate: nat, maxBurst: nat)
    ensures var b := Init(rate, maxBurst);
            && b.rate == rate && b.tokens == 0.0 && b.last == 0
            && b.maxBurst == (if maxBurst > 0 then maxBurst else if rate == 0 then 2400 else CalcBurst(rate))
  {
  }

  lemma RefillIsAvail(b: Bucket, now: nat)
    requires Kept(b) && b.rate != 0 && b.last <= now && 0 < now
    ensures var b' := Refill(b, now); b' == b.(tokens := Avail(b, now), last := now) && Kept(b')
    ensures Avail(Refill(b, now), now) == Avail(b, now)
  {
  }

  /** An acquisition succeeds exactly when the balance at that moment covers it, and takes
      exactly that much from it. */
  lemma AcquireIffAvail(b: Bucket, bytes: nat, now: nat)
    requires Kept(b) && b.rate != 0 && b.last <= now && 0 < now
    ensures var (b', ok) := Acquire(b, bytes, now);
            && (ok <==> Avail(b, now) >= bytes as real)
            && Avail(b', now) == Avail(b, now) - (if ok then bytes as real else 0.0)
            && b' == b.(tokens := Avail(b', now), last := now) && Kept(b')
  {
  }

  /** A second earns the rate in bytes, and spans of time add up. */
  lemma SecondsEarn(rate: nat, from: nat, mid: nat, to: nat)
    requires from <= mid <= to
    ensures Earned(rate, from, from + 1_000_000_000) == rate as real
    ensures Earned(rate, from, mid) + Earned(rate, mid, to) == Earned(rate, from, to)
  {
    var r, x, y := rate as real, (mid - from) as real, (to - mid) as real;
    assert (to - from) as real == x + y && r * (x + y) == r * x + r * y;
  }

  lemma AvailGrows(b: Bucket, t: nat, now: nat)
    requires Kept(b) && b.last <= t <= now
    ensures Avail(b, now) <= Avail(b, t) + Earned(b.rate, t, now)
    ensures 0.0 <= Avail(b, t) <= b.maxBurst as real
    ensures Avail(b, t) <= Avail(b, now)
  {
  }

  /** One operation lets through no more than what it takes from the balance. */
  lemma StepPays(b: Bucket, t: nat, op: Op)
    requires Kept(b) && b.last <= t <= op.at && 0 < t
    ensures var (b', n) := Step(b, op);
            && Kept(b') && b'.last <= op.at
            && b'.rate == (if op.DoSetRate? then op.rate else b.rate)
            && Avail(b', op.at) + n as real <= Avail(b, t) + Earned(b.rate, t, op.at)
  {
    hide Earned;
    hide Refill;
    hide CalcBurst;
    AvailGrows(b, t, op.at);
    if b.rate != 0 {
      RefillIsAvail(b, op.at);
    }
    match op
    case DoSetRate(_, _) => AvailIsAtLeastTokens(b, t);
    case DoRefill(at) => if b.rate == 0 { RefillAtZero(b, at); }
    case DoAcquire(bytes, at) => if b.rate != 0 { AcquireIffAvail(b, bytes, at); }
  }

  lemma RefillAtZero(b: Bucket, now: nat)
    requires b.rate == 0
    ensures Refill(b, now) == b
  {
  }

  lemma AvailIsAtLeastTokens(b: Bucket, t: nat)
    requires Kept(b)
    ensures Avail(b, t) >= b.tokens
  {
  }

  /** Over any run, whatever is asked for and whenever rates change: the bytes let through
      are at most the balance at the start plus rate times time over each stretch. */
  lemma {:induction false} RunIsPaced(b: Bucket, t: nat, ops: seq<Op>)
    requires Kept(b) && b.last <= t && 0 < t && Monotone(t, ops)
    ensures Kept(Run(b, ops).0)
    ensures Run(b, ops).1 as real <= Avail(b, t) + Allowance(b.rate, t, ops)
    decreases |ops|
  {
    hide Earned;
    hide Step;
    hide Avail;
    AvailGrows(b, t, t);
    if ops != [] {
      StepPays(b, t, ops[0]);
      RunIsPaced(Step(b, ops[0]).0, ops[0].at, ops[1..]);
    }
  }

  lemma {:induction false} RunSplits(b: Bucket, first: seq<Op>, after: seq<Op>)
    ensures var (b1, n) := Run(b, first);
            var (b2, m) := Run(b1, after);
            Run(b, first + after) == (b2, n + m)
    decreases |first|
  {
    hide Step;
    if first == [] {
      assert first + after == after;
    } else {
      RunSplits(Step(b, first[0]).0, first[1..], after);
      assert (first + after)[0] == first[0] && (first + after)[1..] == first[1..] + after;
    }
  }

  function LastAt(t: nat, ops: seq<Op>): nat {
    if ops == [] then t else ops[|ops| - 1].at
  }

  lemma {:induction false} RunKeeps(b: Bucket, t: nat, ops: seq<Op>)
    requires Kept(b) && b.last <= t && 0 < t && Monotone(t, ops)
    ensures var b' := Run(b, ops).0; Kept(b') && b'.last <= LastAt(t, ops) && 0 < LastAt(t, ops)
    decreases |ops|
  {
    hide Earned;
    hide Step;
    hide Avail;
    if ops != [] {
      StepPays(b, t, ops[0]);
      RunKeeps(Step(b, ops[0]).0, ops[0].at, ops[1..]);
      assert LastAt(t, ops) == LastAt(ops[0].at, ops[1..]);
    }
  }

  /** Between any two points of a run that starts with a new bucket: the balance at the
      first of them bounds what is let through up to the second. */
  lemma BetweenTwoPoints(rate: nat, maxBurst: nat, t: nat, before: seq<Op>, between: seq<Op>)
    requires 0 < t && Monotone(t, before) && Monotone(LastAt(t, before), between)
    ensures var b := Run(Init(rate, maxBurst), before).0;
            var t1 := LastAt(t, before);
            && Kept(b)
            && (Run(Init(rate, maxBurst), before + between).1 - Run(Init(rate, maxBurst), before).1) as real
                 <= Avail(b, t1) + Allowance(b.rate, t1, between)
            && Avail(b, t1) <= b.maxBurst as real
            && (b.last == t1 || b.last == 0 ==> Avail(b, t1) == b.tokens)
  {
    hide Allowance;
    var b0 := Init(rate, maxBurst);
    RunKeeps(b0, t, before);
    var b := Run(b0, before).0;
    RunSplits(b0, before, between);
    RunIsPaced(b, LastAt(t, before), between);
  }

  // ------------------------------------------------------------------
  // Waiting
  // ------------------------------------------------------------------

  /** How the balance of an anchored bucket grows, as long as the burst does not cut it. */
  lemma AvailAfter(b: Bucket, now: nat, k: nat)
    requires Kept(b) && b.rate != 0 && 0 < b.last <= now && Avail(b, now) < b.maxBurst as real
    ensures var grown := Avail(b, now) + Earned(b.rate, now, now + k);
            Avail(b, now + k) == if grown > b.maxBurst as real then b.maxBurst as real else grown
  {
  }

  /** Earning `need` takes exactly need / rate seconds. */
  lemma EarnedReaches(rate: nat, now: nat, k: nat, need: real)
    requires rate != 0
    ensures Earned(rate, now, now + k) >= need <==> k as real >= need / rate as real * NS_PER_SEC as real
  {
  }

  predicate Succeeds(b: Bucket, bytes: nat, now: nat) {
    Acquire(b, bytes, now).1
  }

  /** With nothing sent in between, an acquisition fails at every moment before now + w. */
  lemma NotBeforeTheWait(b: Bucket, bytes: nat, now: nat, k: nat)
    requires Kept(b) && b.rate != 0 && b.last <= now && 0 < now
    requires k < WaitNs(b, bytes, now)
    ensures !Succeeds(b, bytes, now + k)
  {
    hide Earned;
    AcquireIffAvail(b, bytes, now + k);
    if b.last != 0 && bytes <= b.maxBurst {
      AvailAfter(b, now, k);
      EarnedReaches(b.rate, now, k, bytes as real - Avail(b, now));
    } else {
      AvailGrows(b, now, now + k);
    }
  }

  /** One nanosecond after the wait it succeeds: exactly when the balance already covers it,
      or the bucket is anchored, can hold that much, and the cap did not cut the wait short. */
  lemma TightIff(b: Bucket, bytes: nat, now: nat)
    requires Kept(b) && b.rate != 0 && b.last <= now && 0 < now
    ensures Succeeds(b, bytes, now + WaitNs(b, bytes, now) + 1) <==>
              || bytes as real <= Avail(b, now)
              || (b.last != 0 && bytes <= b.maxBurst && WaitReal(b, bytes, now) <= (MAX_WAIT_NS + 1) as real)
  {
    hide Earned;
    var w := WaitNs(b, bytes, now);
    AcquireIffAvail(b, bytes, now + w + 1);
    AvailGrows(b, now, now + w + 1);
    if bytes as real > Avail(b, now) && b.last != 0 && bytes <= b.maxBurst {
      AvailAfter(b, now, w + 1);
      EarnedReaches(b.rate, now, w + 1, bytes as real - Avail(b, now));
      WaitIsPositive(b, bytes, now);
    }
  }

  lemma WaitIsPositive(b: Bucket, bytes: nat, now: nat)
    requires b.rate != 0 && bytes as real > Avail(b, now)
    ensures WaitReal(b, bytes, now) > 0.0
  {
  }

  /** A wait that is below the cap is tight to one nanosecond. */
  lemma WaitIsTight(b: Bucket, bytes: nat, now: nat, k: nat)
    requires Kept(b) && b.rate != 0 && 0 < b.last <= now && bytes <= b.maxBurst
    requires WaitNs(b, bytes, now) < MAX_WAIT_NS
    ensures k < WaitNs(b, bytes, now) ==> !Succeeds(b, bytes, now + k)
    ensures k > WaitNs(b, bytes, now) ==> Succeeds(b, bytes, now + k)
  {
    hide Earned;
    var w := WaitNs(b, bytes, now);
    if k < w {
      NotBeforeTheWait(b, bytes, now, k);
    } else if k > w {
      TightIff(b, bytes, now);
      AcquireIffAvail(b, bytes, now + w + 1);
      AvailGrows(b, now + w + 1, now + k);
      AcquireIffAvail(b, bytes, now + k);
    }
  }
}

module PacingRecord {
  import opened PacingSpec

  class PacingSend {
    var rateBps: nat
    var tokens: real
    var lastRefillNs: nat
    var maxBurst: nat

    ghost function State(): Bucket
      reads this
    {
      Bucket(rateBps, tokens, lastRefillNs, maxBurst)
    }

    constructor (rateBps: nat, maxBurstBytes: nat)
      ensures State() == Init(rateBps, maxBurstBytes)
    {
      this.rateBps := rateBps;
      tokens := 0.0;
      lastRefillNs := 0;
      maxBurst := if maxBurstBytes != 0 then maxBurstBytes
                  else if rateBps != 0 then CalcBurst(rateBps) else INIT_BURST;
    }

    method SetRate(rate: nat)
      modifies this
      ensures State() == PacingSpec.SetRate(old(State()), rate)
    {
      if rateBps == rate {
        return;
      }
      rateBps := rate;
      lastRefillNs := 0;
      if rate == 0 {
        tokens := 0.0;
        maxBurst := INIT_BURST;
      } else {
        maxBurst := CalcBurst(rate);
        if tokens > maxBurst as real {
          tokens := maxBurst as real;
        }
      }
    }

    method Refill(nowNs: nat)
      modifies this
      ensures State() == PacingSpec.Refill(old(State()), nowNs)
    {
      if rateBps == 0 {
        return;
      }
      if lastRefillNs == 0 {
        lastRefillNs := nowNs;
        return;
      }
      if nowNs <= lastRefillNs {
        return;
      }
      var deltaNs := nowNs - lastRefillNs;
      tokens := tokens + rateBps as real * deltaNs as real / NS_PER_SEC as real;
      if tokens > maxBurst as real {
        tokens := maxBurst as real;
      }
      lastRefillNs := nowNs;
    }

    method Acquire(bytes: nat, nowNs: nat) returns (ok: bool)
      modifies this
      ensures (State(), ok) == PacingSpec.Acquire(old(State()), bytes, nowNs)
    {
      if rateBps == 0 {
        return true;
      }
      Refill(nowNs);
      if tokens >= bytes as real {
        tokens := tokens - bytes as real;
        return true;
      }
      return false;
    }

    method Wait(bytes: nat, nowNs: nat) returns (w: nat)
      ensures w == WaitNs(State(), bytes, nowNs)
    {
      if rateBps == 0 {
        return 0;
      }
      var avail := tokens;
      if lastRefillNs != 0 && nowNs > lastRefillNs {
        avail := avail + rateBps as real * (nowNs - lastRefillNs) as real / NS_PER_SEC as real;
      }
      if avail > maxBurst as real {
        avail := maxBurst as real;
      }
      if avail >= bytes as real {
        return 0;
      }
      var need := bytes as real - avail;
      var wait := need / rateBps as real * NS_PER_SEC as real;
      if wait <= 0.0 {
        return 0;
      }
      if wait > MAX_WAIT_NS as real {
        return MAX_WAIT_NS;
      }
      return wait.Floor;
    }
  }
}
