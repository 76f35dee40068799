/** The timer wheel as a sorted sequence: what starting, stopping and one tick do to it.
    `T` is the identity of a timer; callbacks and users are numbers. */
module TimerSpec {

  /** QUIC_TIMER_MAX_FIRE, QUIC_TIMER_MAX_DEFER */
  const MAX_FIRE: nat := 1024
  const MAX_DEFER: nat := 64

  /** An active timer; `stamp` says how many links happened before its own. */
  datatype Entry<T> = Entry(t: T, due: nat, repeat: nat, cb: nat, user: nat, stamp: nat)

  datatype Fire = Fire(cb: nat, user: nat)

  /** What the world sees: callbacks called and objects freed. */
  datatype Event = Called(cb: nat, user: nat) | Freed(user: nat)

  datatype Wheel<T> = Wheel(
    entries: seq<Entry<T>>, links: nat,
    dispatching: bool, deferred: seq<nat>, log: seq<Event>)

  // ---- the list ----

  function IndexOf<T(==)>(es: seq<Entry<T>>, t: T): (i: nat)
    ensures i <= |es|
    ensures i < |es| ==> es[i].t == t
    ensures forall j :: 0 <= j < i ==> es[j].t != t
    decreases |es|
  {
    if es == [] || es[0].t == t then 0 else 1 + IndexOf(es[1..], t)
  }

  function Without<T(==)>(es: seq<Entry<T>>, t: T): seq<Entry<T>> {
    var i := IndexOf(es, t);
    if i == |es| then es else es[..i] + es[i + 1..]
  }

  /** Behind every entry due no later. */
  function Position<T>(es: seq<Entry<T>>, due: nat): (p: nat)
    ensures p <= |es|
    ensures forall j :: 0 <= j < p ==> es[j].due <= due
    ensures p < |es| ==> es[p].due > due
    decreases |es|
  {
    if es == [] || es[0].due > due then 0 else 1 + Position(es[1..], due)
  }

  function Insert<T>(es: seq<Entry<T>>, e: Entry<T>): seq<Entry<T>> {
    var p := Position(es, e.due);
    es[..p] + [e] + es[p..]
  }

  /** By due time, and by the order of starting where that is the same. */
  predicate Before<T>(a: Entry<T>, b: Entry<T>) {
    a.due < b.due || (a.due == b.due && a.stamp < b.stamp)
  }

  predicate Sorted<T>(es: seq<Entry<T>>) {
    forall i, j :: 0 <= i < j < |es| ==> Before(es[i], es[j])
  }

  predicate Distinct<T(==)>(es: seq<Entry<T>>) {
    forall i, j :: 0 <= i < j < |es| ==> es[i].t != es[j].t
  }

  predicate Stamped<T>(es: seq<Entry<T>>, links: nat) {
    forall i :: 0 <= i < |es| ==> es[i].stamp < links
  }

  predicate Good<T(==)>(w: Wheel<T>) {
    Sorted(w.entries) && Distinct(w.entries) && Stamped(w.entries, w.links)
  }

  /** `es'` is `es` with the entry at `p` taken out. */
  ghost predicate TakenOut<T>(es: seq<Entry<T>>, p: nat, es': seq<Entry<T>>) {
    && p < |es| && |es'| == |es| - 1
    && forall i {:trigger es'[i]} :: 0 <= i < |es'| ==> es'[i] == if i < p then es[i] else es[i + 1]
  }

  lemma DropOne<T>(es: seq<Entry<T>>, k: nat)
    requires k < |es|
    ensures TakenOut(es, k, es[..k] + es[k + 1..])
  {
  }

  lemma WithoutTakesOut<T>(es: seq<Entry<T>>, t: T)
    ensures var k := IndexOf(es, t);
            if k == |es| then Without(es, t) == es else TakenOut(es, k, Without(es, t))
  {
    hide IndexOf;
    var k := IndexOf(es, t);
    if k < |es| {
      DropOne(es, k);
    }
  }

  lemma TakenOutGood<T>(es: seq<Entry<T>>, p: nat, es': seq<Entry<T>>, links: nat)
    requires TakenOut(es, p, es') && Sorted(es) && Distinct(es) && Stamped(es, links)
    ensures Sorted(es') && Distinct(es') && Stamped(es', links)
    ensures forall i :: 0 <= i < |es'| ==> es'[i].t != es[p].t
  {
  }

  lemma WithoutGood<T>(es: seq<Entry<T>>, t: T, links: nat)
    requires Sorted(es) && Distinct(es) && Stamped(es, links)
    ensures var es' := Without(es, t);
            && Sorted(es') && Distinct(es') && Stamped(es', links)
            && (forall i :: 0 <= i < |es'| ==> es'[i].t != t)
  {
    hide Without;
    WithoutTakesOut(es, t);
    var k := IndexOf(es, t);
    if k < |es| {
      hide Sorted;
      hide Distinct;
      hide Stamped;
      TakenOutGood(es, k, Without(es, t), links);
    }
  }

  /** The other timers stay. */
  lemma WithoutMembers<T>(es: seq<Entry<T>>, t: T, x: Entry<T>)
    requires Distinct(es)
    ensures x in Without(es, t) <==> x in es && x.t != t
  {
  }

  /** `es'` is `es` with `e` put in at `p`. */
  ghost predicate PutIn<T>(es: seq<Entry<T>>, e: Entry<T>, p: nat, es': seq<Entry<T>>) {
    && p <= |es| && |es'| == |es| + 1
    && forall i {:trigger es'[i]} :: 0 <= i < |es'| ==> es'[i] == if i < p then es[i] else if i == p then e else es[i - 1]
  }

  lemma InsertPutsIn<T>(es: seq<Entry<T>>, e: Entry<T>)
    ensures PutIn(es, e, Position(es, e.due), Insert(es, e))
  {
  }

  lemma PutInSorted<T>(es: seq<Entry<T>>, e: Entry<T>, es': seq<Entry<T>>)
    requires PutIn(es, e, Position(es, e.due), es') && Sorted(es) && Stamped(es, e.stamp)
    ensures Sorted(es') && Stamped(es', e.stamp + 1)
  {
  }

  lemma PutInDistinct<T>(es: seq<Entry<T>>, e: Entry<T>, p: nat, es': seq<Entry<T>>)
    requires PutIn(es, e, p, es') && Distinct(es) && forall i :: 0 <= i < |es| ==> es[i].t != e.t
    ensures Distinct(es')
  {
  }

  lemma InsertMembers<T>(es: seq<Entry<T>>, e: Entry<T>, x: Entry<T>)
    ensures x in Insert(es, e) <==> x == e || x in es
  {
  }

  lemma InsertGood<T>(es: seq<Entry<T>>, e: Entry<T>)
    requires Sorted(es) && Distinct(es) && Stamped(es, e.stamp)
    requires forall i :: 0 <= i < |es| ==> es[i].t != e.t
    ensures Sorted(Insert(es, e)) && Distinct(Insert(es, e)) && Stamped(Insert(es, e), e.stamp + 1)
  {
    InsertPutsIn(es, e);
    PutInSorted(es, e, Insert(es, e));
    PutInDistinct(es, e, Position(es, e.due), Insert(es, e));
  }

  /** Sortedness leaves no choice: two sorted sequences with the same entries are the
      same sequence. */
  lemma {:induction false} SortedIsUnique<T>(a: seq<Entry<T>>, b: seq<Entry<T>>)
    requires Sorted(a) && Sorted(b)
    requires forall e :: e in a <==> e in b
    ensures a == b
    decreases |a|
  {
    assert |a| > 0 ==> a[0] in b;
    assert |b| > 0 ==> b[0] in a;
    if a != [] {
      SameLeast(a, b);
      forall e
        ensures e in a[1..] <==> e in b[1..]
      {
        if e in a[1..] { TailMember(a, b, e); }
        if e in b[1..] { TailMember(b, a, e); }
      }
      SortedIsUnique(a[1..], b[1..]);
    }
  }

  lemma SameLeast<T>(a: seq<Entry<T>>, b: seq<Entry<T>>)
    requires Sorted(a) && Sorted(b) && a != [] && b != []
    requires a[0] in b && b[0] in a
    ensures a[0] == b[0]
  {
  }

  lemma FirstIsLeast<T>(a: seq<Entry<T>>, i: nat)
    requires Sorted(a) && i < |a|
    ensures i == 0 || Before(a[0], a[i])
  {
  }

  lemma TailMember<T>(a: seq<Entry<T>>, b: seq<Entry<T>>, e: Entry<T>)
    requires Sorted(a) && a != [] && b != [] && a[0] == b[0]
    requires forall x :: x in a ==> x in b
    requires e in a[1..]
    ensures e in b[1..]
  {
    var i :| 1 <= i < |a| && a[i] == e;
    FirstIsLeast(a, i);
    assert a[i] in b;
    assert b == [b[0]] + b[1..];
  }

  // ---- operations ----

  function Start<T(==)>(w: Wheel<T>, t: T, cb: nat, user: nat, due: nat, repeat: nat): Wheel<T> {
    w.(entries := Insert(Without(w.entries, t), Entry(t, due, repeat, cb, user, w.links)), links := w.links + 1)
  }

  function Stop<T(==)>(w: Wheel<T>, t: T): Wheel<T> {
    w.(entries := Without(w.entries, t))
  }

  /** quic_timer_defer_free: queued while callbacks run and there is room. */
  function DeferFree<T>(w: Wheel<T>, user: nat): Wheel<T> {
    if w.dispatching && |w.deferred| < MAX_DEFER then w.(deferred := w.deferred + [user])
    else w.(log := w.log + [Freed(user)])
  }

  /** What callbacks can do to the wheel. */
  datatype Action<T> =
    | StartIt(t: T, cb: nat, user: nat, timeout: nat, repeat: nat)
    | StopIt(s: T)
    | Free(freed: nat)

  function Act<T(==)>(w: Wheel<T>, a: Action<T>, now: nat): Wheel<T> {
    match a
    case StartIt(t, cb, user, timeout, repeat) => Start(w, t, cb, user, now + timeout, repeat)
    case StopIt(t) => Stop(w, t)
    case Free(user) => DeferFree(w, user)
  }

  function ActAll<T(==)>(w: Wheel<T>, script: seq<Action<T>>, now: nat): Wheel<T>
    decreases |script|
  {
    if script == [] then w
    else Act(ActAll(w, script[..|script| - 1], now), script[|script| - 1], now)
  }

  // ---- one tick ----

  /** Whether the head is taken as the `n`-th of the batch. */
  predicate Takes<T>(w: Wheel<T>, now: nat, n: nat) {
    w.entries != [] && w.entries[0].due <= now && n < MAX_FIRE
  }

  /** The head leaves the list, and comes back at now + repeat if it repeats. */
  function TakeHead<T>(w: Wheel<T>, now: nat): Wheel<T>
    requires w.entries != []
  {
    var e := w.entries[0];
    var w' := w.(entries := w.entries[1..]);
    if e.repeat > 0 then
      w'.(entries := Insert(w'.entries, e.(due := now + e.repeat, stamp := w.links)), links := w.links + 1)
    else w'
  }

  function Collect<T>(w: Wheel<T>, now: nat, fire: seq<Fire>): (r: (Wheel<T>, seq<Fire>))
    decreases MAX_FIRE - |fire|
  {
    if Takes(w, now, |fire|) then
      Collect(TakeHead(w, now), now, fire + [Fire(w.entries[0].cb, w.entries[0].user)])
    else (w, fire)
  }

  /** The callbacks of the batch, each followed by whatever it does. */
  function Dispatch<T(==)>(w: Wheel<T>, fire: seq<Fire>, scripts: nat -> seq<Action<T>>, now: nat): Wheel<T>
    decreases |fire|
  {
    if fire == [] then w
    else
      var n := |fire| - 1;
      var w1 := Dispatch(w, fire[..n], scripts, now);
      ActAll(w1.(log := w1.log + [Called(fire[n].cb, fire[n].user)]), scripts(n), now)
  }

  function Frees(users: seq<nat>): seq<Event> {
    seq(|users|, i requires 0 <= i < |users| => Freed(users[i]))
  }

  function Calls(fire: seq<Fire>): seq<Event> {
    seq(|fire|, i requires 0 <= i < |fire| => Called(fire[i].cb, fire[i].user))
  }

  /** run_deferred_frees, after the callbacks */
  function RunDeferred<T>(w: Wheel<T>): Wheel<T> {
    w.(log := w.log + Frees(w.deferred), deferred := [])
  }

  /** on_wheel */
  function Tick<T(==)>(w: Wheel<T>, scripts: nat -> seq<Action<T>>, now: nat): Wheel<T> {
    if w.entries == [] then w
    else
      var (w1, fire) := Collect(w.(dispatching := true), now, []);
      RunDeferred(Dispatch(w1, fire, scripts, now).(dispatching := false))
  }

  // ------------------------------------------------------------------
  // What the operations keep
  // ------------------------------------------------------------------

  lemma StartGood<T>(w: Wheel<T>, t: T, cb: nat, user: nat, due: nat, repeat: nat)
    requires Good(w)
    ensures Good(Start(w, t, cb, user, due, repeat))
  {
    WithoutGood(w.entries, t, w.links);
    InsertGood(Without(w.entries, t), Entry(t, due, repeat, cb, user, w.links));
  }

  /** Starting and stopping touch one timer: the entries afterwards are the others as they
      were and, after a start, the new one. With `SortedIsUnique` that fixes the list. */
  lemma StartMembers<T>(w: Wheel<T>, t: T, cb: nat, user: nat, due: nat, repeat: nat, x: Entry<T>)
    requires Good(w)
    ensures x in Start(w, t, cb, user, due, repeat).entries <==>
              x == Entry(t, due, repeat, cb, user, w.links) || (x in w.entries && x.t != t)
    ensures x in Stop(w, t).entries <==> x in w.entries && x.t != t
  {
    hide Insert;
    hide Without;
    WithoutMembers(w.entries, t, x);
    InsertMembers(Without(w.entries, t), Entry(t, due, repeat, cb, user, w.links), x);
  }

  lemma ActGood<T>(w: Wheel<T>, a: Action<T>, now: nat)
    requires Good(w)
    ensures Good(Act(w, a, now)) && Act(w, a, now).dispatching == w.dispatching
  {
    hide Insert;
    hide Without;
    match a
    case StartIt(t, cb, user, timeout, repeat) => StartGood(w, t, cb, user, now + timeout, repeat);
    case StopIt(t) => WithoutGood(w.entries, t, w.links);
    case Free(_) =>
  }

  lemma {:induction false} ActAllGood<T>(w: Wheel<T>, script: seq<Action<T>>, now: nat)
    requires Good(w)
    ensures Good(ActAll(w, script, now)) && ActAll(w, script, now).dispatching == w.dispatching
    decreases |script|
  {
    hide Good;
    hide Act;
    if script != [] {
      ActAllGood(w, script[..|script| - 1], now);
      ActGood(ActAll(w, script[..|script| - 1], now), script[|script| - 1], now);
    }
  }

  lemma TakeHeadGood<T>(w: Wheel<T>, now: nat)
    requires Good(w) && w.entries != []
    ensures Good(TakeHead(w, now))
  {
    hide Insert;
    var e := w.entries[0];
    if e.repeat > 0 {
      InsertGood(w.entries[1..], e.(due := now + e.repeat, stamp := w.links));
    }
  }

  // ------------------------------------------------------------------
  // What a tick does
  // ------------------------------------------------------------------

  /** Size of the batch: the entries due, as many as there is room for. */
  function Batch<T>(es: seq<Entry<T>>, now: nat, room: nat): (k: nat)
    ensures k <= |es| && k <= room
  {
    if Position(es, now) <= room then Position(es, now) else room
  }

  /** In a sorted list the entries due are exactly those of the front. */
  lemma DueAreInFront<T>(es: seq<Entry<T>>, now: nat, i: nat)
    requires Sorted(es) && i < |es|
    ensures es[i].due <= now <==> i < Position(es, now)
  {
  }

  function FiresOf<T>(es: seq<Entry<T>>): seq<Fire> {
    seq(|es|, i requires 0 <= i < |es| => Fire(es[i].cb, es[i].user))
  }

  function Renewed<T>(e: Entry<T>, links: nat, now: nat): Entry<T> {
    e.(due := now + e.repeat, stamp := links)
  }

  /** The repeating ones among these, as they are linked again. */
  function Again<T>(taken: seq<Entry<T>>, links: nat, now: nat): seq<Entry<T>>
    decreases |taken|
  {
    if taken == [] then []
    else if taken[0].repeat > 0 then [Renewed(taken[0], links, now)] + Again(taken[1..], links + 1, now)
    else Again(taken[1..], links, now)
  }

  function InsertAll<T>(es: seq<Entry<T>>, more: seq<Entry<T>>): seq<Entry<T>>
    decreases |more|
  {
    if more == [] then es else InsertAll(Insert(es, more[0]), more[1..])
  }

  lemma {:induction false} InsertAllMembers<T>(es: seq<Entry<T>>, more: seq<Entry<T>>, x: Entry<T>)
    ensures x in InsertAll(es, more) <==> x in es || x in more
    decreases |more|
  {
    if more != [] {
      InsertMembers(es, more[0], x);
      InsertAllMembers(Insert(es, more[0]), more[1..], x);
      assert more == [more[0]] + more[1..];
    }
  }

  lemma PutInSplits<T>(es: seq<Entry<T>>, e: Entry<T>, p: nat, es': seq<Entry<T>>, k: nat)
    requires PutIn(es, e, p, es') && k <= p
    ensures es'[..k] == es[..k] && es'[k..] == es[k..][..p - k] + [e] + es[k..][p - k..]
  {
  }

  /** Putting an entry in behind the due ones leaves those alone. */
  lemma InsertBehind<T>(es: seq<Entry<T>>, e: Entry<T>, now: nat, k: nat)
    requires e.due > now && k <= Position(es, now)
    ensures Insert(es, e)[..k] == es[..k]
    ensures Insert(es, e)[k..] == Insert(es[k..], e)
  {
    hide Position;
    PositionGrows(es, now, e.due);
    PositionDrop(es, e.due, k);
    InsertPutsIn(es, e);
    hide PutIn;
    PutInSplits(es, e, Position(es, e.due), Insert(es, e), k);
  }

  lemma InsertKeepsPosition<T>(es: seq<Entry<T>>, e: Entry<T>, now: nat)
    requires e.due > now
    ensures Position(Insert(es, e), now) == Position(es, now)
  {
    hide Insert;
    PositionGrows(es, now, e.due);
    InsertPutsIn(es, e);
    PositionIs(Insert(es, e), now, Position(es, now));
  }

  lemma {:induction false} PositionGrows<T>(es: seq<Entry<T>>, lo: nat, hi: nat)
    requires lo <= hi
    ensures Position(es, lo) <= Position(es, hi)
    decreases |es|
  {
  }

  lemma {:induction false} PositionDrop<T>(es: seq<Entry<T>>, due: nat, k: nat)
    requires k <= Position(es, due)
    ensures Position(es[k..], due) == Position(es, due) - k
    decreases k
  {
  }

  /** The position is characterised by what stands before it and at it. */
  lemma {:induction false} PositionIs<T>(es: seq<Entry<T>>, due: nat, p: nat)
    requires p <= |es| && (forall j :: 0 <= j < p ==> es[j].due <= due) && (p < |es| ==> es[p].due > due)
    ensures Position(es, due) == p
    decreases |es|
  {
  }

  /** Taking one due head leaves one fewer due, and the rest of the front as it was. */
  lemma TakeHeadFront<T>(w: Wheel<T>, now: nat, k: nat)
    requires w.entries != [] && w.entries[0].due <= now && 0 < k <= Position(w.entries, now)
    ensures var es, w1 := w.entries, TakeHead(w, now);
            && Position(w1.entries, now) == Position(es, now) - 1
            && w1.entries[..k - 1] == es[1..k]
            && w1.entries[k - 1..] ==
                 if es[0].repeat > 0 then Insert(es[k..], Renewed(es[0], w.links, now)) else es[k..]
  {
    hide Insert;
    hide Position;
    var es := w.entries;
    BehindFirst(es, now, k);
    if es[0].repeat > 0 {
      InsertBehind(es[1..], Renewed(es[0], w.links, now), now, k - 1);
      InsertKeepsPosition(es[1..], Renewed(es[0], w.links, now), now);
    }
  }

  lemma BehindFirst<T>(es: seq<Entry<T>>, now: nat, k: nat)
    requires es != [] && es[0].due <= now && 0 < k <= |es|
    ensures Position(es, now) == 1 + Position(es[1..], now)
    ensures es[1..][..k - 1] == es[1..k] && es[1..][k - 1..] == es[k..]
  {
  }

  lemma AgainStep<T>(taken: seq<Entry<T>>, es: seq<Entry<T>>, links: nat, now: nat)
    requires taken != []
    ensures InsertAll(es, Again(taken, links, now)) ==
            if taken[0].repeat > 0
            then InsertAll(Insert(es, Renewed(taken[0], links, now)), Again(taken[1..], links + 1, now))
            else InsertAll(es, Again(taken[1..], links, now))
  {
  }

  lemma FiresOfStep<T>(es: seq<Entry<T>>, k: nat)
    requires 0 < k <= |es|
    ensures FiresOf(es[..k]) == [Fire(es[0].cb, es[0].user)] + FiresOf(es[1..k])
  {
  }

  lemma CollectStep<T>(w: Wheel<T>, now: nat, fire: seq<Fire>)
    requires |fire| <= MAX_FIRE
    ensures if Takes(w, now, |fire|)
            then Collect(w, now, fire) == Collect(TakeHead(w, now), now, fire + [Fire(w.entries[0].cb, w.entries[0].user)])
                 && w.entries != [] && w.entries[0].due <= now && |fire| < MAX_FIRE
                 && 0 < Batch(w.entries, now, MAX_FIRE - |fire|) <= Position(w.entries, now)
                 && Batch(TakeHead(w, now).entries, now, MAX_FIRE - |fire| - 1) == Batch(w.entries, now, MAX_FIRE - |fire|) - 1
            else Collect(w, now, fire) == (w, fire) && Batch(w.entries, now, MAX_FIRE - |fire|) == 0
  {
    hide Insert;
    hide TakeHead;
    if Takes(w, now, |fire|) {
      TakeHeadFront(w, now, 1);
    }
  }

  /** What the batch leaves and what it calls, from any point of the collecting loop. */
  ghost predicate TookBatch<T>(w: Wheel<T>, now: nat, fire: seq<Fire>, k: nat, w': Wheel<T>, fire': seq<Fire>)
    requires k <= |w.entries|
  {
    && fire' == fire + FiresOf(w.entries[..k])
    && w'.entries == InsertAll(w.entries[k..], Again(w.entries[..k], w.links, now))
    && w'.log == w.log && w'.deferred == w.deferred && w'.dispatching == w.dispatching
  }

  lemma TookOneMore<T>(w: Wheel<T>, now: nat, fire: seq<Fire>, k: nat, w': Wheel<T>, fire': seq<Fire>)
    requires w.entries != [] && w.entries[0].due <= now && 0 < k <= Position(w.entries, now)
    requires k - 1 <= |TakeHead(w, now).entries|
    requires TookBatch(TakeHead(w, now), now, fire + [Fire(w.entries[0].cb, w.entries[0].user)], k - 1, w', fire')
    ensures TookBatch(w, now, fire, k, w', fire')
  {
    hide Insert;
    hide InsertAll;
    hide Again;
    hide FiresOf;
    hide TakeHead;
    hide Position;
    var es := w.entries;
    var f := Fire(es[0].cb, es[0].user);
    TakeHeadFront(w, now, k);
    AgainStep(es[..k], es[k..], w.links, now);
    FiresOfStep(es, k);
    TakeHeadRest(w, now);
    assert es[..k][1..] == es[1..k];
    assert fire + [f] + FiresOf(es[1..k]) == fire + ([f] + FiresOf(es[1..k]));
  }

  /** The batch: the callbacks of the first due entries in order, and a list from which
      those are gone and to which the repeating ones have come back. */
  lemma {:induction false} CollectTakesBatch<T>(w: Wheel<T>, now: nat, fire: seq<Fire>)
    requires |fire| <= MAX_FIRE
    ensures var (w', fire') := Collect(w, now, fire);
            TookBatch(w, now, fire, Batch(w.entries, now, MAX_FIRE - |fire|), w', fire')
    decreases MAX_FIRE - |fire|
  {
    hide *;
    CollectStep(w, now, fire);
    var k := Batch(w.entries, now, MAX_FIRE - |fire|);
    var (w', fire') := Collect(w, now, fire);
    if Takes(w, now, |fire|) {
      var f := Fire(w.entries[0].cb, w.entries[0].user);
      CollectTakesBatch(TakeHead(w, now), now, fire + [f]);
      TookOneMore(w, now, fire, k, w', fire');
    } else {
      CollectNothing(w, now, fire);
    }
  }

  lemma TakeHeadRest<T>(w: Wheel<T>, now: nat)
    requires w.entries != []
    ensures var w1 := TakeHead(w, now);
            && w1.log == w.log && w1.deferred == w.deferred && w1.dispatching == w.dispatching
            && w1.links == if w.entries[0].repeat > 0 then w.links + 1 else w.links
  {
  }

  lemma CollectNothing<T>(w: Wheel<T>, now: nat, fire: seq<Fire>)
    ensures TookBatch(w, now, fire, 0, w, fire)
  {
  }

  lemma {:induction false} AgainAre<T>(taken: seq<Entry<T>>, links: nat, now: nat, x: Entry<T>)
    requires x in Again(taken, links, now)
    ensures exists i :: 0 <= i < |taken| && taken[i].repeat > 0 && x == Renewed(taken[i], x.stamp, now)
    decreases |taken|
  {
    if taken[0].repeat > 0 && x == Renewed(taken[0], links, now) {
      assert x == Renewed(taken[0], x.stamp, now);
    } else {
      var l := if taken[0].repeat > 0 then links + 1 else links;
      AgainAre(taken[1..], l, now, x);
      var i :| 0 <= i < |taken| - 1 && taken[1..][i].repeat > 0 && x == Renewed(taken[1..][i], x.stamp, now);
      assert taken[i + 1] == taken[1..][i];
    }
  }

  lemma {:induction false} AgainHasAll<T>(taken: seq<Entry<T>>, links: nat, now: nat, i: nat)
    requires i < |taken| && taken[i].repeat > 0
    ensures exists stamp :: Renewed(taken[i], stamp, now) in Again(taken, links, now)
    decreases |taken|
  {
    if i == 0 {
      assert Renewed(taken[0], links, now) in Again(taken, links, now);
    } else {
      var l := if taken[0].repeat > 0 then links + 1 else links;
      AgainHasAll(taken[1..], l, now, i - 1);
      var stamp :| Renewed(taken[1..][i - 1], stamp, now) in Again(taken[1..], l, now);
      assert taken[i] == taken[1..][i - 1];
      assert Renewed(taken[i], stamp, now) in Again(taken, links, now);
    }
  }

  /** What is in the list when the callbacks begin: the timers outside the batch as they
      were, and the repeating ones of the batch, due again at now + repeat. */
  lemma CollectLeaves<T>(w: Wheel<T>, now: nat, x: Entry<T>)
    ensures var k := Batch(w.entries, now, MAX_FIRE);
            var left := Collect(w, now, []).0.entries;
            && (x in w.entries[k..] ==> x in left)
            && (x in left && x !in w.entries[k..] ==>
                  exists i :: 0 <= i < k && w.entries[i].repeat > 0 && x == Renewed(w.entries[i], x.stamp, now))
            && (forall i {:trigger w.entries[i]} :: 0 <= i < k && w.entries[i].repeat > 0 ==>
                  exists stamp :: Renewed(w.entries[i], stamp, now) in left)
  {
    hide Collect;
    hide Again;
    hide InsertAll;
    var k := Batch(w.entries, now, MAX_FIRE);
    var taken := w.entries[..k];
    var again := Again(taken, w.links, now);
    var left := Collect(w, now, []).0.entries;
    CollectTakesBatch(w, now, []);
    InsertAllMembers(w.entries[k..], again, x);
    if x in again {
      AgainAre(taken, w.links, now, x);
      var i :| 0 <= i < |taken| && taken[i].repeat > 0 && x == Renewed(taken[i], x.stamp, now);
      assert w.entries[i] == taken[i];
    }
    forall i {:trigger w.entries[i]} | 0 <= i < k && w.entries[i].repeat > 0
      ensures exists stamp :: Renewed(w.entries[i], stamp, now) in left
    {
      assert taken[i] == w.entries[i];
      AgainHasAll(taken, w.links, now, i);
      var stamp :| Renewed(taken[i], stamp, now) in again;
      InsertAllMembers(w.entries[k..], again, Renewed(taken[i], stamp, now));
    }
  }

  lemma {:induction false} CollectGood<T>(w: Wheel<T>, now: nat, fire: seq<Fire>)
    requires Good(w)
    ensures Good(Collect(w, now, fire).0)
    decreases MAX_FIRE - |fire|
  {
    if Takes(w, now, |fire|) {
      TakeHeadGood(w, now);
      CollectGood(TakeHead(w, now), now, fire + [Fire(w.entries[0].cb, w.entries[0].user)]);
    }
  }

  /** The callbacks in a log. */
  function CallsIn(log: seq<Event>): seq<Fire>
    decreases |log|
  {
    if log == [] then []
    else
      var e := log[|log| - 1];
      CallsIn(log[..|log| - 1]) + (if e.Called? then [Fire(e.cb, e.user)] else [])
  }

  lemma CallsInPush(log: seq<Event>, e: Event)
    ensures CallsIn(log + [e]) == CallsIn(log) + (if e.Called? then [Fire(e.cb, e.user)] else [])
  {
  }

  lemma {:induction false} CallsInFrees(log: seq<Event>, users: seq<nat>)
    ensures CallsIn(log + Frees(users)) == CallsIn(log)
    decreases |users|
  {
    if users == [] {
      assert log + Frees(users) == log;
    } else {
      var n := |users| - 1;
      CallsInFrees(log, users[..n]);
      CallsInPush(log + Frees(users[..n]), Freed(users[n]));
      assert log + Frees(users) == log + Frees(users[..n]) + [Freed(users[n])];
    }
  }

  lemma {:induction false} ActAllCallsNothing<T>(w: Wheel<T>, script: seq<Action<T>>, now: nat)
    ensures CallsIn(ActAll(w, script, now).log) == CallsIn(w.log)
    decreases |script|
  {
    if script != [] {
      var w1 := ActAll(w, script[..|script| - 1], now);
      ActAllCallsNothing(w, script[..|script| - 1], now);
      match script[|script| - 1]
      case Free(user) => CallsInPush(w1.log, Freed(user));
      case _ =>
    }
  }

  lemma {:induction false} DispatchGood<T>(w: Wheel<T>, fire: seq<Fire>, scripts: nat -> seq<Action<T>>, now: nat)
    requires Good(w)
    ensures Good(Dispatch(w, fire, scripts, now))
    decreases |fire|
  {
    hide ActAll;
    if fire != [] {
      var n := |fire| - 1;
      DispatchGood(w, fire[..n], scripts, now);
      var w1 := Dispatch(w, fire[..n], scripts, now);
      var w2 := w1.(log := w1.log + [Called(fire[n].cb, fire[n].user)]);
      assert Good(w2);
      ActAllGood(w2, scripts(n), now);
    }
  }

  lemma {:induction false} DispatchCallsAll<T>(w: Wheel<T>, fire: seq<Fire>, scripts: nat -> seq<Action<T>>, now: nat)
    ensures CallsIn(Dispatch(w, fire, scripts, now).log) == CallsIn(w.log) + fire
    decreases |fire|
  {
    hide CallsIn;
    hide ActAll;
    if fire == [] {
      assert CallsIn(w.log) + fire == CallsIn(w.log);
    } else {
      var n := |fire| - 1;
      DispatchCallsAll(w, fire[..n], scripts, now);
      var w1 := Dispatch(w, fire[..n], scripts, now);
      CallsInPush(w1.log, Called(fire[n].cb, fire[n].user));
      ActAllCallsNothing(w1.(log := w1.log + [Called(fire[n].cb, fire[n].user)]), scripts(n), now);
      assert CallsIn(w.log) + fire == CallsIn(w.log) + fire[..n] + [fire[n]];
    }
  }

  lemma NothingFires<T>(es: seq<Entry<T>>, k: nat)
    requires es == [] && k == 0
    ensures FiresOf(es[..k]) == []
  {
  }

  /** One tick, whatever the callbacks start, stop and free: the timers due when it began
      (the first MAX_FIRE of them in due order) are called back, each once and no other,
      and the list stays in order. */
  lemma TickCallsTheDue<T>(w: Wheel<T>, scripts: nat -> seq<Action<T>>, now: nat)
    requires Good(w)
    ensures Good(Tick(w, scripts, now))
    ensures CallsIn(Tick(w, scripts, now).log) == CallsIn(w.log) + FiresOf(w.entries[..Batch(w.entries, now, MAX_FIRE)])
  {
    hide Sorted;
    hide Distinct;
    hide Stamped;
    hide CallsIn;
    hide Collect;
    hide Dispatch;
    hide FiresOf;
    hide Frees;
    hide InsertAll;
    hide Again;
    if w.entries != [] {
      var w0 := w.(dispatching := true);
      assert Good(w0);
      var (w1, fire) := Collect(w0, now, []);
      CollectTakesBatch(w0, now, []);
      CollectGood(w0, now, []);
      DispatchCallsAll(w1, fire, scripts, now);
      DispatchGood(w1, fire, scripts, now);
      var w3 := Dispatch(w1, fire, scripts, now);
      CallsInFrees(w3.log, w3.deferred);
      assert [] + FiresOf(w.entries[..Batch(w.entries, now, MAX_FIRE)]) == FiresOf(w.entries[..Batch(w.entries, now, MAX_FIRE)]);
    } else {
      NothingFires(w.entries, Batch(w.entries, now, MAX_FIRE));
    }
  }

  // ------------------------------------------------------------------
  // Deferred frees
  // ------------------------------------------------------------------

  /** The objects a script asks to free. */
  function FreesOf<T>(script: seq<Action<T>>): seq<nat>
    decreases |script|
  {
    if script == [] then []
    else
      var a := script[|script| - 1];
      FreesOf(script[..|script| - 1]) + (if a.Free? then [a.freed] else [])
  }

  function AllFrees<T>(scripts: nat -> seq<Action<T>>, n: nat): seq<nat> {
    if n == 0 then [] else AllFrees(scripts, n - 1) + FreesOf(scripts(n - 1))
  }

  lemma {:induction false} AllFreesGrow<T>(scripts: nat -> seq<Action<T>>, m: nat, n: nat)
    requires m <= n
    ensures |AllFrees(scripts, m)| <= |AllFrees(scripts, n)|
  {
    if m < n {
      AllFreesGrow(scripts, m, n - 1);
    }
  }

  /** No callback is made on an object freed before. */
  predicate NoUseAfterFree(log: seq<Event>) {
    forall i, j :: 0 <= i < j < |log| && log[i].Freed? && log[j].Called? ==> log[i].user != log[j].user
  }

  /** No timer is left that belongs to a freed object. */
  predicate NoneLeft<T>(w: Wheel<T>) {
    forall i :: 0 <= i < |w.entries| ==> Freed(w.entries[i].user) !in w.log
  }

  /** Calls on objects not freed so far, then frees: still no call on a freed object. */
  lemma CallsThenFrees(log: seq<Event>, fire: seq<Fire>, users: seq<nat>)
    requires NoUseAfterFree(log)
    requires forall j :: 0 <= j < |fire| ==> Freed(fire[j].user) !in log
    ensures NoUseAfterFree(log + Calls(fire) + Frees(users))
  {
  }

  lemma TickOfNone<T>(w: Wheel<T>, scripts: nat -> seq<Action<T>>, now: nat)
    requires w.entries == []
    ensures Tick(w, scripts, now) == w
  {
  }

  // ---- more than MAX_DEFER frees ----

  function Min(a: nat, b: nat): nat { if a < b then a else b }

  /** Of the frees asked for when `queued` wait already: those that still find room, and
      those that do not. */
  function Fitting(frees: seq<nat>, queued: nat): seq<nat> {
    frees[..Min(|frees|, if queued < MAX_DEFER then MAX_DEFER - queued else 0)]
  }

  function Excess(frees: seq<nat>, queued: nat): seq<nat> {
    frees[Min(|frees|, if queued < MAX_DEFER then MAX_DEFER - queued else 0)..]
  }

  lemma FreesPush(users: seq<nat>, u: nat)
    ensures Frees(users + [u]) == Frees(users) + [Freed(u)]
  {
  }

  /** What a script does with its frees while callbacks run. */
  lemma {:induction false} ActAllFrees<T>(w: Wheel<T>, script: seq<Action<T>>, now: nat)
    requires w.dispatching && |w.deferred| <= MAX_DEFER
    ensures var w' := ActAll(w, script, now);
            && w'.deferred == w.deferred + Fitting(FreesOf(script), |w.deferred|)
            && w'.log == w.log + Frees(Excess(FreesOf(script), |w.deferred|)) && w'.dispatching
    decreases |script|
  {
    hide Fitting;
    hide Excess;
    hide Frees;
    hide Insert;
    hide Without;
    var q := |w.deferred|;
    if script == [] {
      NothingToSplit(q);
      assert w.log + [] == w.log && w.deferred + [] == w.deferred;
    } else {
      var n := |script| - 1;
      ActAllFrees(w, script[..n], now);
      var before := FreesOf(script[..n]);
      if script[n].Free? {
        SplitPush(before, script[n].freed, q);
      } else {
        assert FreesOf(script) == before + [] == before;
      }
    }
  }

  lemma NothingToSplit(queued: nat)
    ensures Fitting([], queued) == Excess([], queued) == [] && Frees([]) == []
  {
  }

  /** One more free finds room exactly while fewer than MAX_DEFER wait. */
  lemma SplitPush(frees: seq<nat>, u: nat, queued: nat)
    requires queued <= MAX_DEFER
    ensures var full := queued + |Fitting(frees, queued)| >= MAX_DEFER;
            && queued + |Fitting(frees, queued)| <= MAX_DEFER
            && Fitting(frees + [u], queued) == Fitting(frees, queued) + (if full then [] else [u])
            && Frees(Excess(frees + [u], queued)) == Frees(Excess(frees, queued)) + (if full then [Freed(u)] else [])
  {
    FreesPush(Excess(frees, queued), u);
    hide Frees;
    if queued + |frees| >= MAX_DEFER {
      assert Excess(frees + [u], queued) == Excess(frees, queued) + [u];
    } else {
      assert Excess(frees + [u], queued) == Excess(frees, queued) == [];
    }
  }

  /** The frees of the `c`-th callback that come past the MAX_DEFER-th of the tick. */
  function Late<T>(scripts: nat -> seq<Action<T>>, c: nat): seq<nat> {
    Excess(FreesOf(scripts(c)), |AllFrees(scripts, c)|)
  }

  /** The calls of a batch and the frees that happen between them. */
  function CallsAndLate<T>(fire: seq<Fire>, scripts: nat -> seq<Action<T>>): seq<Event>
    decreases |fire|
  {
    if fire == [] then []
    else
      var n := |fire| - 1;
      CallsAndLate(fire[..n], scripts) + [Called(fire[n].cb, fire[n].user)] + Frees(Late(scripts, n))
  }

  lemma {:induction false} DispatchLogs<T>(w: Wheel<T>, fire: seq<Fire>, scripts: nat -> seq<Action<T>>, now: nat)
    requires w.dispatching && w.deferred == []
    ensures var w' := Dispatch(w, fire, scripts, now);
            && w'.log == w.log + CallsAndLate(fire, scripts) && w'.dispatching
            && w'.deferred == Fitting(AllFrees(scripts, |fire|), 0)
    decreases |fire|
  {
    hide ActAll;
    hide FreesOf;
    hide Frees;
    if fire == [] {
      assert w.log + CallsAndLate(fire, scripts) == w.log;
    } else {
      var n := |fire| - 1;
      DispatchLogs(w, fire[..n], scripts, now);
      var w1 := Dispatch(w, fire[..n], scripts, now);
      var call := [Called(fire[n].cb, fire[n].user)];
      ActAllFrees(w1.(log := w1.log + call), scripts(n), now);
      var all, more := AllFrees(scripts, n), FreesOf(scripts(n));
      assert Fitting(all, 0) + Fitting(more, |Fitting(all, 0)|) == Fitting(all + more, 0);
      assert Excess(more, |Fitting(all, 0)|) == Excess(more, |all|);
      var front := CallsAndLate(fire[..n], scripts);
      assert w.log + front + call + Frees(Late(scripts, n)) == w.log + (front + call + Frees(Late(scripts, n)));
    }
  }

  /** The log of any tick: calls with the late frees between them, then the deferred ones. */
  lemma TickLog<T>(w: Wheel<T>, scripts: nat -> seq<Action<T>>, now: nat)
    requires w.deferred == [] && w.entries != []
    ensures var k := Batch(w.entries, now, MAX_FIRE);
            Tick(w, scripts, now).log ==
              w.log + CallsAndLate(FiresOf(w.entries[..k]), scripts) + Frees(Fitting(AllFrees(scripts, k), 0))
  {
    hide CallsAndLate;
    hide Fitting;
    hide AllFrees;
    var w0 := w.(dispatching := true);
    var (w1, fire) := Collect(w0, now, []);
    CollectTakesBatch(w0, now, []);
    var k := Batch(w.entries, now, MAX_FIRE);
    assert fire == FiresOf(w.entries[..k]) && |fire| == k;
    DispatchLogs(w1, fire, scripts, now);
  }

  lemma SafeThenFrees(log: seq<Event>, users: seq<nat>)
    ensures NoUseAfterFree(log + Frees(users)) <==> NoUseAfterFree(log)
  {
    var all := log + Frees(users);
    assert forall i :: 0 <= i < |log| ==> all[i] == log[i];
    assert forall i :: |log| <= i < |all| ==> all[i].Freed?;
  }

  lemma SafeThenCall(log: seq<Event>, cb: nat, user: nat)
    ensures NoUseAfterFree(log + [Called(cb, user)]) <==> NoUseAfterFree(log) && Freed(user) !in log
  {
    var all := log + [Called(cb, user)];
    assert forall i :: 0 <= i < |log| ==> all[i] == log[i];
    if Freed(user) in log {
      var i :| 0 <= i < |log| && log[i] == Freed(user);
      assert all[i].Freed? && all[|log|].Called? && all[i].user == all[|log|].user;
    }
  }

  /** Some callback before the `k`-th frees this object past the limit. */
  predicate FreedLate<T>(scripts: nat -> seq<Action<T>>, k: nat, user: nat) {
    exists c :: 0 <= c < k && user in Late(scripts, c)
  }

  lemma {:induction false} LateIsLogged<T>(fire: seq<Fire>, scripts: nat -> seq<Action<T>>, user: nat)
    ensures Freed(user) in CallsAndLate(fire, scripts) <==> FreedLate(scripts, |fire|, user)
    decreases |fire|
  {
    hide Late;
    if fire != [] {
      var n := |fire| - 1;
      LateIsLogged(fire[..n], scripts, user);
      FreesMember(Late(scripts, n), user);
      hide Frees;
      assert FreedLate(scripts, |fire|, user) <==> FreedLate(scripts, n, user) || user in Late(scripts, n);
    }
  }

  lemma FreesMember(users: seq<nat>, user: nat)
    ensures Freed(user) in Frees(users) <==> user in users
  {
    if user in users {
      var i :| 0 <= i < |users| && users[i] == user;
      assert Frees(users)[i] == Freed(user);
    }
  }

  /** No object called in the batch was freed late by a callback before it. */
  predicate NoLateUse<T>(fire: seq<Fire>, scripts: nat -> seq<Action<T>>) {
    forall d :: 0 <= d < |fire| ==> !FreedLate(scripts, d, fire[d].user)
  }

  lemma {:induction false} BatchIsSafeIff<T>(log: seq<Event>, fire: seq<Fire>, scripts: nat -> seq<Action<T>>)
    requires NoUseAfterFree(log) && forall d :: 0 <= d < |fire| ==> Freed(fire[d].user) !in log
    ensures NoUseAfterFree(log + CallsAndLate(fire, scripts)) <==> NoLateUse(fire, scripts)
    decreases |fire|
  {
    hide NoUseAfterFree;
    hide FreedLate;
    hide Late;
    hide Frees;
    if fire == [] {
      assert log + CallsAndLate(fire, scripts) == log;
    } else {
      var n := |fire| - 1;
      var before, f := fire[..n], fire[n];
      BatchIsSafeIff(log, before, scripts);
      var front := log + CallsAndLate(before, scripts);
      LateIsLogged(before, scripts, f.user);
      SafeThenCall(front, f.cb, f.user);
      SafeThenFrees(front + [Called(f.cb, f.user)], Late(scripts, n));
      assert log + CallsAndLate(fire, scripts) == front + [Called(f.cb, f.user)] + Frees(Late(scripts, n));
      assert NoLateUse(fire, scripts) <==> NoLateUse(before, scripts) && !FreedLate(scripts, n, f.user) by {
        assert forall d :: 0 <= d < n ==> before[d] == fire[d];
      }
    }
  }

  /** For every wheel without timers of freed objects and everything callbacks do: a tick
      calls nothing on a freed object exactly if no object called in it was freed by an
      earlier callback past the MAX_DEFER-th free of the tick. */
  lemma TickSafeIff<T>(w: Wheel<T>, scripts: nat -> seq<Action<T>>, now: nat)
    requires w.deferred == [] && NoUseAfterFree(w.log) && NoneLeft(w)
    ensures NoUseAfterFree(Tick(w, scripts, now).log) <==>
              NoLateUse(FiresOf(w.entries[..Batch(w.entries, now, MAX_FIRE)]), scripts)
  {
    hide NoUseAfterFree;
    hide Tick;
    hide CallsAndLate;
    hide FreedLate;
    if w.entries != [] {
      TickLog(w, scripts, now);
      var k := Batch(w.entries, now, MAX_FIRE);
      var fire := FiresOf(w.entries[..k]);
      assert forall j :: 0 <= j < |fire| ==> fire[j].user == w.entries[j].user;
      BatchIsSafeIff(w.log, fire, scripts);
      SafeThenFrees(w.log + CallsAndLate(fire, scripts), Fitting(AllFrees(scripts, k), 0));
    } else {
      TickOfNone(w, scripts, now);
    }
  }

  /** With at most MAX_DEFER frees asked for there are no late ones. */
  lemma FewFreesAreSafe<T>(fire: seq<Fire>, scripts: nat -> seq<Action<T>>)
    requires |AllFrees(scripts, |fire|)| <= MAX_DEFER
    ensures NoLateUse(fire, scripts) && Fitting(AllFrees(scripts, |fire|), 0) == AllFrees(scripts, |fire|)
    ensures forall c :: 0 <= c < |fire| ==> Late(scripts, c) == []
  {
    hide FreesOf;
    forall c | 0 <= c < |fire|
      ensures Late(scripts, c) == []
    {
      AllFreesGrow(scripts, c + 1, |fire|);
    }
  }

  lemma CallsSnoc(fire: seq<Fire>)
    requires fire != []
    ensures var n := |fire| - 1; Calls(fire) == Calls(fire[..n]) + [Called(fire[n].cb, fire[n].user)]
  {
  }

  lemma NothingCalled()
    ensures Calls([]) == []
  {
  }

  lemma {:induction false} NoneLate<T>(fire: seq<Fire>, scripts: nat -> seq<Action<T>>)
    requires forall c :: 0 <= c < |fire| ==> Late(scripts, c) == []
    ensures CallsAndLate(fire, scripts) == Calls(fire)
    decreases |fire|
  {
    hide Late;
    hide Calls;
    if fire != [] {
      NoneLate(fire[..|fire| - 1], scripts);
      CallsSnoc(fire);
      NothingToSplit(0);
    } else {
      NothingCalled();
    }
  }

  /** With at most MAX_DEFER frees asked for, all of them happen after all callbacks. */
  lemma TickFreesLast<T>(w: Wheel<T>, scripts: nat -> seq<Action<T>>, now: nat)
    requires w.deferred == [] && w.entries != []
    requires |AllFrees(scripts, Batch(w.entries, now, MAX_FIRE))| <= MAX_DEFER
    ensures var k := Batch(w.entries, now, MAX_FIRE);
            Tick(w, scripts, now).log == w.log + Calls(FiresOf(w.entries[..k])) + Frees(AllFrees(scripts, k))
  {
    hide Fitting;
    hide CallsAndLate;
    hide Tick;
    var k := Batch(w.entries, now, MAX_FIRE);
    var fire := FiresOf(w.entries[..k]);
    TickLog(w, scripts, now);
    FewFreesAreSafe(fire, scripts);
    NoneLate(fire, scripts);
  }

  /** With at most MAX_DEFER frees asked for a tick is safe. */
  lemma TickIsSafe<T>(w: Wheel<T>, scripts: nat -> seq<Action<T>>, now: nat)
    requires w.deferred == [] && NoUseAfterFree(w.log) && NoneLeft(w)
    requires |AllFrees(scripts, Batch(w.entries, now, MAX_FIRE))| <= MAX_DEFER
    ensures NoUseAfterFree(Tick(w, scripts, now).log)
  {
    hide NoUseAfterFree;
    hide NoLateUse;
    hide Tick;
    TickSafeIff(w, scripts, now);
    FewFreesAreSafe(FiresOf(w.entries[..Batch(w.entries, now, MAX_FIRE)]), scripts);
  }

  /** One callback that frees objects 100, 101, .. and last of all `user`. */
  function FreeMany<T>(n: nat, user: nat): seq<Action<T>> {
    seq(n, i requires 0 <= i => Free(100 + i)) + [Free(user)]
  }

  lemma {:induction false} FreesOfMany<T>(n: nat)
    ensures |FreesOf(seq(n, i requires 0 <= i => Action<T>.Free(100 + i)))| == n
  {
    if n > 0 {
      FreesOfMany<T>(n - 1);
      var s := seq(n, i requires 0 <= i => Action<T>.Free(100 + i));
      assert s[..n - 1] == seq(n - 1, i requires 0 <= i => Action<T>.Free(100 + i));
    }
  }

  /** Two timers due, the callback of the first frees 64 objects and then the one the second
      timer belongs to: the second callback runs on a freed object. */
  lemma OverflowIsUnsafe<T>(a: T, b: T, now: nat)
    requires a != b
    ensures var w := Wheel([Entry(a, now, 0, 1, 1, 0), Entry(b, now, 0, 2, 2, 1)], 2, false, [], []);
            var scripts := (c: nat) => if c == 0 then FreeMany<T>(MAX_DEFER, 2) else [];
            Good(w) && !NoUseAfterFree(Tick(w, scripts, now).log)
  {
    var es := [Entry(a, now, 0, 1, 1, 0), Entry(b, now, 0, 2, 2, 1)];
    var w := Wheel(es, 2, false, [], []);
    var scripts := (c: nat) => if c == 0 then FreeMany<T>(MAX_DEFER, 2) else [];
    TickSafeIff(w, scripts, now);
    PositionIs(es, now, 2);
    var fire := FiresOf(es[..2]);
    LastIsLate<T>(2);
    assert Late(scripts, 0) == [2];
    assert fire[1].user == 2 && FreedLate(scripts, 1, 2);
    StartsGood(a, b, now);
    hide NoUseAfterFree;
    hide Tick;
  }

  lemma StartsGood<T>(a: T, b: T, now: nat)
    requires a != b
    ensures Good(Wheel([Entry(a, now, 0, 1, 1, 0), Entry(b, now, 0, 2, 2, 1)], 2, false, [], []))
  {
  }

  lemma LastIsLate<T>(user: nat)
    ensures Excess(FreesOf(FreeMany<T>(MAX_DEFER, user)), 0) == [user]
  {
    var many := FreeMany<T>(MAX_DEFER, user);
    FreesOfMany<T>(MAX_DEFER);
    var front := seq(MAX_DEFER, i requires 0 <= i => Action<T>.Free(100 + i));
    assert many[..|many| - 1] == front;
    assert FreesOf(many) == FreesOf(front) + [user];
  }

  // ------------------------------------------------------------------
  // Runs
  // ------------------------------------------------------------------

  datatype Step<T> =
    | DoStart(t: T, cb: nat, user: nat, due: nat, repeat: nat)
    | DoStop(s: T)
    | DoFree(freed: nat)
    | DoTick(scripts: nat -> seq<Action<T>>, now: nat)

  function Do<T(==)>(w: Wheel<T>, e: Step<T>): Wheel<T> {
    match e
    case DoStart(t, cb, user, due, repeat) => Start(w, t, cb, user, due, repeat)
    case DoStop(t) => Stop(w, t)
    case DoFree(user) => DeferFree(w, user)
    case DoTick(scripts, now) => Tick(w, scripts, now)
  }

  function Run<T(==)>(w: Wheel<T>, steps: seq<Step<T>>): Wheel<T>
    decreases |steps|
  {
    if steps == [] then w else Run(Do(w, steps[0]), steps[1..])
  }

  /** After any run the list is sorted by due time, equal times in the order of starting,
      and holds no timer twice. */
  lemma {:induction false} RunGood<T>(w: Wheel<T>, steps: seq<Step<T>>)
    requires Good(w)
    ensures Good(Run(w, steps))
    decreases |steps|
  {
    if steps != [] {
      match steps[0] {
        case DoStart(t, cb, user, due, repeat) => StartGood(w, t, cb, user, due, repeat);
        case DoStop(t) => WithoutGood(w.entries, t, w.links);
        case DoFree(_) =>
        case DoTick(scripts, now) => TickCallsTheDue(w, scripts, now);
      }
      RunGood(Do(w, steps[0]), steps[1..]);
    }
  }

  /** What owners of timers must do: call nothing in a tick that was freed late in it, and
      leave no timer behind that belongs to a freed object. */
  ghost predicate Careful<T(!new)>(w: Wheel<T>, steps: seq<Step<T>>)
    decreases |steps|
  {
    steps != [] ==>
      && NoneLeft(Do(w, steps[0]))
      && (steps[0].DoTick? ==>
            NoLateUse(FiresOf(w.entries[..Batch(w.entries, steps[0].now, MAX_FIRE)]), steps[0].scripts))
      && Careful(Do(w, steps[0]), steps[1..])
  }

  /** Between ticks nothing waits to be freed. */
  predicate Idle<T>(w: Wheel<T>) {
    !w.dispatching && w.deferred == []
  }

  lemma DoIdle<T>(w: Wheel<T>, e: Step<T>)
    requires Idle(w)
    ensures Idle(Do(w, e))
    ensures !e.DoTick? && !e.DoFree? ==> Do(w, e).log == w.log
    ensures e.DoFree? ==> Do(w, e).log == w.log + [Freed(e.freed)]
  {
  }

  /** Then no callback ever runs on a freed object. */
  lemma {:induction false} RunIsSafe<T(!new)>(w: Wheel<T>, steps: seq<Step<T>>)
    requires Idle(w) && NoUseAfterFree(w.log) && NoneLeft(w) && Careful(w, steps)
    ensures NoUseAfterFree(Run(w, steps).log)
    decreases |steps|
  {
    if steps != [] {
      var e := steps[0];
      DoIdle(w, e);
      if e.DoTick? {
        TickSafeIff(w, e.scripts, e.now);
        hide NoLateUse;
        hide Tick;
      } else if e.DoFree? {
        CallsThenFrees(w.log, [], [e.freed]);
        assert w.log + Calls([]) + Frees([e.freed]) == w.log + [Freed(e.freed)];
      }
      RunIsSafe(Do(w, e), steps[1..]);
    }
  }
}
