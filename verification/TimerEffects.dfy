/** What ticks leave: where each timer stands, and that every free asked for happens. */
module TimerEffects {
  import opened Options
  import opened TimerSpec

  datatype Standing = Off | On(due: nat, repeat: nat, cb: nat, user: nat)

  function StandsAs<T>(e: Entry<T>): Standing {
    On(e.due, e.repeat, e.cb, e.user)
  }

  /** How a timer stands in a list. */
  function StandingIn<T(==)>(es: seq<Entry<T>>, t: T): Standing {
    var i := IndexOf(es, t);
    if i == |es| then Off else StandsAs(es[i])
  }

  /** In a list without doubles that is its one entry. */
  lemma StandsOnce<T>(es: seq<Entry<T>>, e: Entry<T>)
    requires Distinct(es) && e in es
    ensures StandingIn(es, e.t) == StandsAs(e)
  {
  }

  lemma StandsNot<T>(es: seq<Entry<T>>, t: T)
    requires forall i :: 0 <= i < |es| ==> es[i].t != t
    ensures StandingIn(es, t) == Off
  {
  }

  /** The action starts or stops this timer. */
  predicate Concerns<T(==)>(a: Action<T>, t: T) {
    (a.StartIt? && a.t == t) || (a.StopIt? && a.s == t)
  }

  /** The last one that does. */
  function LastOn<T(==)>(actions: seq<Action<T>>, t: T): Option<Action<T>>
    decreases |actions|
  {
    if actions == [] then None
    else
      var n := |actions| - 1;
      if Concerns(actions[n], t) then Some(actions[n]) else LastOn(actions[..n], t)
  }

  /** All that the first `n` callbacks of a tick do. */
  function AllActions<T>(scripts: nat -> seq<Action<T>>, n: nat): seq<Action<T>> {
    if n == 0 then [] else AllActions(scripts, n - 1) + scripts(n - 1)
  }

  /** A start makes the timer due so long from now; a stop takes it off. */
  function Becomes<T>(was: Standing, last: Option<Action<T>>, now: nat): Standing {
    match last
    case None => was
    case Some(StartIt(_, cb, user, timeout, repeat)) => On(now + timeout, repeat, cb, user)
    case Some(_) => Off
  }

  /** Before the callbacks: a timer of the batch is off, or due again if it repeats. */
  function WhenCallbacksBegin<T(==)>(es: seq<Entry<T>>, k: nat, now: nat, t: T): Standing {
    var i := IndexOf(es, t);
    if i == |es| then Off
    else if i >= k then StandsAs(es[i])
    else if es[i].repeat > 0 then On(now + es[i].repeat, es[i].repeat, es[i].cb, es[i].user)
    else Off
  }

  lemma BatchLeaves<T>(w: Wheel<T>, now: nat, t: T)
    requires Good(w)
    ensures var k := Batch(w.entries, now, MAX_FIRE);
            StandingIn(Collect(w, now, []).0.entries, t) == WhenCallbacksBegin(w.entries, k, now, t)
  {
    hide Collect;
    hide Sorted;
    hide Stamped;
    hide Batch;
    var k := Batch(w.entries, now, MAX_FIRE);
    var left := Collect(w, now, []).0.entries;
    CollectGood(w, now, []);
    var i := IndexOf(w.entries, t);
    if i < |w.entries| && i >= k {
      assert w.entries[i] == w.entries[k..][i - k];
      CollectLeaves(w, now, w.entries[i]);
      StandsOnce(left, w.entries[i]);
    } else if i < |w.entries| && w.entries[i].repeat > 0 {
      CollectLeaves(w, now, w.entries[i]);
      var stamp :| Renewed(w.entries[i], stamp, now) in left;
      StandsOnce(left, Renewed(w.entries[i], stamp, now));
    } else {
      forall j | 0 <= j < |left|
        ensures left[j].t != t
      {
        NotLeft(w, now, t, i, left[j]);
      }
      StandsNot(left, t);
    }
  }

  lemma NotLeft<T>(w: Wheel<T>, now: nat, t: T, i: nat, x: Entry<T>)
    requires Distinct(w.entries) && i == IndexOf(w.entries, t)
    requires i < |w.entries| ==> i < Batch(w.entries, now, MAX_FIRE) && w.entries[i].repeat == 0
    requires x in Collect(w, now, []).0.entries
    ensures x.t != t
  {
    hide Collect;
    hide Batch;
    var k := Batch(w.entries, now, MAX_FIRE);
    CollectLeaves(w, now, x);
    if x in w.entries[k..] {
      var j :| 0 <= j < |w.entries[k..]| && w.entries[k..][j] == x;
      assert w.entries[k + j] == x;
    } else {
      var j :| 0 <= j < k && w.entries[j].repeat > 0 && x == Renewed(w.entries[j], x.stamp, now);
      assert w.entries[j].t == x.t;
    }
  }

  lemma ActStands<T>(w: Wheel<T>, a: Action<T>, now: nat, t: T)
    requires Good(w)
    ensures StandingIn(Act(w, a, now).entries, t) == Becomes(StandingIn(w.entries, t), if Concerns(a, t) then Some(a) else None, now)
  {
    hide Insert;
    hide Without;
    hide Sorted;
    hide Stamped;
    var es, es' := w.entries, Act(w, a, now).entries;
    ActGood(w, a, now);
    if Concerns(a, t) {
      OwnStanding(w, a, now, t);
    } else if !a.Free? {
      var i := IndexOf(es, t);
      var u := if a.StartIt? then a.t else a.s;
      if i < |es| {
        StartMembers(w, u, 0, 0, 0, 0, es[i]);
        MembersAfter(w, a, now, es[i]);
        StandsOnce(es', es[i]);
      } else {
        forall j | 0 <= j < |es'|
          ensures es'[j].t != t
        {
          MembersAfter(w, a, now, es'[j]);
        }
        StandsNot(es', t);
      }
    }
  }

  lemma MembersAfter<T>(w: Wheel<T>, a: Action<T>, now: nat, x: Entry<T>)
    requires Good(w) && !a.Free?
    ensures x in Act(w, a, now).entries <==>
              (a.StartIt? && x == Entry(a.t, now + a.timeout, a.repeat, a.cb, a.user, w.links))
              || (x in w.entries && x.t != if a.StartIt? then a.t else a.s)
  {
    match a
    case StartIt(t, cb, user, timeout, repeat) => StartMembers(w, t, cb, user, now + timeout, repeat, x);
    case StopIt(t) => StartMembers(w, t, 0, 0, 0, 0, x);
  }

  lemma OwnStanding<T>(w: Wheel<T>, a: Action<T>, now: nat, t: T)
    requires Good(w) && Concerns(a, t)
    ensures StandingIn(Act(w, a, now).entries, t) == Becomes(Off, Some(a), now)
  {
    hide Insert;
    hide Without;
    hide Sorted;
    hide Stamped;
    var es' := Act(w, a, now).entries;
    ActGood(w, a, now);
    if a.StartIt? {
      var e := Entry(t, now + a.timeout, a.repeat, a.cb, a.user, w.links);
      MembersAfter(w, a, now, e);
      StandsOnce(es', e);
    } else {
      forall j | 0 <= j < |es'|
        ensures es'[j].t != t
      {
        MembersAfter(w, a, now, es'[j]);
      }
      StandsNot(es', t);
    }
  }

  lemma {:induction false} ScriptStands<T>(w: Wheel<T>, script: seq<Action<T>>, now: nat, t: T)
    requires Good(w)
    ensures StandingIn(ActAll(w, script, now).entries, t) == Becomes(StandingIn(w.entries, t), LastOn(script, t), now)
    decreases |script|
  {
    hide Act;
    hide Good;
    hide StandingIn;
    if script != [] {
      var n := |script| - 1;
      ScriptStands(w, script[..n], now, t);
      ActAllGood(w, script[..n], now);
      ActStands(ActAll(w, script[..n], now), script[n], now, t);
    }
  }

  lemma {:induction false} LastOfTwo<T>(a: seq<Action<T>>, b: seq<Action<T>>, t: T)
    ensures LastOn(a + b, t) == if LastOn(b, t).Some? then LastOn(b, t) else LastOn(a, t)
    decreases |b|
  {
    if b == [] {
      assert a + b == a;
    } else {
      var n := |b| - 1;
      LastOfTwo(a, b[..n], t);
      assert (a + b)[..|a + b| - 1] == a + b[..n];
    }
  }

  lemma {:induction false} CallbacksStand<T>(w: Wheel<T>, fire: seq<Fire>, scripts: nat -> seq<Action<T>>, now: nat, t: T)
    requires Good(w)
    ensures StandingIn(Dispatch(w, fire, scripts, now).entries, t)
            == Becomes(StandingIn(w.entries, t), LastOn(AllActions(scripts, |fire|), t), now)
    decreases |fire|
  {
    hide ActAll;
    hide LastOn;
    hide StandingIn;
    hide Sorted;
    hide Distinct;
    hide Stamped;
    if fire == [] {
      NoLast<T>(t);
    } else {
      var n := |fire| - 1;
      CallbacksStand(w, fire[..n], scripts, now, t);
      DispatchGood(w, fire[..n], scripts, now);
      var w1 := Dispatch(w, fire[..n], scripts, now);
      ScriptStands(w1.(log := w1.log + [Called(fire[n].cb, fire[n].user)]), scripts(n), now, t);
      LastOfTwo(AllActions(scripts, n), scripts(n), t);
    }
  }

  lemma NoLast<T>(t: T)
    ensures LastOn<T>([], t) == None
  {
  }

  /** One tick, whatever its callbacks start, stop and free, for every timer: if some callback
      started or stopped it, the last such action decides how it stands afterwards; a start
      makes it due that long from now, with its repeat, callback and user. Otherwise it stands
      as before the tick, unless it was one of the batch: then it is off, or due again one
      period from now. */
  lemma TickLeaves<T>(w: Wheel<T>, scripts: nat -> seq<Action<T>>, now: nat, t: T)
    requires Good(w) && w.entries != []
    ensures var k := Batch(w.entries, now, MAX_FIRE);
            StandingIn(Tick(w, scripts, now).entries, t) ==
              match LastOn(AllActions(scripts, k), t)
              case Some(StartIt(_, cb, user, timeout, repeat)) => On(now + timeout, repeat, cb, user)
              case Some(_) => Off
              case None => WhenCallbacksBegin(w.entries, k, now, t)
  {
    hide LastOn;
    hide AllActions;
    hide StandingIn;
    hide Collect;
    hide Dispatch;
    hide Sorted;
    hide Distinct;
    hide Stamped;
    hide FiresOf;
    var w0 := w.(dispatching := true);
    assert Good(w0);
    var (w1, fire) := Collect(w0, now, []);
    CollectTakesBatch(w0, now, []);
    CollectGood(w0, now, []);
    BatchLeaves(w0, now, t);
    FiresLength(w.entries[..Batch(w.entries, now, MAX_FIRE)]);
    CallbacksStand(w1, fire, scripts, now, t);
  }

  lemma FiresLength<T>(es: seq<Entry<T>>)
    ensures |FiresOf(es)| == |es| && [] + FiresOf(es) == FiresOf(es)
  {
  }

  // ------------------------------------------------------------------
  // Frees
  // ------------------------------------------------------------------

  /** The objects freed, in order. */
  function FreedUsers(log: seq<Event>): seq<nat>
    decreases |log|
  {
    if log == [] then []
    else
      var e := log[|log| - 1];
      FreedUsers(log[..|log| - 1]) + (if e.Freed? then [e.user] else [])
  }

  function FreedIn(log: seq<Event>): multiset<nat> {
    multiset(FreedUsers(log))
  }

  lemma {:induction false} FreedTwo(a: seq<Event>, b: seq<Event>)
    ensures FreedUsers(a + b) == FreedUsers(a) + FreedUsers(b)
    decreases |b|
  {
    if b == [] {
      assert a + b == a;
    } else {
      FreedTwo(a, b[..|b| - 1]);
      assert (a + b)[..|a + b| - 1] == a + b[..|b| - 1];
    }
  }

  lemma FreedInTwo(a: seq<Event>, b: seq<Event>)
    ensures FreedIn(a + b) == FreedIn(a) + FreedIn(b)
  {
    FreedTwo(a, b);
  }

  lemma {:induction false} FreedInFrees(users: seq<nat>)
    ensures FreedIn(Frees(users)) == multiset(users) && FreedUsers(Frees(users)) == users
    decreases |users|
  {
    if users != [] {
      var n := |users| - 1;
      FreedInFrees(users[..n]);
      assert Frees(users)[..n] == Frees(users[..n]);
      assert users == users[..n] + [users[n]];
    }
  }

  lemma FreedInCall(cb: nat, user: nat)
    ensures FreedIn([Called(cb, user)]) == multiset{}
  {
    assert FreedUsers([Called(cb, user)]) == FreedUsers([Called(cb, user)][..0]);
  }

  lemma Parts(frees: seq<nat>, queued: nat)
    ensures multiset(Fitting(frees, queued)) + multiset(Excess(frees, queued)) == multiset(frees)
  {
    assert frees == Fitting(frees, queued) + Excess(frees, queued);
  }

  lemma {:induction false} LateAndFitting<T>(fire: seq<Fire>, scripts: nat -> seq<Action<T>>)
    ensures FreedIn(CallsAndLate(fire, scripts)) + multiset(Fitting(AllFrees(scripts, |fire|), 0))
            == multiset(AllFrees(scripts, |fire|))
    decreases |fire|
  {
    hide Frees;
    hide FreesOf;
    hide AllFrees;
    hide Fitting;
    hide Excess;
    hide FreedIn;
    if fire == [] {
      NothingAsked(scripts);
    } else {
      var n := |fire| - 1;
      LateAndFitting(fire[..n], scripts);
      var front, call, late := CallsAndLate(fire[..n], scripts), [Called(fire[n].cb, fire[n].user)], Late(scripts, n);
      FreedInTwo(front + call, Frees(late));
      FreedInTwo(front, call);
      FreedInCall(fire[n].cb, fire[n].user);
      FreedInFrees(late);
      var all, more := AllFrees(scripts, n), FreesOf(scripts(n));
      OneMoreScript(all, more);
      AllFreesStep(scripts, n);
      Sums(FreedIn(front), multiset(late), multiset(Fitting(all, 0)), multiset(Fitting(all + more, 0)),
           multiset(all), multiset(more));
    }
  }

  lemma NothingAsked<T>(scripts: nat -> seq<Action<T>>)
    ensures FreedIn([]) + multiset(Fitting(AllFrees(scripts, 0), 0)) == multiset(AllFrees(scripts, 0))
    ensures CallsAndLate([], scripts) == []
  {
  }

  lemma Sums(front: multiset<nat>, late: multiset<nat>, fit: multiset<nat>, fit': multiset<nat>, all: multiset<nat>, more: multiset<nat>)
    requires front + fit == all && fit' + late == fit + more
    ensures front + multiset{} + late + fit' == all + more
  {
    assert front + multiset{} + late + fit' == front + (fit' + late);
    assert front + (fit + more) == front + fit + more;
  }

  lemma AllFreesStep<T>(scripts: nat -> seq<Action<T>>, n: nat)
    ensures AllFrees(scripts, n + 1) == AllFrees(scripts, n) + FreesOf(scripts(n))
  {
  }

  lemma OneMoreScript(all: seq<nat>, more: seq<nat>)
    ensures multiset(Fitting(all + more, 0)) + multiset(Excess(more, |all|)) == multiset(Fitting(all, 0)) + multiset(more)
  {
    var all' := all + more;
    if |all| >= MAX_DEFER {
      assert Fitting(all', 0) == Fitting(all, 0) && Excess(more, |all|) == more;
    } else {
      assert Fitting(all, 0) == all;
      assert Fitting(all', 0) == all + Fitting(more, |all|);
      Parts(more, |all|);
    }
  }

  /** Every free asked for in a tick happens in it, once. */
  lemma TickFreesAll<T>(w: Wheel<T>, scripts: nat -> seq<Action<T>>, now: nat)
    requires w.deferred == [] && w.entries != []
    ensures var w' := Tick(w, scripts, now);
            && FreedIn(w'.log) == FreedIn(w.log) + multiset(AllFrees(scripts, Batch(w.entries, now, MAX_FIRE)))
            && w'.deferred == [] && !w'.dispatching
  {
    hide Collect;
    hide Dispatch;
    hide CallsAndLate;
    hide AllFrees;
    hide Fitting;
    hide Frees;
    hide FreedIn;
    TickLog(w, scripts, now);
    var k := Batch(w.entries, now, MAX_FIRE);
    var fire := FiresOf(w.entries[..k]);
    var calls, last := CallsAndLate(fire, scripts), Fitting(AllFrees(scripts, k), 0);
    FreedInTwo(w.log + calls, Frees(last));
    FreedInTwo(w.log, calls);
    FreedInFrees(last);
    LateAndFitting(fire, scripts);
  }

  /** What a run asks to free. */
  function AskedToFree<T(==)>(w: Wheel<T>, steps: seq<Step<T>>): multiset<nat>
    decreases |steps|
  {
    if steps == [] then multiset{}
    else
      (match steps[0]
       case DoFree(user) => multiset{user}
       case DoTick(scripts, now) =>
         if w.entries == [] then multiset{} else multiset(AllFrees(scripts, Batch(w.entries, now, MAX_FIRE)))
       case _ => multiset{})
      + AskedToFree(Do(w, steps[0]), steps[1..])
  }

  /** Over every run: what was asked to be freed is freed, each time once, and nothing else. */
  lemma {:induction false} RunFreesAll<T>(w: Wheel<T>, steps: seq<Step<T>>)
    requires Idle(w)
    ensures Idle(Run(w, steps)) && FreedIn(Run(w, steps).log) == FreedIn(w.log) + AskedToFree(w, steps)
    decreases |steps|
  {
    hide FreedIn;
    hide Tick;
    hide AllFrees;
    if steps != [] {
      var e := steps[0];
      StepFrees(w, e);
      RunFreesAll(Do(w, e), steps[1..]);
    }
  }

  lemma StepFrees<T>(w: Wheel<T>, e: Step<T>)
    requires Idle(w)
    ensures Idle(Do(w, e))
    ensures FreedIn(Do(w, e).log) == FreedIn(w.log) +
              match e
              case DoFree(user) => multiset{user}
              case DoTick(scripts, now) =>
                if w.entries == [] then multiset{} else multiset(AllFrees(scripts, Batch(w.entries, now, MAX_FIRE)))
              case _ => multiset{}
  {
    hide Collect;
    hide Dispatch;
    hide AllFrees;
    DoIdle(w, e);
    if e.DoTick? && w.entries != [] {
      TickFreesAll(w, e.scripts, e.now);
    }
  }
}
