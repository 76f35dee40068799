/** The timer wheel itself: an intrusive doubly linked list, relinked in place. */
module TimerWheelRecord {
  import opened TimerSpec

  class QuicTimer {
    var dueMs: nat
    var repeatMs: nat
    var cb: nat
    var user: nat
    var active: bool
    var next: QuicTimer?
    var prev: QuicTimer?

    constructor ()
      ensures !active && next == null && prev == null
    {
      dueMs, repeatMs, cb, user := 0, 0, 0, 0;
      active, next, prev := false, null, null;
    }

    ghost function Fields(): Node
      reads this
    {
      Node(dueMs, repeatMs, cb, user, active, next, prev)
    }
  }

  /** The fields of a timer at one moment. */
  datatype Node = Node(due: nat, repeat: nat, cb: nat, user: nat, active: bool, next: QuicTimer?, prev: QuicTimer?)

  type Fields = map<QuicTimer, Node>

  // ---- what it means for linked nodes to stand for a sequence ----

  function TimerAt(es: seq<Entry<QuicTimer>>, i: int): QuicTimer? {
    if 0 <= i < |es| then es[i].t else null
  }

  predicate OnList(es: seq<Entry<QuicTimer>>, t: QuicTimer) {
    IndexOf(es, t) < |es|
  }

  /** The `i`-th timer carries the `i`-th entry and is linked to its neighbours. */
  ghost predicate NodeAt(m: Fields, es: seq<Entry<QuicTimer>>, i: nat)
    requires i < |es|
  {
    && es[i].t in m
    && var n := m[es[i].t];
      && n.active && n.due == es[i].due && n.repeat == es[i].repeat && n.cb == es[i].cb && n.user == es[i].user
      && n.next == TimerAt(es, i + 1) && n.prev == TimerAt(es, i - 1)
  }

  ghost predicate Linked(m: Fields, head: QuicTimer?, es: seq<Entry<QuicTimer>>) {
    && head == TimerAt(es, 0)
    && (forall i :: 0 <= i < |es| ==> NodeAt(m, es, i))
    && (forall t :: t in m && m[t].active ==> OnList(es, t))
    && Distinct(es)
  }

  // ---- the two list operations on such nodes ----

  ghost function SetNext(m: Fields, t: QuicTimer?, next: QuicTimer?): Fields {
    if t != null && t in m then m[t := m[t].(next := next)] else m
  }

  ghost function SetPrev(m: Fields, t: QuicTimer?, prev: QuicTimer?): Fields {
    if t != null && t in m then m[t := m[t].(prev := prev)] else m
  }

  ghost function Unlinked(m: Fields, t: QuicTimer): Fields
    requires t in m
  {
    var n := m[t];
    SetPrev(SetNext(m, n.prev, n.next), n.next, n.prev)[t := n.(next := null, prev := null, active := false)]
  }

  ghost function LinkedBetween(m: Fields, t: QuicTimer, prev: QuicTimer?, next: QuicTimer?): Fields
    requires t in m
  {
    SetPrev(SetNext(m[t := m[t].(prev := prev, next := next, active := true)], prev, t), next, t)
  }

  lemma UnlinkedIsLinked(m: Fields, head: QuicTimer?, es: seq<Entry<QuicTimer>>, t: QuicTimer)
    requires Linked(m, head, es) && t in m && OnList(es, t)
    ensures var n := m[t];
            Linked(Unlinked(m, t), if n.prev != null then head else n.next, Without(es, t))
  {
    hide Without;
    var k := IndexOf(es, t);
    var es' := Without(es, t);
    WithoutTakesOut(es, t);
    assert NodeAt(m, es, k);
    var m' := Unlinked(m, t);
    forall i | 0 <= i < |es'|
      ensures NodeAt(m', es', i)
    {
      assert NodeAt(m, es, if i < k then i else i + 1);
    }
    forall x | x in m' && m'[x].active
      ensures OnList(es', x)
    {
      var j := IndexOf(es, x);
      assert es'[if j < k then j else j - 1].t == x;
    }
  }

  lemma LinkedBetweenAt(m: Fields, head: QuicTimer?, es: seq<Entry<QuicTimer>>, e: Entry<QuicTimer>,
                        p: nat, es': seq<Entry<QuicTimer>>, i: nat)
    requires Linked(m, head, es) && e.t in m && !m[e.t].active && PutIn(es, e, p, es') && i < |es'|
    requires m[e.t].due == e.due && m[e.t].repeat == e.repeat && m[e.t].cb == e.cb && m[e.t].user == e.user
    ensures NodeAt(LinkedBetween(m, e.t, TimerAt(es, p - 1), TimerAt(es, p)), es', i)
  {
    assert p < |es| ==> NodeAt(m, es, p);
    assert p > 0 ==> NodeAt(m, es, p - 1);
    if i != p {
      var j := if i < p then i else i - 1;
      assert NodeAt(m, es, j);
      assert p < |es| && j != p ==> es[j].t != es[p].t;
      assert p > 0 && j != p - 1 ==> es[j].t != es[p - 1].t;
      assert TimerAt(es', i + 1) == if i + 1 < p then TimerAt(es, i + 1) else if i + 1 == p then e.t else TimerAt(es, i);
      assert i > 0 ==> TimerAt(es', i - 1) == if i <= p then TimerAt(es, i - 1) else if i == p + 1 then e.t else TimerAt(es, i - 2);
    }
  }

  lemma LinkedBetweenActive(m: Fields, head: QuicTimer?, es: seq<Entry<QuicTimer>>, e: Entry<QuicTimer>,
                            p: nat, es': seq<Entry<QuicTimer>>, x: QuicTimer)
    requires Linked(m, head, es) && e.t in m && PutIn(es, e, p, es')
    requires var m' := LinkedBetween(m, e.t, TimerAt(es, p - 1), TimerAt(es, p)); x in m' && m'[x].active
    ensures OnList(es', x)
  {
    if x == e.t {
      assert es'[p].t == x;
    } else {
      assert OnList(es, x);
      var j := IndexOf(es, x);
      assert es'[if j < p then j else j + 1].t == x;
    }
  }

  lemma NoneIsNew(m: Fields, head: QuicTimer?, es: seq<Entry<QuicTimer>>, t: QuicTimer)
    requires Linked(m, head, es) && t in m && !m[t].active
    ensures forall i :: 0 <= i < |es| ==> es[i].t != t
  {
    forall i | 0 <= i < |es|
      ensures es[i].t != t
    {
      assert NodeAt(m, es, i);
    }
  }

  lemma LinkedBetweenIsLinked(m: Fields, head: QuicTimer?, es: seq<Entry<QuicTimer>>, e: Entry<QuicTimer>)
    requires Linked(m, head, es) && e.t in m && !m[e.t].active
    requires m[e.t].due == e.due && m[e.t].repeat == e.repeat && m[e.t].cb == e.cb && m[e.t].user == e.user
    ensures var p := Position(es, e.due);
            Linked(LinkedBetween(m, e.t, TimerAt(es, p - 1), TimerAt(es, p)),
                   if p == 0 then e.t else head, Insert(es, e))
  {
    hide NodeAt;
    hide Linked;
    hide LinkedBetween;
    hide Insert;
    hide PutIn;
    hide OnList;
    var p: int := Position(es, e.due);
    var es' := Insert(es, e);
    InsertPutsIn(es, e);
    var m' := LinkedBetween(m, e.t, TimerAt(es, p - 1), TimerAt(es, p));
    forall i | 0 <= i < |es'|
      ensures NodeAt(m', es', i)
    {
      LinkedBetweenAt(m, head, es, e, p, es', i);
    }
    forall x | x in m' && m'[x].active
      ensures OnList(es', x)
    {
      LinkedBetweenActive(m, head, es, e, p, es', x);
    }
    NoneIsNew(m, head, es, e.t);
    MakesLinked(m, head, m', es, e, p, es');
  }

  lemma MakesLinked(m: Fields, head: QuicTimer?, m': Fields, es: seq<Entry<QuicTimer>>, e: Entry<QuicTimer>,
                    p: nat, es': seq<Entry<QuicTimer>>)
    requires Linked(m, head, es) && PutIn(es, e, p, es')
    requires forall i :: 0 <= i < |es| ==> es[i].t != e.t
    requires forall i :: 0 <= i < |es'| ==> NodeAt(m', es', i)
    requires forall x :: x in m' && m'[x].active ==> OnList(es', x)
    ensures Linked(m', if p == 0 then e.t else head, es')
  {
  }

  lemma OnListIsActive(m: Fields, head: QuicTimer?, es: seq<Entry<QuicTimer>>, t: QuicTimer)
    requires Linked(m, head, es) && t in m
    ensures m[t].active <==> OnList(es, t)
    ensures !OnList(es, t) ==> Without(es, t) == es
  {
    var k := IndexOf(es, t);
    assert k < |es| ==> NodeAt(m, es, k);
  }

  lemma OnListHasNeighbours(m: Fields, head: QuicTimer?, es: seq<Entry<QuicTimer>>, t: QuicTimer)
    requires Linked(m, head, es) && OnList(es, t)
    ensures t in m && (m[t].prev != null ==> m[t].prev in m) && (m[t].next != null ==> m[t].next in m)
  {
    var k := IndexOf(es, t);
    assert NodeAt(m, es, k);
    assert k + 1 < |es| ==> NodeAt(m, es, k + 1);
    assert k > 0 ==> NodeAt(m, es, k - 1);
  }

  lemma FirstOfList(m: Fields, head: QuicTimer?, es: seq<Entry<QuicTimer>>)
    requires Linked(m, head, es)
    ensures if es == [] then head == null else
            head == es[0].t && head in m && Without(es, head) == es[1..] &&
            m[head].due == es[0].due && m[head].repeat == es[0].repeat && m[head].cb == es[0].cb && m[head].user == es[0].user
  {
    if es != [] {
      assert NodeAt(m, es, 0);
      assert es[..0] + es[1..] == es[1..];
    }
  }

  /** Changing the record of a timer that is not in the list changes nothing in it. */
  lemma IdleIsFree(m: Fields, head: QuicTimer?, es: seq<Entry<QuicTimer>>, t: QuicTimer, n: Node)
    requires Linked(m, head, es) && t in m && !m[t].active && !n.active
    ensures Linked(m[t := n], head, es)
  {
    var m' := m[t := n];
    forall i | 0 <= i < |es|
      ensures NodeAt(m', es, i)
    {
      assert NodeAt(m, es, i);
    }
  }

  class TimerWheel {
    var head: QuicTimer?
    var dispatching: bool
    const deferPtr: array<nat>
    var deferN: nat
    /** What the list stands for, and the timers that may be in it. */
    ghost var abs: Wheel<QuicTimer>
    ghost var pool: set<QuicTimer>

    ghost function Nodes(): Fields
      reads this`pool, pool
    {
      map t | t in pool :: t.Fields()
    }

    ghost predicate Valid()
      reads this, pool, deferPtr
    {
      && Linked(Nodes(), head, abs.entries)
      && abs.dispatching == dispatching
      && deferPtr.Length == MAX_DEFER && deferN <= MAX_DEFER && abs.deferred == deferPtr[..deferN]
    }

    constructor (timers: set<QuicTimer>)
      requires forall t :: t in timers ==> !t.active
      ensures Valid() && pool == timers && abs == Wheel([], 0, false, [], [])
      ensures fresh(this) && fresh(deferPtr)
    {
      head, dispatching, deferN := null, false, 0;
      deferPtr := new nat[MAX_DEFER];
      abs := Wheel([], 0, false, [], []);
      pool := timers;
    }

    method IsActive(t: QuicTimer) returns (r: bool)
      requires Valid() && t in pool
      ensures r <==> OnList(abs.entries, t)
    {
      r := t.active;
      ghost var k := IndexOf(abs.entries, t);
      assert k < |abs.entries| ==> NodeAt(Nodes(), abs.entries, k);
      assert Nodes()[t].active == t.active;
    }

    method PutNext(t: QuicTimer, next: QuicTimer?)
      requires t in pool
      modifies t`next
      ensures Nodes() == SetNext(old(Nodes()), t, next)
    {
      t.next := next;
    }

    method PutPrev(t: QuicTimer, prev: QuicTimer?)
      requires t in pool
      modifies t`prev
      ensures Nodes() == SetPrev(old(Nodes()), t, prev)
    {
      t.prev := prev;
    }

    method PutLinks(t: QuicTimer, prev: QuicTimer?, next: QuicTimer?, active: bool)
      requires t in pool
      modifies t`prev, t`next, t`active
      ensures t.active == active
      ensures Nodes() == old(Nodes())[t := old(t.Fields()).(prev := prev, next := next, active := active)]
    {
      t.next := next;
      t.prev := prev;
      t.active := active;
    }

    /** The pointer updates that take a timer out. */
    method TakeOut(t: QuicTimer)
      requires t in pool && (t.prev != null ==> t.prev in pool) && (t.next != null ==> t.next in pool)
      modifies this`head, pool
      ensures Nodes() == Unlinked(old(Nodes()), t)
      ensures head == if old(t.prev) != null then old(head) else old(t.next)
      ensures !t.active
    {
      var prev, next := t.prev, t.next;
      assert Nodes()[t] == t.Fields();
      hide Nodes;
      hide SetNext;
      hide SetPrev;
      if prev != null {
        PutNext(prev, next);
      } else {
        head := next;
      }
      if next != null {
        PutPrev(next, prev);
      }
      PutLinks(t, null, null, false);
    }

    method Unlink(t: QuicTimer)
      requires Valid() && t in pool
      modifies this`head, this`abs, pool
      ensures Valid() && !t.active
      ensures abs == Stop(old(abs), t)
    {
      hide Linked;
      hide Without;
      hide Unlinked;
      assert Nodes()[t] == t.Fields();
      OnListIsActive(Nodes(), head, abs.entries, t);
      if t.active {
        UnlinkedIsLinked(Nodes(), head, abs.entries, t);
        OnListHasNeighbours(Nodes(), head, abs.entries, t);
        TakeOut(t);
      }
      abs := Stop(abs, t);
    }

    /** The pointer updates that put a timer between two others. */
    method PutBetween(t: QuicTimer, prev: QuicTimer?, cur: QuicTimer?)
      requires t in pool && (prev != null ==> prev in pool) && (cur != null ==> cur in pool)
      modifies this`head, pool
      ensures Nodes() == LinkedBetween(old(Nodes()), t, prev, cur)
      ensures head == if prev != null then old(head) else t
    {
      assert Nodes()[t] == t.Fields();
      hide Nodes;
      hide SetNext;
      hide SetPrev;
      PutLinks(t, prev, cur, true);
      if prev != null {
        PutNext(prev, t);
      } else {
        head := t;
      }
      if cur != null {
        PutPrev(cur, t);
      }
    }

    /** The two timers a new one goes between. */
    method FindPlace(t: QuicTimer) returns (prev: QuicTimer?, cur: QuicTimer?)
      requires Valid() && t in pool
      ensures var p := Position(abs.entries, t.dueMs); prev == TimerAt(abs.entries, p - 1) && cur == TimerAt(abs.entries, p)
      ensures prev != null ==> prev in pool
      ensures cur != null ==> cur in pool
      ensures prev == null <==> Position(abs.entries, t.dueMs) == 0
    {
      ghost var es := abs.entries;
      ghost var p := 0;
      prev, cur := null, head;
      while cur != null && cur.dueMs <= t.dueMs
        invariant p <= |es| && cur == TimerAt(es, p) && prev == TimerAt(es, p - 1)
        invariant forall i :: 0 <= i < p ==> es[i].due <= t.dueMs
        decreases |es| - p
      {
        assert NodeAt(Nodes(), es, p);
        prev := cur;
        cur := cur.next;
        p := p + 1;
      }
      assert p < |es| ==> NodeAt(Nodes(), es, p);
      assert p > 0 ==> NodeAt(Nodes(), es, p - 1);
      PositionIs(es, t.dueMs, p);
    }

    method LinkSorted(t: QuicTimer)
      requires Valid() && t in pool && !t.active
      modifies this`head, this`abs, pool
      ensures Valid()
      ensures abs == old(abs).(entries := Insert(old(abs).entries,
                Entry(t, old(t.dueMs), old(t.repeatMs), old(t.cb), old(t.user), old(abs).links)), links := old(abs).links + 1)
    {
      hide Linked;
      hide Insert;
      hide Position;
      hide LinkedBetween;
      ghost var e := Entry(t, t.dueMs, t.repeatMs, t.cb, t.user, abs.links);
      assert Nodes()[t] == t.Fields();
      LinkedBetweenIsLinked(Nodes(), head, abs.entries, e);
      var prev, cur := FindPlace(t);
      PutBetween(t, prev, cur);
      abs := abs.(entries := Insert(abs.entries, e), links := abs.links + 1);
    }

    method Start(t: QuicTimer, cb: nat, user: nat, timeoutMs: nat, repeatMs: nat, now: nat)
      requires Valid() && t in pool
      modifies this`head, this`abs, pool
      ensures Valid()
      ensures abs == TimerSpec.Start(old(abs), t, cb, user, now + timeoutMs, repeatMs)
    {
      hide Linked;
      hide Insert;
      hide Without;
      Unlink(t);
      SetUp(t, cb, user, now + timeoutMs, repeatMs);
      LinkSorted(t);
    }

    /** Fills in a timer that is not in the list. */
    method SetUp(t: QuicTimer, cb: nat, user: nat, dueMs: nat, repeatMs: nat)
      requires Valid() && t in pool && !t.active
      modifies t`cb, t`user, t`repeatMs, t`dueMs
      ensures Valid() && !t.active
      ensures t.cb == cb && t.user == user && t.repeatMs == repeatMs && t.dueMs == dueMs
    {
      hide Linked;
      ghost var m := Nodes();
      assert m[t] == t.Fields();
      t.cb := cb;
      t.user := user;
      t.repeatMs := repeatMs;
      t.dueMs := dueMs;
      assert Nodes() == m[t := t.Fields()];
      IdleIsFree(m, head, abs.entries, t, t.Fields());
    }

    method DeferFree(user: nat)
      requires Valid()
      modifies this`deferN, this`abs, deferPtr
      ensures Valid() && abs == TimerSpec.DeferFree(old(abs), user)
    {
      hide Linked;
      if dispatching && deferN < MAX_DEFER {
        deferPtr[deferN] := user;
        deferN := deferN + 1;
      }
      abs := TimerSpec.DeferFree(abs, user);
    }

    /** The timers that callbacks touch are known ones. */
    ghost predicate Known(script: seq<Action<QuicTimer>>)
      reads this`pool
    {
      forall i :: 0 <= i < |script| ==>
        (script[i].StartIt? ==> script[i].t in pool) && (script[i].StopIt? ==> script[i].s in pool)
    }

    method Perform(a: Action<QuicTimer>, now: nat)
      requires Valid()
      requires (a.StartIt? ==> a.t in pool) && (a.StopIt? ==> a.s in pool)
      modifies this`head, this`abs, this`deferN, deferPtr, pool
      ensures Valid() && abs == Act(old(abs), a, now)
    {
      hide Valid;
      hide TimerSpec.Start;
      hide TimerSpec.Stop;
      hide TimerSpec.DeferFree;
      match a
      case StartIt(t, cb, user, timeout, repeat) => Start(t, cb, user, timeout, repeat, now);
      case StopIt(t) => Unlink(t);
      case Free(user) => DeferFree(user);
    }

    /** One callback; `script` is what its body does to the wheel. */
    method Callback(f: Fire, script: seq<Action<QuicTimer>>, now: nat)
      requires Valid() && Known(script)
      modifies this`head, this`abs, this`deferN, deferPtr, pool
      ensures Valid()
      ensures abs == ActAll(old(abs).(log := old(abs).log + [Called(f.cb, f.user)]), script, now)
    {
      LogCall(f);
      hide Valid;
      hide Act;
      ghost var w := abs;
      var i := 0;
      assert script[..0] == [];
      while i < |script|
        invariant i <= |script| && Valid() && abs == ActAll(w, script[..i], now)
      {
        Perform(script[i], now);
        assert script[..i + 1][..i] == script[..i];
        i := i + 1;
      }
      assert script[..|script|] == script;
    }

    method LogCall(f: Fire)
      requires Valid()
      modifies this`abs
      ensures Valid() && abs == old(abs).(log := old(abs).log + [Called(f.cb, f.user)])
    {
      hide Linked;
      abs := abs.(log := abs.log + [Called(f.cb, f.user)]);
    }

    /** The head leaves the list and, if it repeats, is linked in again. */
    method TakeFirst(now: nat) returns (f: Fire)
      requires Valid() && abs.entries != []
      modifies this`head, this`abs, pool
      ensures Valid() && abs == TakeHead(old(abs), now)
      ensures f == Fire(old(abs).entries[0].cb, old(abs).entries[0].user)
    {
      hide Linked;
      hide Insert;
      hide Without;
      FirstOfList(Nodes(), head, abs.entries);
      var t := head;
      assert Nodes()[t] == t.Fields();
      var repeat := t.repeatMs;
      f := Fire(t.cb, t.user);
      Unlink(t);
      if repeat > 0 {
        SetUp(t, f.cb, f.user, now + repeat, repeat);
        LinkSorted(t);
      }
    }

    /** Every due timer leaves the list, its callback copied, before any is called. */
    method CollectDue(now: nat) returns (fire: array<Fire>, n: nat)
      requires Valid()
      modifies this`head, this`abs, pool
      ensures Valid() && fresh(fire) && n <= fire.Length
      ensures (abs, fire[..n]) == Collect(old(abs), now, [])
    {
      hide *;
      fire := new Fire[MAX_FIRE](_ => Fire(0, 0));
      n := 0;
      ghost var w := abs;
      assert fire[..0] == [];
      IsTaking(now, 0);
      while head != null && head.dueMs <= now && n < MAX_FIRE
        invariant Valid() && n <= MAX_FIRE == fire.Length
        invariant Collect(abs, now, fire[..n]) == Collect(w, now, [])
        decreases MAX_FIRE - n
      {
        IsTaking(now, n);
        CollectStep(abs, now, fire[..n]);
        ghost var done := fire[..n];
        fire[n] := TakeFirst(now);
        n := n + 1;
        assert fire[..n] == done + [fire[n - 1]];
      }
      IsTaking(now, n);
      CollectStep(abs, now, fire[..n]);
    }

    lemma IsTaking(now: nat, n: nat)
      requires Valid()
      ensures head != null && head.dueMs <= now && n < MAX_FIRE <==> Takes(abs, now, n)
      ensures head != null <==> abs.entries != []
    {
      hide Linked;
      FirstOfList(Nodes(), head, abs.entries);
      assert head != null ==> Nodes()[head] == head.Fields();
    }

    method CallAll(fire: array<Fire>, n: nat, scripts: nat -> seq<Action<QuicTimer>>, now: nat)
      requires Valid() && n <= fire.Length && forall i :: Known(scripts(i))
      modifies this`head, this`abs, this`deferN, deferPtr, pool
      ensures Valid() && abs == Dispatch(old(abs), old(fire[..n]), scripts, now)
    {
      hide *;
      ghost var w, all := abs, fire[..n];
      var i := 0;
      DispatchStep(w, all, 0, scripts, now);
      while i < n
        invariant i <= n && Valid() && fire[..n] == all
        invariant abs == Dispatch(w, all[..i], scripts, now)
      {
        DispatchStep(w, all, i, scripts, now);
        assert fire[i] == all[i];
        Callback(fire[i], scripts(i), now);
        i := i + 1;
      }
      assert all[..n] == all;
    }

    method RunDeferredFrees()
      requires Valid()
      modifies this`deferN, this`abs, deferPtr
      ensures Valid() && abs == RunDeferred(old(abs))
    {
      hide Linked;
      var n := deferN;
      ghost var w := abs;
      deferN := 0;
      abs := abs.(deferred := []);
      assert w.log + Frees(w.deferred[..0]) == w.log;
      var i := 0;
      while i < n
        invariant i <= n <= MAX_DEFER && Valid() && deferN == 0
        invariant forall j :: i <= j < n ==> deferPtr[j] == w.deferred[j]
        invariant abs == w.(log := w.log + Frees(w.deferred[..i]), deferred := [])
      {
        assert Frees(w.deferred[..i + 1]) == Frees(w.deferred[..i]) + [Freed(w.deferred[i])];
        abs := abs.(log := abs.log + [Freed(deferPtr[i])]);
        deferPtr[i] := 0;
        i := i + 1;
      }
      assert w.deferred[..n] == w.deferred;
    }

    method OnWheel(scripts: nat -> seq<Action<QuicTimer>>, now: nat)
      requires Valid() && forall i :: Known(scripts(i))
      modifies this, deferPtr, pool
      ensures Valid() && pool == old(pool)
      ensures abs == Tick(old(abs), scripts, now)
    {
      hide Valid;
      hide Known;
      hide Collect;
      hide Dispatch;
      hide RunDeferred;
      IsTaking(now, 0);
      if head == null {
        return;
      }
      SetDispatching(true);
      var fire, n := CollectDue(now);
      CallAll(fire, n, scripts, now);
      SetDispatching(false);
      RunDeferredFrees();
    }

    method SetDispatching(b: bool)
      requires Valid()
      modifies this`dispatching, this`abs
      ensures Valid() && abs == old(abs).(dispatching := b)
    {
      hide Linked;
      dispatching := b;
      abs := abs.(dispatching := b);
    }
  }

  lemma DispatchStep(w: Wheel<QuicTimer>, fire: seq<Fire>, i: nat, scripts: nat -> seq<Action<QuicTimer>>, now: nat)
    requires i <= |fire|
    ensures Dispatch(w, fire[..0], scripts, now) == w
    ensures i < |fire| ==>
              var w1 := Dispatch(w, fire[..i], scripts, now);
              Dispatch(w, fire[..i + 1], scripts, now) ==
                ActAll(w1.(log := w1.log + [Called(fire[i].cb, fire[i].user)]), scripts(i), now)
  {
    if i < |fire| {
      assert fire[..i + 1][..i] == fire[..i];
    }
  }
}
