/** Opening a stream is asked for in one place and answered in another: an intent waits in
    the session until a callback brings a stream of its class. */
module OpenIntentSpec {

  const QUEUE_MAX: nat := 1024

  /** A group stream is unidirectional, the others are not. SETUP has no intent. */
  datatype Kind = Group | Announce | Track | Subscribe

  datatype Intent = Intent(kind: Kind, who: nat)

  datatype Task = Open(uni: bool) | Close | Other

  datatype Binding = Binding(stream: nat, intent: Intent)

  /** `asked` and `bound` record all intents ever queued and the streams given to them;
      `wanted` counts SETUP requests, `setups` the streams that became one; `lost` counts
      opens dropped or failed, by class. */
  datatype Session = Session(
    tasks: seq<Task>, intents: seq<Intent>, nextStream: nat,
    asked: seq<Intent>, bound: seq<Binding>,
    wanted: nat, setups: seq<nat>, rejected: seq<nat>,
    lostUni: nat, lostBidi: nat)

  const INIT := Session([], [], 0, [], [], 0, [], [], 0, 0)

  predicate IsUni(i: Intent) {
    i.kind == Group
  }

  // ---- the task queue ----

  predicate Refused(tasks: seq<Task>, t: Task) {
    t != Close && |tasks| >= QUEUE_MAX
  }

  function Push(tasks: seq<Task>, t: Task): seq<Task> {
    if Refused(tasks, t) then tasks else tasks + [t]
  }

  /** An open of that class did not come about. */
  function Lose(s: Session, uni: bool): Session {
    if uni then s.(lostUni := s.lostUni + 1) else s.(lostBidi := s.lostBidi + 1)
  }

  function PushOpen(s: Session, uni: bool): Session {
    var s1 := s.(tasks := Push(s.tasks, Open(uni)));
    if Refused(s.tasks, Open(uni)) then Lose(s1, uni) else s1
  }

  /** A task is appended exactly while fewer than 1024 wait; CLOSE always is. */
  lemma PushAppendsIff(tasks: seq<Task>, t: Task)
    ensures Push(tasks, t) == (if t == Close || |tasks| < 1024 then tasks + [t] else tasks)
  {
  }

  // ---- intents ----

  function Ask(s: Session, i: Intent): Session {
    PushOpen(s.(intents := s.intents + [i], asked := s.asked + [i]), IsUni(i))
  }

  /** Index of the first intent of the class. */
  function FirstOf(intents: seq<Intent>, uni: bool): (k: nat)
    ensures k <= |intents|
    ensures k < |intents| ==> IsUni(intents[k]) == uni
    ensures forall j :: 0 <= j < k ==> IsUni(intents[j]) != uni
    decreases |intents|
  {
    if intents == [] || IsUni(intents[0]) == uni then 0 else 1 + FirstOf(intents[1..], uni)
  }

  /** A stream of that class has been opened: the callback binds it. */
  function Opened(s: Session, uni: bool): Session {
    var k := FirstOf(s.intents, uni);
    var st := s.nextStream;
    var s1 := s.(nextStream := st + 1);
    if k < |s.intents| then
      s1.(intents := s.intents[..k] + s.intents[k + 1..], bound := s.bound + [Binding(st, s.intents[k])])
    else if uni then s1.(setups := s.setups + [st])
    else s1.(rejected := s.rejected + [st])
  }

  /** async_cb takes one task; `ok` says that the connection is up and a stream was to be
      had. */
  function RunOne(s: Session, ok: bool): Session {
    if s.tasks == [] then s
    else
      var s1 := s.(tasks := s.tasks[1..]);
      match s.tasks[0]
      case Open(uni) => if ok then Opened(s1, uni) else Lose(s1, uni)
      case _ => s1
  }

  datatype Event = Connected | Asks(i: Intent) | PushOther(t: Task) | RunsOne(ok: bool)

  function Step(s: Session, e: Event): Session {
    match e
    case Connected => PushOpen(s.(wanted := s.wanted + 1), true)
    case Asks(i) => Ask(s, i)
    case PushOther(t) => if t.Open? then s else s.(tasks := Push(s.tasks, t))
    case RunsOne(ok) => RunOne(s, ok)
  }

  /** Any other task waits in the same line, and touches nothing else. */
  lemma OtherTasksWait(s: Session, t: Task)
    requires !t.Open?
    ensures Step(s, PushOther(t)) == s.(tasks := if t == Close || |s.tasks| < 1024 then s.tasks + [t] else s.tasks)
  {
  }

  function Run(s: Session, es: seq<Event>): Session
    decreases |es|
  {
    if es == [] then s else Run(Step(s, es[0]), es[1..])
  }

  // ------------------------------------------------------------------
  // Properties
  // ------------------------------------------------------------------

  function OpensIn(tasks: seq<Task>, uni: bool): nat
    decreases |tasks|
  {
    if tasks == [] then 0
    else (if tasks[0] == Open(uni) then 1 else 0) + OpensIn(tasks[1..], uni)
  }

  /** The intents of one class, in order. */
  function Class(intents: seq<Intent>, uni: bool): seq<Intent>
    decreases |intents|
  {
    if intents == [] then []
    else (if IsUni(intents[0]) == uni then [intents[0]] else []) + Class(intents[1..], uni)
  }

  function IntentsOf(bound: seq<Binding>): seq<Intent> {
    seq(|bound|, i requires 0 <= i < |bound| => bound[i].intent)
  }

  /** Every stream asked for is outstanding, came, or was lost; within a class, intents are
      served in the order they were asked for. */
  predicate Balanced(s: Session) {
    && |Class(s.intents, true)| + s.wanted == OpensIn(s.tasks, true) + s.lostUni + |s.setups|
    && |Class(s.intents, false)| == OpensIn(s.tasks, false) + s.lostBidi
    && s.rejected == [] && |s.setups| <= s.wanted
    && Served(s, true) && Served(s, false)
  }

  predicate Served(s: Session, uni: bool) {
    Class(s.asked, uni) == Class(IntentsOf(s.bound), uni) + Class(s.intents, uni)
  }

  lemma ClassOf(intents: seq<Intent>, i: Intent, rest: seq<Intent>, uni: bool)
    requires intents == [i] + rest
    ensures Class(intents, uni) == (if IsUni(i) == uni then [i] else []) + Class(rest, uni)
  {
    assert intents[1..] == rest;
  }

  lemma {:induction false} ClassPush(intents: seq<Intent>, i: Intent, uni: bool)
    ensures Class(intents + [i], uni) == Class(intents, uni) + (if IsUni(i) == uni then [i] else [])
    decreases |intents|
  {
    if intents == [] {
      assert [] + [i] == [i];
      assert [i][1..] == [];
    } else {
      ClassPush(intents[1..], i, uni);
      ClassOf(intents + [i], intents[0], intents[1..] + [i], uni);
      ClassOf(intents, intents[0], intents[1..], uni);
      hide Class;
    }
  }

  lemma {:induction false} OpensPush(tasks: seq<Task>, t: Task, uni: bool)
    ensures OpensIn(tasks + [t], uni) == OpensIn(tasks, uni) + (if t == Open(uni) then 1 else 0)
    decreases |tasks|
  {
    if tasks == [] {
      assert [] + [t] == [t];
      assert [t][1..] == [];
    } else {
      OpensPush(tasks[1..], t, uni);
      assert (tasks + [t])[1..] == tasks[1..] + [t];
    }
  }

  /** Taking the first of a class out: that class loses its head, the other nothing. */
  lemma {:induction false} TakeFirst(intents: seq<Intent>, uni: bool, k: nat)
    requires k == FirstOf(intents, uni)
    ensures if k < |intents| then
              var rest := intents[..k] + intents[k + 1..];
              Class(intents, uni) == [intents[k]] + Class(rest, uni) && Class(rest, !uni) == Class(intents, !uni)
            else Class(intents, uni) == []
    decreases |intents|
  {
    if intents != [] && IsUni(intents[0]) != uni {
      var tail := intents[1..];
      TakeFirst(tail, uni, k - 1);
      assert intents == [intents[0]] + tail;
      TakeBehind(intents[0], tail, k - 1, uni);
      hide Class;
    } else if intents != [] {
      assert intents[..0] + intents[1..] == intents[1..];
    }
  }

  lemma TakeBehind(i: Intent, tail: seq<Intent>, k: nat, uni: bool)
    requires IsUni(i) != uni
    ensures var intents := [i] + tail;
            && Class(intents, uni) == Class(tail, uni) && Class(intents, !uni) == [i] + Class(tail, !uni)
            && (k < |tail| ==>
                  var rest, rest' := tail[..k] + tail[k + 1..], intents[..k + 1] + intents[k + 2..];
                  Class(rest', uni) == Class(rest, uni) && Class(rest', !uni) == [i] + Class(rest, !uni))
  {
    var intents := [i] + tail;
    ClassOf(intents, i, tail, uni);
    ClassOf(intents, i, tail, !uni);
    if k < |tail| {
      var rest := tail[..k] + tail[k + 1..];
      assert intents[..k + 1] == [i] + tail[..k] && intents[k + 2..] == tail[k + 1..];
      assert intents[..k + 1] + intents[k + 2..] == [i] + rest;
      ClassOf([i] + rest, i, rest, uni);
      ClassOf([i] + rest, i, rest, !uni);
    }
    hide Class;
  }

  lemma IntentsOfPush(bound: seq<Binding>, b: Binding)
    ensures IntentsOf(bound + [b]) == IntentsOf(bound) + [b.intent]
  {
  }

  lemma PushOpenKeeps(s: Session, s': Session, uni: bool)
    requires s' == PushOpen(s, uni)
    ensures OpensIn(s'.tasks, uni) + (if uni then s'.lostUni else s'.lostBidi)
              == OpensIn(s.tasks, uni) + (if uni then s.lostUni else s.lostBidi) + 1
    ensures OpensIn(s'.tasks, !uni) == OpensIn(s.tasks, !uni)
    ensures if uni then s'.lostBidi == s.lostBidi else s'.lostUni == s.lostUni
  {
    OpensPush(s.tasks, Open(uni), uni);
    OpensPush(s.tasks, Open(uni), !uni);
  }

  lemma AskKeeps(s: Session, i: Intent)
    requires Balanced(s)
    ensures Balanced(Ask(s, i))
  {
    hide OpensIn;
    hide Class;
    ClassPush(s.intents, i, true);
    ClassPush(s.intents, i, false);
    ClassPush(s.asked, i, true);
    ClassPush(s.asked, i, false);
    PushOpenKeeps(s.(intents := s.intents + [i], asked := s.asked + [i]), Ask(s, i), IsUni(i));
  }

  lemma OpenedServes(s: Session, uni: bool)
    requires Served(s, true) && Served(s, false)
    ensures var s' := Opened(s, uni);
            && Served(s', true) && Served(s', false) && s'.tasks == s.tasks
            && s'.wanted == s.wanted && s'.lostUni == s.lostUni && s'.lostBidi == s.lostBidi
    ensures var s' := Opened(s, uni);
            && |Class(s'.intents, !uni)| == |Class(s.intents, !uni)|
            && (if Class(s.intents, uni) != []
                then |Class(s'.intents, uni)| == |Class(s.intents, uni)| - 1 && s'.setups == s.setups && s'.rejected == s.rejected
                else s'.intents == s.intents && s'.setups == (if uni then s.setups + [s.nextStream] else s.setups)
                     && s'.rejected == (if uni then s.rejected else s.rejected + [s.nextStream]))
  {
    hide Class;
    var k := FirstOf(s.intents, uni);
    TakeFirst(s.intents, uni, k);
    if k < |s.intents| {
      var b := Binding(s.nextStream, s.intents[k]);
      IntentsOfPush(s.bound, b);
      hide IntentsOf;
      ClassPush(IntentsOf(s.bound), b.intent, true);
      ClassPush(IntentsOf(s.bound), b.intent, false);
    }
  }

  lemma RunOneKeeps(s: Session, ok: bool)
    requires Balanced(s)
    ensures Balanced(RunOne(s, ok))
  {
    hide Class;
    hide OpensIn;
    hide Opened;
    if s.tasks != [] {
      var s1 := s.(tasks := s.tasks[1..]);
      TaskTaken(s.tasks, true);
      TaskTaken(s.tasks, false);
      if s.tasks[0].Open? {
        OpenedServes(s1, s.tasks[0].uni);
      }
    }
  }

  lemma TaskTaken(tasks: seq<Task>, uni: bool)
    requires tasks != []
    ensures OpensIn(tasks, uni) == (if tasks[0] == Open(uni) then 1 else 0) + OpensIn(tasks[1..], uni)
  {
  }

  lemma StepKeeps(s: Session, e: Event)
    requires Balanced(s)
    ensures Balanced(Step(s, e))
  {
    match e
    case Connected => PushOpenKeeps(s.(wanted := s.wanted + 1), Step(s, e), true);
    case Asks(i) => AskKeeps(s, i);
    case PushOther(t) =>
      OpensPush(s.tasks, t, true);
      OpensPush(s.tasks, t, false);
    case RunsOne(ok) => RunOneKeeps(s, ok);
  }

  /** Over every run, with opens dropped or failed at any point. */
  lemma {:induction false} RunKeeps(s: Session, es: seq<Event>)
    requires Balanced(s)
    ensures Balanced(Run(s, es))
    decreases |es|
  {
    hide Balanced;
    if es != [] {
      StepKeeps(s, es[0]);
      RunKeeps(Step(s, es[0]), es[1..]);
    }
  }

  /** One connection: while nothing is lost, the unidirectional opens outstanding are the
      group intents queued and, until it is assigned, SETUP; the others are the other
      intents; and when none are outstanding exactly one stream is SETUP. */
  lemma NothingLostIsPaired(es: seq<Event>)
    requires var s := Run(INIT, es); s.wanted == 1 && s.lostUni == 0 && s.lostBidi == 0
    ensures var s := Run(INIT, es);
            && |s.setups| <= 1 && s.rejected == []
            && OpensIn(s.tasks, true) == |Class(s.intents, true)| + (1 - |s.setups|)
            && OpensIn(s.tasks, false) == |Class(s.intents, false)|
            && (OpensIn(s.tasks, true) == 0 ==> |s.setups| == 1 && Class(s.intents, true) == [])
  {
    hide Run;
    hide Class;
    hide OpensIn;
    InitIsBalanced();
    RunKeeps(INIT, es);
  }

  lemma InitIsBalanced()
    ensures Balanced(INIT)
  {
  }

  /** No open finds the queue full, and each one run brings a stream. */
  predicate AllWell(s: Session, es: seq<Event>)
    decreases |es|
  {
    es != [] ==>
      && (es[0].RunsOne? ==> es[0].ok)
      && (es[0].Connected? || es[0].Asks? ==> |s.tasks| < 1024)
      && AllWell(Step(s, es[0]), es[1..])
  }

  /** Opens are lost for no other reason. */
  lemma {:induction false} NothingIsLost(s: Session, es: seq<Event>)
    requires AllWell(s, es)
    ensures Run(s, es).lostUni == s.lostUni && Run(s, es).lostBidi == s.lostBidi
    decreases |es|
  {
    hide Class;
    hide FirstOf;
    if es != [] {
      NothingIsLost(Step(s, es[0]), es[1..]);
    }
  }

  /** The k-th stream bound in a class goes to the k-th intent asked for in that class,
      whatever is lost. */
  lemma KthGetsKth(es: seq<Event>, uni: bool, k: nat)
    requires k < |Class(IntentsOf(Run(INIT, es).bound), uni)|
    ensures var s := Run(INIT, es);
            k < |Class(s.asked, uni)| && Class(IntentsOf(s.bound), uni)[k] == Class(s.asked, uni)[k]
  {
    hide Run;
    hide Class;
    hide OpensIn;
    InitIsBalanced();
    RunKeeps(INIT, es);
  }

  // ---- which stream becomes SETUP ----

  /** The event brings a unidirectional stream. */
  predicate UniSuccess(s: Session, e: Event) {
    e == RunsOne(true) && s.tasks != [] && s.tasks[0] == Open(true)
  }

  /** It does so while no group waits for one. */
  predicate FreeSuccess(s: Session, e: Event) {
    UniSuccess(s, e) && Class(s.intents, true) == []
  }

  lemma {:induction false} RunSnoc(s: Session, es: seq<Event>)
    requires es != []
    ensures Run(s, es) == Step(Run(s, es[..|es| - 1]), es[|es| - 1])
    decreases |es|
  {
    hide Step;
    if |es| > 1 {
      RunSnoc(Step(s, es[0]), es[1..]);
      assert es[1..][..|es| - 2] == es[..|es| - 1][1..];
    } else {
      assert es[1..] == [] && es[..0] == [];
    }
  }

  /** Streams are numbered in the order they come; SETUP takes the number of the stream at
      hand, in exactly those events. */
  lemma StepSetups(s: Session, e: Event)
    ensures var s' := Step(s, e);
            && s'.setups == (if FreeSuccess(s, e) then s.setups + [s.nextStream] else s.setups)
            && s.nextStream <= s'.nextStream && (UniSuccess(s, e) ==> s.nextStream < s'.nextStream)
  {
    if UniSuccess(s, e) {
      TakeFirst(s.intents, true, FirstOf(s.intents, true));
    }
    hide Class;
  }

  /** SETUP gets a stream exactly if some unidirectional open succeeds while no group waits;
      and, with nothing outstanding on one connection, exactly if one group is left waiting
      for each such open that was lost. */
  lemma {:induction false} SetupIff(es: seq<Event>)
    ensures Run(INIT, es).setups != [] <==>
              exists i {:trigger es[i]} :: 0 <= i < |es| && FreeSuccess(Run(INIT, es[..i]), es[i])
    ensures var s := Run(INIT, es);
            s.wanted == 1 && OpensIn(s.tasks, true) == 0 ==>
              (s.setups != [] <==> |Class(s.intents, true)| == s.lostUni)
    decreases |es|
  {
    hide FreeSuccess;
    hide OpensIn;
    hide Class;
    InitIsBalanced();
    RunKeeps(INIT, es);
    if es != [] {
      var n := |es| - 1;
      SetupIff(es[..n]);
      RunSnoc(INIT, es);
      StepSetups(Run(INIT, es[..n]), es[n]);
      forall i {:trigger es[i]} | 0 <= i < n
        ensures es[..n][i] == es[i] && es[..n][..i] == es[..i]
      {
      }
    }
  }

  /** No group was asked for so far. */
  predicate NoGroupAsked(es: seq<Event>) {
    forall i :: 0 <= i < |es| && es[i].Asks? ==> !IsUni(es[i].i)
  }

  /** Before the first stream has come the groups waiting are those asked for. */
  lemma {:induction false} GroupsWait(es: seq<Event>)
    requires forall i {:trigger es[i]} :: 0 <= i < |es| ==> !UniSuccess(Run(INIT, es[..i]), es[i])
    ensures Class(Run(INIT, es).intents, true) == [] <==> NoGroupAsked(es)
    ensures Run(INIT, es).setups == []
    decreases |es|
  {
    hide UniSuccess;
    if es != [] {
      var n := |es| - 1;
      forall i {:trigger es[i]} | 0 <= i < n
        ensures es[..n][i] == es[i] && es[..n][..i] == es[..i]
      {
      }
      GroupsWait(es[..n]);
      RunSnoc(INIT, es);
      assert !UniSuccess(Run(INIT, es[..n]), es[n]);
      NoStreamComes(Run(INIT, es[..n]), es[n]);
      assert NoGroupAsked(es) <==> NoGroupAsked(es[..n]) && !(es[n].Asks? && IsUni(es[n].i));
    }
  }

  lemma NoStreamComes(s: Session, e: Event)
    requires !UniSuccess(s, e)
    ensures var s' := Step(s, e);
            && s'.setups == s.setups
            && (Class(s'.intents, true) == [] <==> Class(s.intents, true) == [] && !(e.Asks? && IsUni(e.i)))
  {
    hide Class;
    hide FirstOf;
    StepSetups(s, e);
    if e.Asks? {
      ClassPush(s.intents, e.i, true);
    } else {
      OtherTaken(s, e);
    }
  }

  /** Without a unidirectional stream and a question the groups waiting stay. */
  lemma OtherTaken(s: Session, e: Event)
    requires !UniSuccess(s, e) && !e.Asks?
    ensures Class(Step(s, e).intents, true) == Class(s.intents, true)
  {
    hide Class;
    hide FirstOf;
    if e.RunsOne? && e.ok && s.tasks != [] && s.tasks[0] == Open(false) {
      TakeFirst(s.intents, false, FirstOf(s.intents, false));
    }
  }

  /** The first stream that comes becomes SETUP exactly if no group was asked for before. */
  lemma SetupIsFirstIff(es: seq<Event>, k: nat)
    requires k < |es| && UniSuccess(Run(INIT, es[..k]), es[k])
    requires forall i {:trigger es[i]} :: 0 <= i < k ==> !UniSuccess(Run(INIT, es[..i]), es[i])
    ensures Run(INIT, es[..k]).nextStream in Run(INIT, es).setups <==> NoGroupAsked(es[..k])
  {
    hide UniSuccess;
    hide Run;
    hide Class;
    hide NoGroupAsked;
    forall i {:trigger es[i]} | 0 <= i < k
      ensures es[..k][i] == es[i] && es[..k][..i] == es[..i]
    {
    }
    GroupsWait(es[..k]);
    var s := Run(INIT, es[..k]);
    assert es[..k + 1][..k] == es[..k] && es[..k + 1][k] == es[k];
    RunSnoc(INIT, es[..k + 1]);
    StepSetups(s, es[k]);
    assert FreeSuccess(s, es[k]) <==> NoGroupAsked(es[..k]);
    SetupsStay(es, k + 1, s.nextStream);
  }

  /** Whether a stream that has come is SETUP does not change any more. */
  lemma {:induction false} SetupsStay(es: seq<Event>, k: nat, st: nat)
    requires k <= |es| && st < Run(INIT, es[..k]).nextStream
    ensures st < Run(INIT, es).nextStream
    ensures st in Run(INIT, es).setups <==> st in Run(INIT, es[..k]).setups
    decreases |es|
  {
    hide Run;
    hide Step;
    hide FreeSuccess;
    if k < |es| {
      var n := |es| - 1;
      assert es[..n][..k] == es[..k];
      SetupsStay(es[..n], k, st);
      RunSnoc(INIT, es);
      StepSetups(Run(INIT, es[..n]), es[n]);
    } else {
      assert es[..k] == es;
    }
  }

  lemma RunOfFour(s: Session, a: Event, b: Event, c: Event, d: Event)
    ensures Run(s, [a, b, c, d]) == Step(Step(Step(Step(s, a), b), c), d)
  {
    hide Step;
    assert [a, b, c, d][1..] == [b, c, d] && [b, c, d][1..] == [c, d] && [c, d][1..] == [d] && [d][1..] == [];
    assert Run(s, [a, b, c, d]) == Run(Step(s, a), [b, c, d]) == Run(Step(Step(s, a), b), [c, d]);
    assert Run(Step(Step(s, a), b), [c, d]) == Run(Step(Step(Step(s, a), b), c), [d]);
  }

  lemma OnlyIntentIsTaken(s: Session, i: Intent)
    requires s.intents == [i] && i.kind == Group
    ensures Opened(s, true) == s.(intents := [], bound := s.bound + [Binding(s.nextStream, i)], nextStream := s.nextStream + 1)
  {
  }

  /** SETUP asked for first, then a group. */
  lemma BothAsked(i: Intent)
    requires i.kind == Group
    ensures Step(Step(INIT, Connected), Asks(i)) ==
              INIT.(tasks := [Open(true), Open(true)], intents := [i], asked := [i], wanted := 1)
  {
  }

  /** SETUP need not be the first stream: a group asked for before the first callback takes
      it. */
  lemma GroupMayGoFirst(i: Intent)
    requires i.kind == Group
    ensures var s := Run(INIT, [Connected, Asks(i), RunsOne(true), RunsOne(true)]);
            s.bound == [Binding(0, i)] && s.setups == [1]
  {
    RunOfFour(INIT, Connected, Asks(i), RunsOne(true), RunsOne(true));
    BothAsked(i);
    var s := Step(Step(INIT, Connected), Asks(i));
    OnlyIntentIsTaken(s.(tasks := s.tasks[1..]), i);
    assert Step(s, RunsOne(true)).tasks == [Open(true)];
    assert Step(s, RunsOne(true)).bound == [Binding(0, i)];
  }

  /** With the first open lost, the only stream goes to the group and SETUP never gets one. */
  lemma LostSetupStarves(i: Intent)
    requires i.kind == Group
    ensures var s := Run(INIT, [Connected, Asks(i), RunsOne(false), RunsOne(true)]);
            s.bound == [Binding(0, i)] && s.setups == [] && s.tasks == []
  {
    RunOfFour(INIT, Connected, Asks(i), RunsOne(false), RunsOne(true));
    BothAsked(i);
    var s := Step(Step(Step(INIT, Connected), Asks(i)), RunsOne(false));
    assert s.tasks == [Open(true)];
    OnlyIntentIsTaken(s.(tasks := s.tasks[1..]), i);
  }
}

module OpenIntentRecord {
  import opened OpenIntentSpec

  class QcTask {
    const task: Task
    var next: QcTask?

    constructor (task: Task)
      ensures this.task == task && next == null
    {
      this.task := task;
      next := null;
    }
  }

  ghost function TasksOf(nodes: seq<QcTask>): seq<Task> {
    seq(|nodes|, i requires 0 <= i < |nodes| => nodes[i].task)
  }

  lemma TasksOfPush(nodes: seq<QcTask>, t: QcTask)
    ensures TasksOf(nodes + [t]) == TasksOf(nodes) + [t.task]
  {
  }

  lemma TasksOfPop(nodes: seq<QcTask>)
    ensures |TasksOf(nodes)| == |nodes|
    ensures nodes != [] ==> TasksOf(nodes)[0] == nodes[0].task && TasksOf(nodes[1..]) == TasksOf(nodes)[1..]
  {
  }

  ghost predicate NextAt(nodes: seq<QcTask>, i: nat)
    requires i < |nodes|
    reads nodes[i]
  {
    nodes[i].next == if i + 1 < |nodes| then nodes[i + 1] else null
  }

  /** The task queue: a singly linked list with a tail pointer and a count. */
  class TaskQueue {
    var taskHead: QcTask?
    var taskTail: QcTask?
    var taskCount: nat
    ghost var nodes: seq<QcTask>

    ghost function Tasks(): seq<Task>
      reads this
    {
      TasksOf(nodes)
    }

    ghost predicate Valid()
      reads this, nodes
    {
      && taskCount == |nodes|
      && (if nodes == [] then taskHead == null && taskTail == null
          else taskHead == nodes[0] && taskTail == nodes[|nodes| - 1])
      && (forall i, j :: 0 <= i < j < |nodes| ==> nodes[i] != nodes[j])
      && (forall i :: 0 <= i < |nodes| ==> NextAt(nodes, i))
    }

    constructor ()
      ensures Valid() && Tasks() == [] && nodes == []
    {
      taskHead, taskTail, taskCount, nodes := null, null, 0, [];
    }

    method TaskPush(task: Task) returns (refused: bool)
      requires Valid()
      modifies this, nodes
      ensures Valid() && forall n :: n in nodes && n !in old(nodes) ==> fresh(n)
      ensures refused == Refused(old(Tasks()), task) && Tasks() == Push(old(Tasks()), task)
    {
      TasksOfPop(nodes);
      if task != Close && taskCount >= QUEUE_MAX {
        return true;
      }
      var t := new QcTask(task);
      if taskHead == null {
        taskHead := t;
      } else {
        taskTail.next := t;
      }
      taskTail := t;
      taskCount := taskCount + 1;
      TasksOfPush(nodes, t);
      ghost var all := nodes;
      nodes := nodes + [t];
      forall i | 0 <= i < |nodes|
        ensures NextAt(nodes, i)
      {
        if i < |all| {
          assert old(NextAt(all, i));
        }
      }
      return false;
    }

    method TaskPop() returns (t: QcTask?)
      requires Valid()
      modifies this
      ensures Valid()
      ensures if old(Tasks()) == [] then t == null && Tasks() == []
              else t != null && t.task == old(Tasks())[0] && Tasks() == old(Tasks())[1..]
      ensures forall n :: n in nodes ==> n in old(nodes)
    {
      TasksOfPop(nodes);
      t := taskHead;
      if t != null {
        assert NextAt(nodes, 0);
        taskHead := t.next;
        if taskCount > 0 {
          taskCount := taskCount - 1;
        }
        ghost var all := nodes;
        nodes := nodes[1..];
        forall i | 0 <= i < |nodes|
          ensures NextAt(nodes, i)
        {
          assert NextAt(all, i + 1);
        }
      }
      if taskHead == null {
        taskTail := null;
      }
    }
  }

  /** The session's side: intents waiting, and what callbacks do with them. */
  class OpenSession {
    const queue: TaskQueue
    var pending: seq<Intent>
    var nextStream: nat
    var setupStream: int
    ghost var abs: Session

    ghost predicate Valid()
      reads this, queue, queue.nodes
    {
      && queue.Valid() && abs.tasks == queue.Tasks() && abs.intents == pending && abs.nextStream == nextStream
      && setupStream == (if abs.setups == [] then -1 else abs.setups[|abs.setups| - 1])
    }

    constructor ()
      ensures Valid() && abs == INIT && fresh(queue) && queue.nodes == []
    {
      queue := new TaskQueue();
      pending, nextStream, setupStream, abs := [], 0, -1, INIT;
    }

    method PushOpenTask(uni: bool)
      requires Valid()
      modifies this`abs, queue, queue.nodes
      ensures Valid() && abs == PushOpen(old(abs), uni)
      ensures forall n :: n in queue.nodes && n !in old(queue.nodes) ==> fresh(n)
    {
      var refused := queue.TaskPush(Open(uni));
      abs := PushOpen(abs, uni);
    }

    /** on_session_connected asks for the SETUP stream. */
    method OnConnected()
      requires Valid()
      modifies this`abs, queue, queue.nodes
      ensures Valid() && abs == Step(old(abs), Connected)
      ensures forall n :: n in queue.nodes && n !in old(queue.nodes) ==> fresh(n)
    {
      abs := abs.(wanted := abs.wanted + 1);
      PushOpenTask(true);
    }

    /** pending_push, then the open. */
    method AskFor(i: Intent)
      requires Valid()
      modifies this`pending, this`abs, queue, queue.nodes
      ensures Valid() && abs == Ask(old(abs), i)
      ensures forall n :: n in queue.nodes && n !in old(queue.nodes) ==> fresh(n)
    {
      pending := pending + [i];
      abs := abs.(intents := pending, asked := abs.asked + [i]);
      PushOpenTask(i.kind == Group);
    }

    method PendingPopKind(uni: bool) returns (found: bool, out: Intent)
      modifies this`pending
      ensures var k := FirstOf(old(pending), uni);
              && found == (k < |old(pending)|)
              && (found ==> out == old(pending)[k] && pending == old(pending)[..k] + old(pending)[k + 1..])
              && (!found ==> pending == old(pending))
    {
      found, out := false, Intent(Group, 0);
      var i := 0;
      while i < |pending|
        invariant i <= |pending| && pending == old(pending)
        invariant forall j :: 0 <= j < i ==> IsUni(pending[j]) != uni
      {
        if IsUni(pending[i]) == uni {
          FirstOfIs(pending, uni, i);
          out := pending[i];
          pending := pending[..i] + pending[i + 1..];
          return true, out;
        }
        i := i + 1;
      }
      FirstOfIs(pending, uni, i);
    }

    /** The callback of an opened stream, of either class. */
    method OnOpen(uni: bool)
      requires Valid()
      modifies this
      ensures Valid() && abs == Opened(old(abs), uni)
    {
      hide FirstOf;
      ghost var s := abs;
      var found, po := PendingPopKind(uni);
      abs := Opened(abs, uni);
      if !found && uni {
        setupStream := nextStream;
      }
      nextStream := nextStream + 1;
    }

    /** One turn of async_cb's loop. */
    method AsyncOne(ok: bool)
      requires Valid()
      modifies this, queue
      ensures Valid() && abs == RunOne(old(abs), ok)
    {
      var t := queue.TaskPop();
      if t == null {
        return;
      }
      abs := abs.(tasks := abs.tasks[1..]);
      if t.task.Open? {
        if ok {
          OnOpen(t.task.uni);
        } else {
          abs := Lose(abs, t.task.uni);
        }
      }
    }
  }

  lemma {:induction false} FirstOfIs(intents: seq<Intent>, uni: bool, k: nat)
    requires k <= |intents| && (forall j :: 0 <= j < k ==> IsUni(intents[j]) != uni)
    requires k < |intents| ==> IsUni(intents[k]) == uni
    ensures FirstOf(intents, uni) == k
    decreases |intents|
  {
  }
}
