/** The worker pool: N workers around one queue, one lock, one condition variable
    and a stop flag.  Taking the lock, what is done under it, and notifying are
    separate steps, so an event sequence is an interleaving of workers, enqueuing
    threads and the destructor. */
module ThreadPools {
  import opened Options

  type Task(==, !new)
  type Thread(==, !new)

  /** Where a worker is when it does not hold the lock; one that holds it is `Awake`. */
  datatype Worker = Awake | Asleep | Busy(task: Task) | Exited

  datatype Lock = Free | ByWorker(i: nat) | ByProducer(thread: Thread, task: Task) | ByCloser

  /** The destructor: not begun, stop set, everyone notified, everyone joined. */
  datatype Stage = Open | Stopping | Joining | Joined

  datatype State = State(
    workers: seq<Worker>,
    tasks: seq<Task>,
    lock: Lock,
    stage: Stage,
    notifying: set<Thread>,    // pushed, but notify_one not yet called
    accepted: seq<Task>,
    taken: seq<Task>,
    finished: multiset<Task>
  ) {
    predicate Stop() { !stage.Open? }
  }

  function Initial(n: nat): State {
    State(seq(n, _ => Awake), [], Free, Open, {}, [], [], multiset{})
  }

  datatype Event =
    | WorkerLock(i: nat)
    | WorkerTake(i: nat)
    | WorkerExit(i: nat)
    | WorkerSleep(i: nat)          // releases the lock and blocks in one step
    | WorkerFinish(i: nat)
    | SpuriousWakeup(i: nat)
    | ProducerLock(thread: Thread, task: Task)
    | ProducerPush                 // or throw, when stopped
    | NotifyOne(thread: Thread, woken: Option<nat>)
    | CloserLock
    | CloserStop
    | NotifyAll
    | JoinAll

  predicate Is(s: State, i: nat, w: Worker) {
    i < |s.workers| && s.workers[i] == w
  }

  predicate AnyAsleep(s: State) {
    exists i :: 0 <= i < |s.workers| && s.workers[i].Asleep?
  }

  predicate Enabled(s: State, e: Event) {
    match e
    case WorkerLock(i) => s.lock.Free? && Is(s, i, Awake)
    case WorkerTake(i) => s.lock == ByWorker(i) && Is(s, i, Awake) && s.tasks != []
    case WorkerExit(i) => s.lock == ByWorker(i) && Is(s, i, Awake) && s.Stop() && s.tasks == []
    case WorkerSleep(i) => s.lock == ByWorker(i) && Is(s, i, Awake) && !s.Stop() && s.tasks == []
    case WorkerFinish(i) => i < |s.workers| && s.workers[i].Busy?
    case SpuriousWakeup(i) => Is(s, i, Asleep)
    case ProducerLock(t, _) => s.lock.Free? && t !in s.notifying
    case ProducerPush => s.lock.ByProducer?
    case NotifyOne(t, w) => t in s.notifying && (if AnyAsleep(s) then w.Some? && Is(s, w.value, Asleep) else w.None?)
    case CloserLock => s.lock.Free? && s.stage.Open?
    case CloserStop => s.lock.ByCloser? && s.stage.Open?
    case NotifyAll => s.stage.Stopping?
    case JoinAll => s.stage.Joining? && forall i :: 0 <= i < |s.workers| ==> s.workers[i].Exited?
  }

  function Wake(w: Worker): Worker {
    if w.Asleep? then Awake else w
  }

  function Next(s: State, e: Event): State
    requires Enabled(s, e)
  {
    match e
    case WorkerLock(i) => s.(lock := ByWorker(i))
    case WorkerTake(i) =>
      s.(workers := s.workers[i := Busy(s.tasks[0])], tasks := s.tasks[1..], taken := s.taken + [s.tasks[0]], lock := Free)
    case WorkerExit(i) => s.(workers := s.workers[i := Exited], lock := Free)
    case WorkerSleep(i) => s.(workers := s.workers[i := Asleep], lock := Free)
    case WorkerFinish(i) =>
      s.(workers := s.workers[i := Awake], finished := s.finished + multiset{s.workers[i].task})
    case SpuriousWakeup(i) => s.(workers := s.workers[i := Awake])
    case ProducerLock(t, task) => s.(lock := ByProducer(t, task))
    case ProducerPush =>
      if s.Stop() then s.(lock := Free)
      else s.(tasks := s.tasks + [s.lock.task], accepted := s.accepted + [s.lock.task],
              notifying := s.notifying + {s.lock.thread}, lock := Free)
    case NotifyOne(t, w) =>
      s.(notifying := s.notifying - {t}, workers := if w.Some? then s.workers[w.value := Awake] else s.workers)
    case CloserLock => s.(lock := ByCloser)
    case CloserStop => s.(stage := Stopping, lock := Free)
    case NotifyAll => s.(stage := Joining, workers := seq(|s.workers|, i requires 0 <= i < |s.workers| => Wake(s.workers[i])))
    case JoinAll => s.(stage := Joined)
  }

  predicate Legal(s: State, es: seq<Event>)
    decreases |es|
  {
    es == [] || (Enabled(s, es[0]) && Legal(Next(s, es[0]), es[1..]))
  }

  function Exec(s: State, es: seq<Event>): State
    requires Legal(s, es)
    decreases |es|
  {
    if es == [] then s else Exec(Next(s, es[0]), es[1..])
  }

  /** A quantity summed over the workers. */
  function Total(ws: seq<Worker>, f: Worker -> nat): nat {
    if ws == [] then 0 else f(ws[0]) + Total(ws[1..], f)
  }

  /** Counts the workers executing `task`. */
  function Runs(task: Task): Worker -> nat {
    w => if w == Busy(task) then 1 else 0
  }

  lemma {:induction false} TotalUpdate(ws: seq<Worker>, i: nat, w: Worker, f: Worker -> nat)
    requires i < |ws|
    ensures Total(ws[i := w], f) + f(ws[i]) == Total(ws, f) + f(w)
  {
    if i == 0 {
      assert ws[i := w][1..] == ws[1..];
    } else {
      assert ws[i := w][1..] == ws[1..][i - 1 := w];
      TotalUpdate(ws[1..], i - 1, w, f);
    }
  }

  lemma {:induction false} TotalSame(ws: seq<Worker>, vs: seq<Worker>, f: Worker -> nat)
    requires |ws| == |vs| && forall i :: 0 <= i < |ws| ==> f(vs[i]) == f(ws[i])
    ensures Total(vs, f) == Total(ws, f)
  {
    if ws == [] {
    } else {
      TotalSame(ws[1..], vs[1..], f);
    }
  }

  lemma {:induction false} TotalZero(ws: seq<Worker>, f: Worker -> nat)
    requires forall i :: 0 <= i < |ws| ==> f(ws[i]) == 0
    ensures Total(ws, f) == 0
  {
    if ws == [] {
    } else {
      TotalZero(ws[1..], f);
    }
  }

  /** Every time `task` was taken out it is either being run or has been run. */
  predicate Accounted(s: State, task: Task) {
    multiset(s.taken)[task] == s.finished[task] + Total(s.workers, Runs(task))
  }

  predicate Active(w: Worker) {
    w.Awake? || w.Busy?
  }

  predicate AnyActive(s: State) {
    exists i :: 0 <= i < |s.workers| && Active(s.workers[i])
  }

  ghost predicate Inv(s: State) {
    && s.workers != []
    && s.taken + s.tasks == s.accepted
    && (forall task :: Accounted(s, task))
    && (s.lock.ByWorker? ==> Is(s, s.lock.i, Awake))
    && (s.lock.ByCloser? ==> s.stage.Open?)
    && (forall i :: 0 <= i < |s.workers| && s.workers[i].Exited? ==> s.Stop() && s.tasks == [])
    && (s.tasks != [] ==> s.notifying != {} || AnyActive(s))
    && (s.stage.Joining? || s.stage.Joined? ==> !AnyAsleep(s))
    && (s.stage.Joined? ==> forall i :: 0 <= i < |s.workers| ==> s.workers[i].Exited?)
  }

  lemma NextKeepsOrder(s: State, e: Event)
    requires Inv(s) && Enabled(s, e)
    ensures var t := Next(s, e); t.taken + t.tasks == t.accepted
  {
    if e.WorkerTake? {
      assert s.tasks == [s.tasks[0]] + s.tasks[1..];
    } else if e.ProducerPush? {
      assert s.taken + (s.tasks + [s.lock.task]) == s.accepted + [s.lock.task];
    }
  }

  lemma NextKeepsAccount(s: State, e: Event, task: Task)
    requires Inv(s) && Enabled(s, e)
    ensures Accounted(Next(s, e), task)
  {
    var t := Next(s, e);
    var f := Runs(task);
    assert Accounted(s, task);
    match e {
      case WorkerTake(i) => TotalUpdate(s.workers, i, Busy(s.tasks[0]), f);
      case WorkerExit(i) => TotalUpdate(s.workers, i, Exited, f);
      case WorkerSleep(i) => TotalUpdate(s.workers, i, Asleep, f);
      case WorkerFinish(i) => TotalUpdate(s.workers, i, Awake, f);
      case SpuriousWakeup(i) => TotalUpdate(s.workers, i, Awake, f);
      case NotifyOne(_, w) => if w.Some? { TotalUpdate(s.workers, w.value, Awake, f); }
      case NotifyAll => TotalSame(s.workers, t.workers, f);
      case _ =>
    }
  }

  lemma NextKeepsRest(s: State, e: Event)
    requires Inv(s) && Enabled(s, e)
    ensures var t := Next(s, e);
      && t.workers != []
      && (t.lock.ByWorker? ==> Is(t, t.lock.i, Awake))
      && (t.lock.ByCloser? ==> t.stage.Open?)
      && (t.stage.Joining? || t.stage.Joined? ==> !AnyAsleep(t))
      && (t.stage.Joined? ==> forall i :: 0 <= i < |t.workers| ==> t.workers[i].Exited?)
  {
  }

  lemma NextKeepsExits(s: State, e: Event)
    requires Inv(s) && Enabled(s, e)
    ensures var t := Next(s, e); forall i :: 0 <= i < |t.workers| && t.workers[i].Exited? ==> t.Stop() && t.tasks == []
  {
  }

  /** Somebody will look at the queue after this step too. */
  lemma NextKeepsWatch(s: State, e: Event)
    requires Inv(s) && Enabled(s, e)
    ensures var t := Next(s, e); t.tasks != [] ==> t.notifying != {} || AnyActive(t)
  {
    var t := Next(s, e);
    match e {
      case WorkerTake(i) => assert Active(t.workers[i]);
      case WorkerFinish(i) => assert Active(t.workers[i]);
      case SpuriousWakeup(i) => assert Active(t.workers[i]);
      case ProducerPush => assert !s.Stop() ==> s.lock.thread in t.notifying;
        if AnyActive(s) {
          var i :| 0 <= i < |s.workers| && Active(s.workers[i]);
          assert Active(t.workers[i]);
        }
      case NotifyOne(_, w) =>
        if w.Some? {
          assert Active(t.workers[w.value]);
        } else {
          assert s.workers[0].Exited? || Active(t.workers[0]);
        }
      case NotifyAll =>
        if AnyActive(s) {
          var i :| 0 <= i < |s.workers| && Active(s.workers[i]);
          assert Active(t.workers[i]);
        }
      case _ =>
    }
  }

  lemma NextKeepsInv(s: State, e: Event)
    requires Inv(s) && Enabled(s, e)
    ensures Inv(Next(s, e))
  {
    NextKeepsOrder(s, e);
    forall task ensures Accounted(Next(s, e), task) { NextKeepsAccount(s, e, task); }
    NextKeepsWatch(s, e);
    NextKeepsRest(s, e);
    NextKeepsExits(s, e);
  }

  lemma {:induction false} ExecKeepsInv(s: State, es: seq<Event>)
    requires Inv(s) && Legal(s, es)
    ensures Inv(Exec(s, es))
    decreases |es|
  {
    if es == [] {
    } else {
      NextKeepsInv(s, es[0]);
      ExecKeepsInv(Next(s, es[0]), es[1..]);
    }
  }

  lemma ReachableInv(n: nat, es: seq<Event>)
    requires n >= 1 && Legal(Initial(n), es)
    ensures Inv(Exec(Initial(n), es))
  {
    forall task ensures Accounted(Initial(n), task) { TotalZero(Initial(n).workers, Runs(task)); }
    ExecKeepsInv(Initial(n), es);
  }

  // ----- What the events alone say -----

  /** Where a producer stands, read off the events: the task it holds the lock with. */
  function Holding(es: seq<Event>): Option<(Thread, Task)> {
    if es == [] then None
    else
      var n := |es| - 1;
      match es[n]
      case ProducerLock(t, task) => Some((t, task))
      case ProducerPush => None
      case _ => Holding(es[..n])
  }

  /** Whether enqueue accepts a task now: the pool was not stopped. */
  predicate Accepting(es: seq<Event>) {
    CloserStop !in es
  }

  /** The tasks that enqueue was given and did not refuse, in order. */
  function Given(es: seq<Event>): seq<Task> {
    if es == [] then []
    else
      var front := es[..|es| - 1];
      Given(front) + if es[|es| - 1].ProducerPush? && Accepting(front) && Holding(front).Some? then [Holding(front).value.1] else []
  }

  /** The threads whose push was accepted and who have not notified since. */
  function ToNotify(es: seq<Event>): set<Thread> {
    if es == [] then {}
    else
      var front := es[..|es| - 1];
      match es[|es| - 1]
      case ProducerPush => ToNotify(front) + if Accepting(front) && Holding(front).Some? then {Holding(front).value.0} else {}
      case NotifyOne(t, _) => ToNotify(front) - {t}
      case _ => ToNotify(front)
  }

  /** How many tasks workers took, and how many they finished. */
  function Takes(es: seq<Event>): nat {
    if es == [] then 0 else Takes(es[..|es| - 1]) + if es[|es| - 1].WorkerTake? then 1 else 0
  }

  function Finishes(es: seq<Event>): nat {
    if es == [] then 0 else Finishes(es[..|es| - 1]) + if es[|es| - 1].WorkerFinish? then 1 else 0
  }

  lemma {:induction false} ExecSplit(s: State, es: seq<Event>, e: Event)
    requires Legal(s, es + [e])
    ensures Legal(s, es) && Enabled(Exec(s, es), e) && Exec(s, es + [e]) == Next(Exec(s, es), e)
    decreases |es|
  {
    if es == [] {
      assert ([] + [e])[1..] == [];
    } else {
      assert (es + [e])[0] == es[0] && (es + [e])[1..] == es[1..] + [e];
      ExecSplit(Next(s, es[0]), es[1..], e);
    }
  }

  /** What a state says and what the events say. */
  predicate Told(es: seq<Event>, s: State) {
    ToldTasks(es, s) && ToldProducers(es, s) && ToldStages(es, s)
  }

  predicate ToldTasks(es: seq<Event>, s: State) {
    s.accepted == Given(es) && |s.taken| == Takes(es) && |s.finished| == Finishes(es)
  }

  predicate ToldProducers(es: seq<Event>, s: State) {
    && s.notifying == ToNotify(es)
    && (if s.lock.ByProducer? then Holding(es) == Some((s.lock.thread, s.lock.task)) else Holding(es) == None)
  }

  predicate ToldStages(es: seq<Event>, s: State) {
    && (s.Stop() <==> CloserStop in es)
    && (s.stage.Joining? || s.stage.Joined? <==> NotifyAll in es)
    && (s.stage.Joined? <==> JoinAll in es)
    && (forall i :: 0 <= i < |s.workers| ==> (s.workers[i].Exited? <==> WorkerExit(i) in es))
  }

  lemma {:induction false} EventsTell(n: nat, es: seq<Event>)
    requires Legal(Initial(n), es)
    ensures Told(es, Exec(Initial(n), es))
  {
    if es == [] {
    } else {
      var m := |es| - 1;
      var front, e := es[..m], es[m];
      assert es == front + [e];
      ExecSplit(Initial(n), front, e);
      EventsTell(n, front);
      StepTells(front, e, Exec(Initial(n), front));
    }
  }

  lemma StepTells(front: seq<Event>, e: Event, s: State)
    requires Told(front, s) && Enabled(s, e)
    ensures Told(front + [e], Next(s, e))
  {
    StepTellsTasks(front, e, s);
    StepTellsProducers(front, e, s);
    StepTellsStages(front, e, s);
  }

  lemma StepTellsTasks(front: seq<Event>, e: Event, s: State)
    requires Told(front, s) && Enabled(s, e)
    ensures ToldTasks(front + [e], Next(s, e))
  {
    var es := front + [e];
    assert es[..|es| - 1] == front && es[|es| - 1] == e;
    assert Given(front) + [] == Given(front);
  }

  lemma StepTellsProducers(front: seq<Event>, e: Event, s: State)
    requires ToldProducers(front, s) && ToldStages(front, s) && Enabled(s, e)
    ensures ToldProducers(front + [e], Next(s, e))
  {
    var es := front + [e];
    assert es[..|es| - 1] == front && es[|es| - 1] == e;
  }

  lemma StepTellsStages(front: seq<Event>, e: Event, s: State)
    requires ToldStages(front, s) && Enabled(s, e)
    ensures ToldStages(front + [e], Next(s, e))
  {
    assert forall x :: x in front + [e] <==> x in front || x == e;
  }

  /** The enqueuing thread whose push is accepted still has to notify. */
  lemma AcceptedIsNotified(n: nat, es: seq<Event>)
    requires Legal(Initial(n), es + [ProducerPush]) && Accepting(es)
    ensures Legal(Initial(n), es) && Holding(es).Some?
    ensures Exec(Initial(n), es + [ProducerPush]).notifying == Exec(Initial(n), es).notifying + {Holding(es).value.0}
    ensures Given(es + [ProducerPush]) == Given(es) + [Holding(es).value.1]
  {
    ExecSplit(Initial(n), es, ProducerPush);
    EventsTell(n, es);
    var more := es + [ProducerPush];
    assert more[..|more| - 1] == es;
  }

  /** In every interleaving, tasks leave the queue in the order enqueue was given them,
      and every one taken out is being run by one worker or has been run once. */
  lemma FifoExactlyOnce(n: nat, es: seq<Event>)
    requires n >= 1 && Legal(Initial(n), es)
    ensures var s := Exec(Initial(n), es);
      && s.taken + s.tasks == Given(es)
      && |s.taken| == Takes(es) && |s.finished| == Finishes(es)
      && (forall task :: Accounted(s, task))
    ensures Exec(Initial(n), es).taken <= Given(es)
  {
    ReachableInv(n, es);
    EventsTell(n, es);
    var s := Exec(Initial(n), es);
    assert forall task :: Accounted(s, task) ==> multiset(s.taken)[task] == s.finished[task] + Total(s.workers, Runs(task));
  }

  /** No lost notification: work in the queue is always known to a worker that is not
      asleep, or a notification is still to be sent. */
  lemma NoLostNotification(n: nat, es: seq<Event>)
    requires n >= 1 && Legal(Initial(n), es)
    ensures var s := Exec(Initial(n), es);
      s.tasks != [] ==> s.notifying != {} || exists i :: 0 <= i < |s.workers| && (s.workers[i].Awake? || s.workers[i].Busy?)
  {
    ReachableInv(n, es);
    var s := Exec(Initial(n), es);
    if s.tasks != [] && s.notifying == {} {
      var i :| 0 <= i < |s.workers| && Active(s.workers[i]);
      assert s.workers[i].Awake? || s.workers[i].Busy?;
    }
  }

  /** A worker leaves only after stop, with nothing left to do, and once the destructor
      has joined everyone each task that enqueue accepted has been run exactly once. */
  lemma ShutdownDrains(n: nat, es: seq<Event>)
    requires n >= 1 && Legal(Initial(n), es)
    ensures var s := Exec(Initial(n), es);
      && (forall i :: 0 <= i < |s.workers| && WorkerExit(i) in es ==> CloserStop in es && s.tasks == [])
      && (JoinAll in es ==> s.finished == multiset(Given(es)))
  {
    ReachableInv(n, es);
    EventsTell(n, es);
    var s := Exec(Initial(n), es);
    if s.stage.Joined? {
      assert s.workers[0].Exited?;
      forall task ensures s.finished[task] == multiset(s.accepted)[task] {
        TotalZero(s.workers, Runs(task));
        assert Accounted(s, task);
      }
      assert s.finished == multiset(s.accepted);
    }
  }

  // ----- The destructor always gets past join -----

  function Weight(w: Worker): nat {
    match w case Awake => 2 case Asleep => 3 case Busy(_) => 3 case Exited => 0
  }

  /** An upper bound on the steps left once everyone has been notified. */
  function WorkLeft(s: State): nat {
    4 * |s.tasks| + Total(s.workers, Weight) + |s.notifying|
    + (match s.lock case Free => 1 case ByWorker(_) => 0 case ByProducer(_, _) => 2 case ByCloser => 2)
    + (if s.stage.Joining? then 1 else 0)
  }

  lemma JoiningStepDecreases(s: State, e: Event)
    requires Inv(s) && Enabled(s, e) && s.stage.Joining? && !e.ProducerLock?
    ensures WorkLeft(Next(s, e)) < WorkLeft(s)
  {
    assert !AnyAsleep(s);
    match e {
      case WorkerTake(i) => TotalUpdate(s.workers, i, Busy(s.tasks[0]), Weight);
      case WorkerExit(i) => TotalUpdate(s.workers, i, Exited, Weight);
      case WorkerFinish(i) => TotalUpdate(s.workers, i, Awake, Weight);
      case _ =>
    }
  }

  /** While the destructor joins and nobody else tries to enqueue, only boundedly many
      steps are possible in any interleaving... */
  lemma {:induction false} JoinIsBounded(s: State, es: seq<Event>)
    requires Inv(s) && Legal(s, es) && s.stage.Joining?
    requires forall e :: e in es ==> !e.ProducerLock? && !e.JoinAll?
    ensures |es| <= WorkLeft(s)
    decreases |es|
  {
    if es == [] {
    } else {
      JoiningStepDecreases(s, es[0]);
      NextKeepsInv(s, es[0]);
      JoinIsBounded(Next(s, es[0]), es[1..]);
    }
  }

  /** ...and as long as some worker has not exited, one of them is. */
  lemma JoinIsNeverStuck(s: State)
    requires Inv(s) && s.stage.Joining?
    ensures exists e :: Enabled(s, e) && !e.ProducerLock?
  {
    if s.lock.ByProducer? {
      assert Enabled(s, ProducerPush);
    } else if s.lock.ByWorker? {
      assert Enabled(s, WorkerTake(s.lock.i)) || Enabled(s, WorkerExit(s.lock.i));
    } else if i :| 0 <= i < |s.workers| && !s.workers[i].Exited? {
      assert s.workers[i].Awake? || s.workers[i].Busy?;
      assert Enabled(s, WorkerLock(i)) || Enabled(s, WorkerFinish(i));
    } else {
      assert Enabled(s, JoinAll);
    }
  }

  /** Queued work can always move: the pool never deadlocks with tasks waiting. */
  lemma WorkIsNeverStuck(s: State)
    requires Inv(s) && s.tasks != []
    ensures exists e :: Enabled(s, e) && !e.ProducerLock? && !e.SpuriousWakeup? && !e.CloserLock?
  {
    match s.lock {
      case ByWorker(i) => assert Enabled(s, WorkerTake(i));
      case ByProducer(_, _) => assert Enabled(s, ProducerPush);
      case ByCloser => assert Enabled(s, CloserStop);
      case Free =>
        if s.notifying != {} {
          var t :| t in s.notifying;
          if i :| 0 <= i < |s.workers| && s.workers[i].Asleep? {
            assert Enabled(s, NotifyOne(t, Some(i)));
          } else {
            assert Enabled(s, NotifyOne(t, None));
          }
        } else {
          var i :| 0 <= i < |s.workers| && Active(s.workers[i]);
          assert Enabled(s, WorkerLock(i)) || Enabled(s, WorkerFinish(i));
        }
    }
  }

  // ----- An open pool finishes what it was given -----

  /** Any step but a new enqueue attempt, a spurious wakeup, or the destructor's first. */
  predicate Settling(e: Event) {
    !e.ProducerLock? && !e.SpuriousWakeup? && !e.CloserLock?
  }

  function OpenWeight(w: Worker): nat {
    match w case Awake => 2 case Asleep => 0 case Busy(_) => 3 case Exited => 0
  }

  /** An upper bound on the settling steps of a pool that is not being destroyed. */
  function StepsToRest(s: State): nat {
    6 * |s.tasks| + Total(s.workers, OpenWeight) + 3 * |s.notifying|
    + (match s.lock case Free => 1 case ByWorker(_) => 0 case ByProducer(_, _) => 12 case ByCloser => 0)
  }

  predicate InUse(s: State) {
    s.stage.Open? && !s.lock.ByCloser?
  }

  lemma SettlingStep(s: State, e: Event)
    requires Inv(s) && InUse(s) && Enabled(s, e) && Settling(e)
    ensures InUse(Next(s, e)) && StepsToRest(Next(s, e)) < StepsToRest(s)
  {
    match e {
      case WorkerTake(i) => TotalUpdate(s.workers, i, Busy(s.tasks[0]), OpenWeight);
      case WorkerSleep(i) => TotalUpdate(s.workers, i, Asleep, OpenWeight);
      case WorkerFinish(i) => TotalUpdate(s.workers, i, Awake, OpenWeight);
      case NotifyOne(_, w) => if w.Some? { TotalUpdate(s.workers, w.value, Awake, OpenWeight); }
      case _ =>
    }
  }

  lemma {:induction false} SettlingIsBounded(s: State, es: seq<Event>)
    requires Inv(s) && InUse(s) && Legal(s, es) && forall e :: e in es ==> Settling(e)
    ensures |es| <= StepsToRest(s) && InUse(Exec(s, es)) && Inv(Exec(s, es))
    decreases |es|
  {
    if es == [] {
    } else {
      SettlingStep(s, es[0]);
      NextKeepsInv(s, es[0]);
      SettlingIsBounded(Next(s, es[0]), es[1..]);
    }
  }

  lemma {:induction false} ExecJoin(s: State, a: seq<Event>, b: seq<Event>)
    requires Legal(s, a) && Legal(Exec(s, a), b)
    ensures Legal(s, a + b) && Exec(s, a + b) == Exec(Exec(s, a), b)
    decreases |a|
  {
    if a == [] {
      assert a + b == b;
    } else {
      assert (a + b)[0] == a[0] && (a + b)[1..] == a[1..] + b;
      ExecJoin(Next(s, a[0]), a[1..], b);
    }
  }

  ghost predicate AtRest(s: State) {
    forall e :: Enabled(s, e) ==> !Settling(e)
  }

  lemma HeldLockMoves(s: State)
    requires Inv(s) && InUse(s) && s.tasks == [] && !s.lock.Free?
    ensures exists e :: Enabled(s, e) && Settling(e)
  {
    if s.lock.ByProducer? {
      assert Enabled(s, ProducerPush);
    } else {
      assert Enabled(s, WorkerSleep(s.lock.i));
    }
  }

  /** A pool at rest has done all its work, and its workers sleep. */
  lemma RestMeansDone(s: State)
    requires Inv(s) && InUse(s) && AtRest(s)
    ensures s.tasks == [] && s.finished == multiset(s.accepted)
    ensures forall i :: 0 <= i < |s.workers| ==> s.workers[i].Asleep?
  {
    if s.tasks != [] { WorkIsNeverStuck(s); }
    if !s.lock.Free? { HeldLockMoves(s); }
    forall i | 0 <= i < |s.workers| ensures s.workers[i].Asleep? {
      assert !Enabled(s, WorkerLock(i)) && !Enabled(s, WorkerFinish(i));
    }
    forall task ensures s.finished[task] == multiset(s.accepted)[task] {
      TotalZero(s.workers, Runs(task));
      assert Accounted(s, task);
    }
    assert s.finished == multiset(s.accepted);
  }

  /** From any reachable state of an open pool, whatever the interleaving: after boundedly
      many steps without new enqueue attempts it is at rest, with every task that enqueue
      was given run exactly once. */
  lemma {:induction false} OpenPoolDrains(n: nat, before: seq<Event>, es: seq<Event>)
    requires n >= 1 && Legal(Initial(n), before)
    requires var s := Exec(Initial(n), before); InUse(s) && Legal(s, es)
    requires forall e :: e in es ==> Settling(e)
    ensures var s := Exec(Initial(n), before); var t := Exec(s, es);
      && |es| <= StepsToRest(s)
      && Legal(Initial(n), before + es)
      && (AtRest(t) ==> t.tasks == [] && t.finished == multiset(Given(before + es)))
  {
    ReachableInv(n, before);
    var s := Exec(Initial(n), before);
    SettlingIsBounded(s, es);
    ExecJoin(Initial(n), before, es);
    EventsTell(n, before + es);
    if AtRest(Exec(s, es)) { RestMeansDone(Exec(s, es)); }
  }
}
