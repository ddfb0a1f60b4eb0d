/** The cross-thread functor queue of an event loop and its eventfd wakeup, as a
    step machine.  Pushing a functor and writing the eventfd are separate steps, so
    every interleaving of the loop thread with any number of other threads is a
    sequence of events. */
module EventLoops {
  type Functor(==)
  type Thread(==)

  /** `Testing`: the loop is about to look at m_quit, before its first round or another. */
  datatype Phase = NotStarted | Testing | AtPoll | Handling | Running | Stopped

  datatype State = State(
    phase: Phase,
    pending: seq<Functor>,     // m_pendingFunctors
    batch: seq<Functor>,       // the rest of the swapped-out vector
    executed: seq<Functor>,
    log: seq<Functor>,         // every functor ever queued, in order
    eventfd: nat,              // the eventfd counter
    readable: bool,            // poll reported the eventfd
    waking: set<Thread>,       // other threads between their change and their write
    ownerWaking: bool,         // the loop thread between its push and its write
    inFunctor: bool,           // a functor of the current batch is executing
    quit: bool,
    early: bool,               // the loop thread queued before loop(), not yet swapped out
    rounds: nat,               // finished iterations
    mark: nat                  // length of the log when poll last returned
  )

  const INITIAL := State(NotStarted, [], [], [], [], 0, false, {}, false, false, false, false, 0, 0)

  datatype Event =
    | Push(thread: Thread, f: Functor)  // queueInLoop from another thread: push under the lock
    | OwnerPush(f: Functor)             // queueInLoop from the loop thread
    | Quit(thread: Thread)              // quit() from another thread
    | OwnerQuit
    | Wake(thread: Thread)              // another thread writes the eventfd
    | OwnerWake
    | Start                             // loop() begins and clears the quit flag
    | Test                              // the condition of the loop
    | PollReturns                       // an event or the timeout
    | ReadEventfd                       // handleRead
    | Swap                              // doPendingFunctors takes the whole queue
    | RunFunctor
    | EndRound

  predicate Enabled(s: State, e: Event) {
    match e
    case Push(t, _) => t !in s.waking
    case Quit(t) => t !in s.waking
    case Wake(t) => t in s.waking
    case OwnerPush(_) => !s.ownerWaking && (s.phase.NotStarted? || s.phase.Handling? || s.inFunctor)
    case OwnerQuit => !s.ownerWaking && (s.phase.NotStarted? || s.phase.Handling? || s.inFunctor)
    case OwnerWake => s.ownerWaking
    case Start => s.phase.NotStarted?
    case Test => s.phase.Testing?
    case PollReturns => s.phase.AtPoll?
    case ReadEventfd => s.phase.Handling? && s.readable
    case Swap => s.phase.Handling? && !s.readable
    case RunFunctor => s.phase.Running? && s.batch != [] && !s.ownerWaking
    case EndRound => s.phase.Running? && s.batch == [] && !s.ownerWaking
  }

  function Next(s: State, e: Event): State
    requires Enabled(s, e)
  {
    match e
    case Push(t, f) => s.(pending := s.pending + [f], log := s.log + [f], waking := s.waking + {t})
    case Quit(t) => s.(quit := true, waking := s.waking + {t})
    case Wake(t) => s.(eventfd := s.eventfd + 1, waking := s.waking - {t})
    case OwnerPush(f) =>
      // only a push made while functors are being called is followed by a wakeup
      s.(pending := s.pending + [f], log := s.log + [f], ownerWaking := s.phase.Running?,
         early := s.early || s.phase.NotStarted?)
    case OwnerQuit => s.(quit := true)
    case OwnerWake => s.(eventfd := s.eventfd + 1, ownerWaking := false)
    case Start => s.(phase := Testing, quit := false)
    case Test => s.(phase := if s.quit then Stopped else AtPoll)
    case PollReturns => s.(phase := Handling, readable := s.eventfd > 0, mark := |s.log|)
    case ReadEventfd => s.(eventfd := 0, readable := false)
    case Swap => s.(phase := Running, batch := s.pending, pending := [], early := false)
    case RunFunctor => s.(executed := s.executed + [s.batch[0]], batch := s.batch[1..], inFunctor := true)
    case EndRound => s.(phase := Testing, inFunctor := false, rounds := s.rounds + 1)
  }

  predicate Legal(s: State, es: seq<Event>)
    decreases |es|
  {
    es == [] || (Enabled(s, es[0]) && Legal(Next(s, es[0]), es[1..]))
  }

  function Exec(s: State, es: seq<Event>): State
    requires Legal(s, es)
    decreases |es|
  {
    if es == [] then s else Exec(Next(s, es[0]), es[1..])
  }

  /** A wakeup is on the eventfd or on its way. */
  predicate Alarmed(s: State) {
    s.eventfd > 0 || s.waking != {} || s.ownerWaking
  }

  predicate Inv(s: State) {
    InOrder(s) && Watched(s) && Marked(s)
  }

  predicate InOrder(s: State) {
    s.executed + s.batch + s.pending == s.log
  }

  /** Work and quits are seen, and what belongs to a phase is only there in it. */
  predicate Watched(s: State) {
    && (s.batch != [] ==> s.phase.Running?)
    && (s.inFunctor || s.ownerWaking ==> s.phase.Running?)
    && (s.phase.Testing? || s.phase.AtPoll? || s.phase.Running? ==> s.pending == [] || s.early || Alarmed(s))
    && (s.phase.AtPoll? && s.quit ==> Alarmed(s))
    && (s.phase.NotStarted? ==> s.executed == [] && (s.pending != [] ==> s.early || Alarmed(s)))
    && (s.phase.Running? ==> !s.early)
    && (s.early || s.phase.NotStarted? ==> s.rounds == 0)
  }

  /** How far behind the mark the loop can be. */
  predicate Marked(s: State) {
    && s.mark <= |s.log| == |s.executed| + |s.batch| + |s.pending|
    && (s.phase.NotStarted? ==> s.mark == 0)
    && (s.phase.Running? ==> s.mark <= |s.executed| + |s.batch|)
    && (s.phase.Testing? || s.phase.AtPoll? || s.phase.Stopped? ==> s.mark <= |s.executed|)
  }

  lemma PushKeepsOrder(done: seq<Functor>, batch: seq<Functor>, pending: seq<Functor>, f: Functor)
    ensures done + batch + (pending + [f]) == done + batch + pending + [f]
  {
  }

  lemma RunKeepsOrder(done: seq<Functor>, batch: seq<Functor>, pending: seq<Functor>)
    requires batch != []
    ensures (done + [batch[0]]) + batch[1..] + pending == done + batch + pending
  {
    assert batch == [batch[0]] + batch[1..];
  }

  /** The functors keep their order in every step. */
  lemma NextKeepsOrder(s: State, e: Event)
    requires InOrder(s) && (s.batch != [] ==> s.phase.Running?) && Enabled(s, e)
    ensures InOrder(Next(s, e))
  {
    match e {
      case Push(_, f) => PushKeepsOrder(s.executed, s.batch, s.pending, f);
      case OwnerPush(f) => PushKeepsOrder(s.executed, s.batch, s.pending, f);
      case RunFunctor => RunKeepsOrder(s.executed, s.batch, s.pending);
      case Swap => assert s.batch == [] && s.executed + [] + s.pending == s.executed + s.pending + [];
      case _ =>
    }
  }

  /** A step of the loop itself, rather than of a caller of its methods. */
  predicate OfLoop(e: Event) {
    e.Start? || e.Test? || e.PollReturns? || e.ReadEventfd? || e.Swap? || e.RunFunctor? || e.EndRound?
  }

  lemma LoopStepKeepsWatched(s: State, e: Event)
    requires Watched(s) && Enabled(s, e) && OfLoop(e)
    ensures Watched(Next(s, e))
  {
  }

  lemma CallKeepsWatched(s: State, e: Event)
    requires Watched(s) && Enabled(s, e) && !OfLoop(e)
    ensures Watched(Next(s, e))
  {
    var t := Next(s, e);
    match e {
      case Push(thread, _) => assert thread in t.waking;
      case Quit(thread) => assert thread in t.waking;
      case Wake(_) => assert t.eventfd > 0;
      case _ =>
    }
  }

  lemma LoopStepKeepsMarked(s: State, e: Event)
    requires Watched(s) && Marked(s) && Enabled(s, e) && OfLoop(e)
    ensures Marked(Next(s, e))
  {
  }

  lemma CallKeepsMarked(s: State, e: Event)
    requires Watched(s) && Marked(s) && Enabled(s, e) && !OfLoop(e)
    ensures Marked(Next(s, e))
  {
    var t := Next(s, e);
    assert t.executed == s.executed && t.batch == s.batch && t.phase == s.phase && t.mark == s.mark;
    assert |t.log| - |s.log| == |t.pending| - |s.pending| >= 0;
  }

  lemma NextKeepsInv(s: State, e: Event)
    requires Inv(s) && Enabled(s, e)
    ensures Inv(Next(s, e))
  {
    NextKeepsOrder(s, e);
    if OfLoop(e) {
      LoopStepKeepsWatched(s, e);
      LoopStepKeepsMarked(s, e);
    } else {
      CallKeepsWatched(s, e);
      CallKeepsMarked(s, e);
    }
  }

  lemma {:induction false} ExecKeepsInv(s: State, es: seq<Event>)
    requires Inv(s) && Legal(s, es)
    ensures Inv(Exec(s, es))
    decreases |es|
  {
    if es == [] {
    } else {
      NextKeepsInv(s, es[0]);
      ExecKeepsInv(Next(s, es[0]), es[1..]);
    }
  }

  // ----- What the events alone say -----

  function AskedBy(e: Event): seq<Functor> {
    match e
    case Push(_, f) => [f]
    case OwnerPush(f) => [f]
    case _ => []
  }

  /** The functors that the calls of queueInLoop were given, in order. */
  function Asked(es: seq<Event>): seq<Functor> {
    if es == [] then [] else AskedBy(es[0]) + Asked(es[1..])
  }

  function FunctorsRun(es: seq<Event>): nat {
    if es == [] then 0 else (if es[0].RunFunctor? then 1 else 0) + FunctorsRun(es[1..])
  }

  lemma StepIsAsked(s: State, e: Event)
    requires Enabled(s, e)
    ensures Next(s, e).log == s.log + AskedBy(e)
  {
    if !e.Push? && !e.OwnerPush? {
      assert AskedBy(e) == [] && s.log + [] == s.log;
    }
  }

  lemma StepRuns(s: State, e: Event)
    requires Enabled(s, e)
    ensures |Next(s, e).executed| == |s.executed| + if e.RunFunctor? then 1 else 0
  {
  }

  lemma {:induction false} LogIsAsked(s: State, es: seq<Event>)
    requires Legal(s, es)
    ensures Exec(s, es).log == s.log + Asked(es)
    ensures |Exec(s, es).executed| == |s.executed| + FunctorsRun(es)
    decreases |es|
  {
    if es == [] {
    } else {
      StepIsAsked(s, es[0]);
      StepRuns(s, es[0]);
      LogIsAsked(Next(s, es[0]), es[1..]);
      JoinThree(s.log, AskedBy(es[0]), Asked(es[1..]));
    }
  }

  lemma JoinThree<T>(a: seq<T>, b: seq<T>, c: seq<T>)
    ensures a + b + c == a + (b + c) && (a + b + c)[..|a|] == a
  {
  }

  /** Exactly once, first in first out: in every reachable state the functors already
      executed, those left in the batch and those still queued are, in this order, the
      functors that queueInLoop was given; and as many were executed as were run. */
  lemma ExactlyOnceFifo(es: seq<Event>)
    requires Legal(INITIAL, es)
    ensures var s := Exec(INITIAL, es);
      s.executed + s.batch + s.pending == Asked(es) && |s.executed| == FunctorsRun(es)
    ensures Exec(INITIAL, es).executed <= Asked(es)
  {
    ExecKeepsInv(INITIAL, es);
    LogIsAsked(INITIAL, es);
    var s := Exec(INITIAL, es);
    JoinThree(s.executed, s.batch, s.pending);
    assert INITIAL.log + Asked(es) == Asked(es);
  }

  /** How often the eventfd was written and not read since. */
  function Unread(es: seq<Event>): nat {
    if es == [] then 0
    else
      var n := |es| - 1;
      match es[n]
      case Wake(_) => Unread(es[..n]) + 1
      case OwnerWake => Unread(es[..n]) + 1
      case ReadEventfd => 0
      case _ => Unread(es[..n])
  }

  lemma {:induction false} ExecSplit(s: State, es: seq<Event>, e: Event)
    requires Legal(s, es + [e])
    ensures Legal(s, es) && Enabled(Exec(s, es), e) && Exec(s, es + [e]) == Next(Exec(s, es), e)
    decreases |es|
  {
    if es == [] {
      assert ([] + [e])[1..] == [];
    } else {
      assert (es + [e])[0] == es[0] && (es + [e])[1..] == es[1..] + [e];
      ExecSplit(Next(s, es[0]), es[1..], e);
    }
  }

  /** Poll reported the eventfd, and it was not read since. */
  predicate ToRead(es: seq<Event>) {
    if es == [] then false
    else
      var front := es[..|es| - 1];
      match es[|es| - 1]
      case PollReturns => Unread(front) > 0
      case ReadEventfd => false
      case _ => ToRead(front)
  }

  /** The other threads that queued or asked to quit and have not written the eventfd since. */
  function ToWake(es: seq<Event>): set<Thread> {
    if es == [] then {}
    else
      var front := es[..|es| - 1];
      match es[|es| - 1]
      case Push(t, _) => ToWake(front) + {t}
      case Quit(t) => ToWake(front) + {t}
      case Wake(t) => ToWake(front) - {t}
      case _ => ToWake(front)
  }

  /** The counter is what was written and not read, every report of it is followed up, and
      everybody who has to write it does: the loop neither sleeps on a write nor spins. */
  lemma {:induction false} CounterExactly(es: seq<Event>)
    requires Legal(INITIAL, es)
    ensures var s := Exec(INITIAL, es);
      s.eventfd == Unread(es) && s.readable == ToRead(es) && s.waking == ToWake(es)
  {
    if es == [] {
    } else {
      var n := |es| - 1;
      assert es == es[..n] + [es[n]];
      ExecSplit(INITIAL, es[..n], es[n]);
      CounterExactly(es[..n]);
    }
  }

  /** A started loop that has not stopped can always go on by itself. */
  lemma LoopIsNeverStuck(s: State)
    requires Inv(s) && !s.phase.NotStarted? && !s.phase.Stopped?
    ensures exists e :: Enabled(s, e) && (OfLoop(e) || e.OwnerWake?)
  {
    match s.phase {
      case Testing => assert Enabled(s, Test);
      case AtPoll => assert Enabled(s, PollReturns);
      case Handling => assert Enabled(s, ReadEventfd) || Enabled(s, Swap);
      case Running => assert Enabled(s, OwnerWake) || Enabled(s, RunFunctor) || Enabled(s, EndRound);
    }
  }

  /** No lost wakeup: whenever the loop is about to poll with work queued or a quit
      requested, the eventfd is positive or another thread is about to write it. */
  lemma NoLostWakeup(es: seq<Event>)
    requires Legal(INITIAL, es)
    requires forall i :: 0 <= i < |es| && es[i].OwnerPush? ==> exists j :: 0 <= j < i && es[j].Start?
    ensures var s := Exec(INITIAL, es);
      s.phase.AtPoll? && (s.pending != [] || s.quit) ==> s.eventfd > 0 || s.waking != {}
  {
    ExecKeepsInv(INITIAL, es);
    NotEarly(INITIAL, es);
  }

  lemma {:induction false} NotEarly(s: State, es: seq<Event>)
    requires Legal(s, es) && !s.early
    requires s.phase.NotStarted? ==> forall i :: 0 <= i < |es| && es[i].OwnerPush? ==> exists j :: 0 <= j < i && es[j].Start?
    ensures !Exec(s, es).early
    decreases |es|
  {
    if es == [] {
    } else {
      var t := Next(s, es[0]);
      var rest := es[1..];
      assert !t.early;
      if t.phase.NotStarted? {
        forall i | 0 <= i < |rest| && rest[i].OwnerPush?
          ensures exists j :: 0 <= j < i && rest[j].Start?
        {
          assert es[i + 1].OwnerPush?;
          var j :| 0 <= j < i + 1 && es[j].Start?;
          assert rest[j - 1].Start?;
        }
      }
      NotEarly(t, rest);
    }
  }

  predicate FromOtherThread(e: Event) {
    e.Push? || e.Quit? || e.Wake?
  }

  /** The exception: work queued by the loop thread before `loop()` brings no wakeup.
      Wherever the loop is about to poll, it sleeps on queued work exactly when that is
      its first poll, the owner queued something before, and no other thread did anything. */
  lemma PollSleepsExactlyWhen(es: seq<Event>)
    requires Legal(INITIAL, es) && Exec(INITIAL, es).phase.AtPoll?
    ensures var s := Exec(INITIAL, es);
      (s.pending != [] && !Alarmed(s)) <==>
      s.rounds == 0 && (exists e :: e in es && e.OwnerPush?) && forall e :: e in es ==> !FromOtherThread(e)
  {
    ExecKeepsInv(INITIAL, es);
    if Exec(INITIAL, es).rounds == 0 {
      UpToFirstPoll(INITIAL, es);
    }
  }

  predicate Waiting(s: State) {
    s.phase.NotStarted? || s.phase.Testing? || s.phase.AtPoll?
  }

  /** The loop comes back to poll only by finishing a round. */
  lemma {:induction false} ComingBackTakesARound(s: State, es: seq<Event>)
    requires Legal(s, es)
    ensures Exec(s, es).rounds >= s.rounds
    ensures Waiting(Exec(s, es)) && !Waiting(s) ==> Exec(s, es).rounds > s.rounds
    decreases |es|
  {
    if es == [] {
    } else {
      ComingBackTakesARound(Next(s, es[0]), es[1..]);
    }
  }

  lemma WaitingStep(s: State, e: Event)
    requires Enabled(s, e) && Waiting(s) && Waiting(Next(s, e)) && !s.ownerWaking && !s.inFunctor
    ensures !Next(s, e).ownerWaking && !Next(s, e).inFunctor
    ensures Next(s, e).pending == [] <==> s.pending == [] && !e.OwnerPush? && !e.Push?
    ensures Alarmed(Next(s, e)) <==> Alarmed(s) || FromOtherThread(e)
  {
    if e.Push? || e.Quit? {
      assert e.thread in Next(s, e).waking;
    }
  }

  lemma {:induction false} UpToFirstPoll(s: State, es: seq<Event>)
    requires Legal(s, es) && Waiting(s) && !s.ownerWaking && !s.inFunctor
    requires Waiting(Exec(s, es)) && Exec(s, es).rounds == s.rounds
    ensures var t := Exec(s, es);
      && !t.ownerWaking
      && (t.pending == [] <==> s.pending == [] && forall e :: e in es ==> !e.OwnerPush? && !e.Push?)
      && (Alarmed(t) <==> Alarmed(s) || exists e :: e in es && FromOtherThread(e))
    decreases |es|
  {
    if es == [] {
    } else {
      var next, rest := Next(s, es[0]), es[1..];
      assert forall e :: e in es <==> e == es[0] || e in rest;
      ComingBackTakesARound(next, rest);
      WaitingStep(s, es[0]);
      UpToFirstPoll(next, rest);
    }
  }

  /** Whatever had been queued when the loop entered poll has been executed when it
      next comes back there (or stops), whatever the other threads do meanwhile. */
  lemma BacklogIsServed(es: seq<Event>, fs: seq<Event>)
    requires Legal(INITIAL, es)
    requires var s := Exec(INITIAL, es); s.phase.AtPoll? && Legal(s, fs)
    ensures var s := Exec(INITIAL, es); var t := Exec(s, fs);
      t.rounds > s.rounds && (t.phase.AtPoll? || t.phase.Stopped?) ==> s.log <= t.executed
  {
    ExecKeepsInv(INITIAL, es);
    var s := Exec(INITIAL, es);
    ExecKeepsInv(s, fs);
    MarkPasses(s, s, fs);
    MarkCoversBacklog(s, Exec(s, fs));
  }

  lemma MarkCoversBacklog(s: State, t: State)
    requires Inv(t) && Passed(s, t)
    ensures t.rounds > s.rounds && (t.phase.AtPoll? || t.phase.Stopped?) ==> s.log <= t.executed
  {
    assert t.log == t.executed + (t.batch + t.pending);
    ShorterPrefix(s.log, t.executed, t.batch + t.pending);
  }

  lemma ShorterPrefix<T>(a: seq<T>, b: seq<T>, c: seq<T>)
    requires a <= b + c
    ensures |a| <= |b| ==> a <= b
  {
    assert |a| <= |b| ==> forall i :: 0 <= i < |a| ==> a[i] == (b + c)[i] == b[i];
  }

  /** Either the round that began at `s` has not left poll, or the mark covers its backlog. */
  predicate Passed(s: State, t: State) {
    s.log <= t.log && ((t.rounds == s.rounds && t.phase.AtPoll?) || t.mark >= |s.log|)
  }

  lemma MarkStep(s: State, now: State, e: Event)
    requires Enabled(now, e) && Inv(now) && Passed(s, now)
    ensures Passed(s, Next(now, e))
  {
  }

  lemma {:induction false} MarkPasses(s: State, now: State, fs: seq<Event>)
    requires Legal(now, fs) && Inv(now) && Passed(s, now)
    ensures Passed(s, Exec(now, fs))
    decreases |fs|
  {
    if fs == [] {
    } else {
      NextKeepsInv(now, fs[0]);
      MarkStep(s, now, fs[0]);
      MarkPasses(s, Next(now, fs[0]), fs[1..]);
    }
  }

  // ----- Quitting -----

  /** A quit that no later `loop()` clears. */
  predicate LastingQuit(es: seq<Event>, i: int) {
    0 <= i < |es| && (es[i].Quit? || es[i].OwnerQuit?) && forall j :: i < j < |es| ==> !es[j].Start?
  }

  /** Which quits are honoured: the flag is set exactly when some thread asked to quit
      and `loop()` did not begin after that, for `loop()` clears the flag. */
  lemma QuitCountsExactlyWhen(es: seq<Event>)
    requires Legal(INITIAL, es)
    ensures Exec(INITIAL, es).quit <==> exists i :: LastingQuit(es, i)
  {
    QuitFlag(INITIAL, es);
  }

  lemma {:induction false} QuitFlag(s: State, es: seq<Event>)
    requires Legal(s, es)
    ensures Exec(s, es).quit <==> (s.quit && forall e :: e in es ==> !e.Start?) || exists i :: LastingQuit(es, i)
    decreases |es|
  {
    if es == [] {
    } else {
      var rest := es[1..];
      QuitFlag(Next(s, es[0]), rest);
      assert forall e :: e in es <==> e == es[0] || e in rest;
      assert forall i :: 0 <= i < |rest| ==> rest[i] == es[i + 1];
      forall i ensures LastingQuit(rest, i) ==> LastingQuit(es, i + 1) {}
      forall i ensures LastingQuit(es, i) && i > 0 ==> LastingQuit(rest, i - 1) {}
      assert LastingQuit(es, 0) <==> (es[0].Quit? || es[0].OwnerQuit?) && forall e :: e in rest ==> !e.Start? by {
        assert forall e :: e in rest <==> exists j :: 0 < j < |es| && es[j] == e;
      }
    }
  }

  /** How many rounds end before a loop with the flag set stops: none when it is about to
      look at the flag, else the one it is in. */
  function RoundsLeft(s: State): nat {
    if s.phase.Testing? || s.phase.Stopped? then 0 else 1
  }

  lemma QuitStep(s: State, e: Event)
    requires Enabled(s, e) && s.quit && !s.phase.NotStarted?
    ensures var t := Next(s, e);
      && t.quit && !t.phase.NotStarted?
      && t.rounds + RoundsLeft(t) == s.rounds + RoundsLeft(s)
      && (s.phase.Stopped? ==> t.phase.Stopped?)
  {
  }

  /** Once the flag is set in a loop that was started, exactly that many rounds end, and
      then the loop stops. */
  lemma {:induction false} QuitStopsTheLoop(s: State, es: seq<Event>)
    requires Legal(s, es) && s.quit && !s.phase.NotStarted?
    ensures var t := Exec(s, es);
      && t.quit && !t.phase.NotStarted?
      && t.rounds + RoundsLeft(t) == s.rounds + RoundsLeft(s)
      && (t.phase.Stopped? ==> t.rounds == s.rounds + RoundsLeft(s))
      && (s.phase.Stopped? ==> t.phase.Stopped?)
    decreases |es|
  {
    if es == [] {
    } else {
      QuitStep(s, es[0]);
      QuitStopsTheLoop(Next(s, es[0]), es[1..]);
    }
  }

  /** And it is not asleep meanwhile: work and the quit itself have a wakeup on the way. */
  lemma QuitIsNoticed(es: seq<Event>)
    requires Legal(INITIAL, es) && Exec(INITIAL, es).phase.AtPoll?
    requires exists i :: LastingQuit(es, i)
    ensures Alarmed(Exec(INITIAL, es))
  {
    QuitCountsExactlyWhen(es);
    ExecKeepsInv(INITIAL, es);
  }

  /** The shortest run that sleeps on queued work. */
  lemma EarlyPushSleeps(f: Functor)
    ensures var es := [OwnerPush(f), Start, Test];
      Legal(INITIAL, es) && var s := Exec(INITIAL, es); s.phase.AtPoll? && s.pending == [f] && !Alarmed(s)
  {
    var es := [OwnerPush(f), Start, Test];
    var s1 := Next(INITIAL, es[0]);
    var s2 := Next(s1, es[1]);
    assert es[1..] == [Start, Test] && es[1..][1..] == [Test] && es[1..][1..][1..] == [];
    assert [] + [f] == [f];
    assert Exec(s2, [Test]) == Next(s2, Test);
    assert Exec(s1, es[1..]) == Next(s2, Test);
  }

  /** A quit made before `loop()` is forgotten: `loop()` clears the flag. */
  lemma EarlyQuitIsForgotten(es: seq<Event>)
    requires Legal(INITIAL, es) && Exec(INITIAL, es).phase.NotStarted?
    ensures Legal(INITIAL, es + [Start]) && !Exec(INITIAL, es + [Start]).quit
  {
    AppendStart(INITIAL, es);
  }

  lemma {:induction false} AppendStart(s: State, es: seq<Event>)
    requires Legal(s, es) && Exec(s, es).phase.NotStarted?
    ensures Legal(s, es + [Start]) && Exec(s, es + [Start]) == Next(Exec(s, es), Start)
    decreases |es|
  {
    if es == [] {
      assert [Start] == [] + [Start];
      assert es + [Start] == [Start];
    } else {
      assert (es + [Start])[0] == es[0] && (es + [Start])[1..] == es[1..] + [Start];
      AppendStart(Next(s, es[0]), es[1..]);
    }
  }
}
