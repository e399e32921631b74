/** The event loop's functor queue and eventfd wakeup, as a step system over every
    interleaving of the loop thread with any number of foreign threads. Each event
    is one lock region, one system call or one callback of the loop thread. */
module EventLoops {
  import opened Basics

  datatype Phase =
    | NotStarted    // constructed, loop() not entered yet
    | Testing       // at the loop condition
    | Polling       // about to call poll
    | Dispatching   // running the callbacks of active channels
    | Draining      // inside doPendingFunctors, after the swap
    | Finished      // loop() has returned

  /** The last eventfd value a non-blocking write can reach. */
  const EVENTFD_MAX: nat := 0xFFFF_FFFF_FFFF_FFFE

  datatype State<F> = State(
    pending: seq<F>,        // pendingFunctors_
    batch: seq<F>,          // the swapped-out functors not run yet
    calling: bool,          // callingPendingFunctors_
    counter: nat,           // the eventfd
    quit: bool,
    phase: Phase,
    loopWaking: bool,       // the loop thread is between its push and its wakeup write
    waking: set<int>,       // foreign threads between their push and their wakeup write
    early: bool,            // queued by the loop thread before loop(), not swapped out yet
    mark: nat,              // how many functors had been queued at the last swap
    queued: seq<F>,         // every functor ever pushed, in lock order
    executed: seq<F>,       // every functor ever run from the queue
    issued: seq<F>,         // every functor handed to runInLoop or queueInLoop
    performed: seq<F>)      // every functor run, from the queue or directly

  ghost function Initial<F>(): State<F> {
    State([], [], false, 0, false, NotStarted, false, {}, false, 0, [], [], [], [])
  }

  datatype Event<F> =
    | Start                               // loop() begins
    | Test                                // while (!quit_)
    | Poll
    | HandleWakeup                        // the wakeup channel's read callback
    | RunDirect(f: F)                     // runInLoop on the loop thread
    | LoopPush(f: F)                      // queueInLoop on the loop thread, under the lock
    | LoopWake                            // its write to the eventfd
    | ForeignPush(thread: int, f: F)      // queueInLoop elsewhere, under the lock
    | ForeignWake(thread: int)            // its write to the eventfd
    | Swap                                // doPendingFunctors, under the lock
    | Execute                             // the next functor of the batch
    | EndDrain
    | Quit
    | QuitWake                            // quit() from another thread writes the eventfd too

  function Woken(counter: nat): nat { if counter < EVENTFD_MAX then counter + 1 else counter }

  ghost predicate InCallback(s: State) { (s.phase == Dispatching || s.phase == Draining) && !s.loopWaking }

  ghost predicate Enabled<F>(s: State<F>, e: Event<F>) {
    match e
    case Start => s.phase == NotStarted
    case Test => s.phase == Testing
    case Poll => s.phase == Polling
    case HandleWakeup => s.phase == Dispatching && s.counter > 0
    case RunDirect(f) => InCallback(s) || s.phase == NotStarted
    case LoopPush(f) => InCallback(s) || s.phase == NotStarted
    case LoopWake => s.loopWaking
    case ForeignPush(t, f) => t !in s.waking
    case ForeignWake(t) => t in s.waking
    case Swap => s.phase == Dispatching
    case Execute => s.phase == Draining && s.batch != [] && !s.loopWaking
    case EndDrain => s.phase == Draining && s.batch == [] && !s.loopWaking
    case Quit => true
    case QuitWake => true
  }

  ghost function Push<F>(s: State<F>, f: F): State<F> {
    s.(pending := s.pending + [f], queued := s.queued + [f], issued := s.issued + [f])
  }

  ghost function Step<F>(s: State<F>, e: Event<F>): State<F>
    requires Enabled(s, e)
  {
    match e
    case Start => s.(phase := Testing, quit := false)
    case Test => s.(phase := if s.quit then Finished else Polling)
    case Poll => s.(phase := Dispatching)
    case HandleWakeup => s.(counter := 0)
    case RunDirect(f) => s.(issued := s.issued + [f], performed := s.performed + [f])
    case LoopPush(f) => Push(s, f).(loopWaking := s.calling, early := s.early || s.phase == NotStarted)
    case LoopWake => s.(loopWaking := false, counter := Woken(s.counter))
    case ForeignPush(t, f) => Push(s, f).(waking := s.waking + {t})
    case ForeignWake(t) => s.(waking := s.waking - {t}, counter := Woken(s.counter))
    case Swap => s.(pending := [], batch := s.pending, calling := true, phase := Draining,
                    mark := |s.queued|, early := false)
    case Execute => s.(batch := s.batch[1..], executed := s.executed + [s.batch[0]],
                       performed := s.performed + [s.batch[0]])
    case EndDrain => s.(calling := false, phase := Testing)
    case Quit => s.(quit := true)
    case QuitWake => s.(counter := Woken(s.counter))
  }

  ghost predicate IsRun<F>(s: State<F>, run: seq<Event<F>>)
    decreases |run|
  {
    run == [] || (Enabled(s, run[0]) && IsRun(Step(s, run[0]), run[1..]))
  }

  ghost function After<F>(s: State<F>, run: seq<Event<F>>): State<F>
    requires IsRun(s, run)
    decreases |run|
  {
    if run == [] then s else After(Step(s, run[0]), run[1..])
  }

  // ------------------------------------------------------------- invariants

  /** Nothing queued is lost, duplicated or reordered, and a round runs exactly what
      had been queued when it began. */
  ghost predicate QueueInOrder<F>(s: State<F>) {
    && s.queued == s.executed + s.batch + s.pending
    && s.mark == |s.executed| + |s.batch|
    && (s.batch != [] ==> s.phase == Draining)
    && (s.calling <==> s.phase == Draining)
    && (s.loopWaking ==> s.phase == Draining)
    && (s.early || s.phase == NotStarted ==> s.mark == 0)
  }

  ghost predicate Announced(s: State) { s.counter > 0 || s.waking != {} || s.loopWaking || s.early }

  /** Between a swap and the callbacks that precede the next one, queued work is announced. */
  ghost predicate NoLostWakeup(s: State) {
    s.phase != Dispatching && s.phase != Finished && s.pending != [] ==> Announced(s)
  }

  lemma StepKeepsOrder<F>(s: State<F>, e: Event<F>)
    requires QueueInOrder(s) && Enabled(s, e)
    ensures QueueInOrder(Step(s, e))
  {
    match e
    case LoopPush(f) => assert s.executed + s.batch + s.pending + [f] == s.executed + s.batch + (s.pending + [f]);
    case ForeignPush(t, f) => assert s.executed + s.batch + s.pending + [f] == s.executed + s.batch + (s.pending + [f]);
    case Execute => assert s.executed + s.batch == s.executed + [s.batch[0]] + s.batch[1..];
    case _ =>
  }

  lemma StepKeepsAnnounced<F>(s: State<F>, e: Event<F>)
    requires QueueInOrder(s) && NoLostWakeup(s) && Enabled(s, e)
    ensures NoLostWakeup(Step(s, e))
  {
    if e.ForeignPush? {
      assert e.thread in Step(s, e).waking;
    }
  }

  lemma {:induction false} RunKeepsInvariants<F>(s: State<F>, run: seq<Event<F>>)
    requires QueueInOrder(s) && NoLostWakeup(s) && IsRun(s, run)
    ensures QueueInOrder(After(s, run)) && NoLostWakeup(After(s, run))
    decreases |run|
  {
    if run == [] {
    } else {
      StepKeepsOrder(s, run[0]);
      StepKeepsAnnounced(s, run[0]);
      RunKeepsInvariants(Step(s, run[0]), run[1..]);
    }
  }

  /** Over every interleaving: what was queued is what was executed, then the rest of
      the current batch, then what waits, in queue order; and a finished round has run
      everything queued before its swap and nothing queued since. */
  lemma EveryRunKeepsQueueOrder<F>(run: seq<Event<F>>)
    requires IsRun(Initial(), run)
    ensures var s := After(Initial(), run);
            && s.queued == s.executed + s.batch + s.pending
            && s.mark <= |s.queued| && s.executed + s.batch == s.queued[..s.mark]
            && (s.phase != Draining ==> s.executed == s.queued[..s.mark])
  {
    RunKeepsInvariants(Initial(), run);
    var s := After(Initial(), run);
    assert s.queued[..s.mark] == s.executed + s.batch;
  }

  /** Reaching poll with work waiting means the eventfd is readable, or a foreign thread
      has yet to write it, or the work was queued by the loop thread before loop(). */
  lemma EveryRunAnnouncesWork<F>(run: seq<Event<F>>)
    requires IsRun(Initial(), run)
    ensures var s := After(Initial(), run);
            s.phase == Polling && s.pending != [] ==> s.counter > 0 || s.waking != {} || s.early
  {
    RunKeepsInvariants(Initial(), run);
  }

  /** Events of other threads that lead to a write of the eventfd. */
  predicate IsWaker(e: Event) { e.ForeignPush? || e.QuitWake? }

  predicate HasWaker(run: seq<Event>) { exists i :: 0 <= i < |run| && IsWaker(run[i]) }

  /** Until the loop first dispatches, the eventfd is written by wakers only and read by nobody. */
  ghost predicate EarlyCounter(s: State, woken: bool) {
    s.phase == NotStarted || (s.early && s.phase != Dispatching) ==>
      s.phase != Draining && (s.counter > 0 || s.waking != {} <==> woken)
  }

  lemma StepKeepsEarlyCounter<F>(s: State<F>, e: Event<F>, woken: bool)
    requires QueueInOrder(s) && EarlyCounter(s, woken) && Enabled(s, e)
    ensures EarlyCounter(Step(s, e), woken || IsWaker(e))
  {
    if e.ForeignPush? {
      assert e.thread in Step(s, e).waking;
    }
  }

  lemma HasWakerCons(run: seq<Event>)
    requires run != []
    ensures HasWaker(run) <==> IsWaker(run[0]) || HasWaker(run[1..])
  {
    if i :| 0 <= i < |run| && IsWaker(run[i]) {
      assert i > 0 ==> IsWaker(run[1..][i - 1]);
    }
    if i :| 0 <= i < |run[1..]| && IsWaker(run[1..][i]) {
      assert IsWaker(run[i + 1]);
    }
  }

  lemma {:induction false} RunKeepsEarlyCounter<F>(s: State<F>, run: seq<Event<F>>, woken: bool)
    requires QueueInOrder(s) && EarlyCounter(s, woken) && IsRun(s, run)
    ensures EarlyCounter(After(s, run), woken || HasWaker(run))
    decreases |run|
  {
    if run == [] {
    } else {
      StepKeepsOrder(s, run[0]);
      StepKeepsEarlyCounter(s, run[0], woken);
      RunKeepsEarlyCounter(Step(s, run[0]), run[1..], woken || IsWaker(run[0]));
      HasWakerCons(run);
    }
  }

  /** The wakeup law, exactly: work waiting at poll is announced if and only if the loop
      thread queued none of it before loop(), or another thread has queued something or quit. */
  lemma WorkAtPollIsAnnouncedIff<F>(run: seq<Event<F>>)
    requires IsRun(Initial(), run)
    ensures var s := After(Initial(), run);
            s.phase == Polling && s.pending != [] ==>
              (s.counter > 0 || s.waking != {} <==> !s.early || HasWaker(run))
  {
    EveryRunAnnouncesWork(run);
    RunKeepsEarlyCounter(Initial<F>(), run, false);
  }

  predicate WritesEventfd(e: Event) { e.LoopWake? || e.ForeignWake? || e.QuitWake? }

  /** How often the eventfd has been written since it was last read, `n` times at first. */
  function WritesSince(run: seq<Event>, n: nat): nat {
    if run == [] then n
    else WritesSince(run[1..], if WritesEventfd(run[0]) then n + 1 else if run[0].HandleWakeup? then 0 else n)
  }

  /** The eventfd counts the wakeups since the last read, up to the largest value it can hold. */
  lemma {:induction false} EventfdCounts<F>(s: State<F>, run: seq<Event<F>>, n: nat)
    requires IsRun(s, run) && s.counter == Min(n, 0xFFFF_FFFF_FFFF_FFFE)
    ensures After(s, run).counter == Min(WritesSince(run, n), 0xFFFF_FFFF_FFFF_FFFE)
    decreases |run|
  {
    if run == [] {
    } else {
      var e := run[0];
      EventfdCounts(Step(s, e), run[1..], if WritesEventfd(e) then n + 1 else if e.HandleWakeup? then 0 else n);
    }
  }

  /** Whether quit() was called after the last start of loop(). */
  predicate QuitSinceStart(run: seq<Event>) {
    exists i :: 0 <= i < |run| && run[i].Quit? && forall j :: i < j < |run| ==> !run[j].Start?
  }

  predicate HasStart(run: seq<Event>) { exists i :: 0 <= i < |run| && run[i].Start? }

  lemma QuitSinceStartCons(run: seq<Event>)
    requires run != []
    ensures HasStart(run) <==> run[0].Start? || HasStart(run[1..])
    ensures QuitSinceStart(run) <==> QuitSinceStart(run[1..]) || (run[0].Quit? && !HasStart(run[1..]))
  {
    var rest := run[1..];
    assert forall j :: 1 <= j < |run| ==> run[j] == rest[j - 1];
    assert forall j :: 0 <= j < |rest| ==> rest[j] == run[j + 1];
    if i :| 0 <= i < |rest| && rest[i].Quit? && forall j :: i < j < |rest| ==> !rest[j].Start? {
      assert run[i + 1].Quit?;
    }
    if i :| 0 < i < |run| && run[i].Quit? && forall j :: i < j < |run| ==> !run[j].Start? {
      assert rest[i - 1].Quit?;
    }
  }

  lemma {:induction false} QuitFollowsTheCalls<F>(s: State<F>, run: seq<Event<F>>)
    requires IsRun(s, run)
    ensures After(s, run).quit <==> QuitSinceStart(run) || (s.quit && !HasStart(run))
    decreases |run|
  {
    if run == [] {
    } else {
      QuitFollowsTheCalls(Step(s, run[0]), run[1..]);
      QuitSinceStartCons(run);
      hide QuitSinceStart, HasStart;
    }
  }

  lemma {:induction false} FinishedMeansQuit<F>(s: State<F>, run: seq<Event<F>>)
    requires IsRun(s, run) && (s.phase == Finished ==> s.quit)
    ensures After(s, run).phase == Finished ==> After(s, run).quit
    decreases |run|
  {
    if run == [] {
    } else {
      FinishedMeansQuit(Step(s, run[0]), run[1..]);
    }
  }

  /** Over every run: at its test the loop ends if and only if quit() has been called since
      loop() began, so one called before loop() is forgotten; and it ends in no other way. */
  lemma LoopEndsIff<F>(run: seq<Event<F>>)
    requires IsRun(Initial(), run)
    ensures var s := After(Initial(), run);
            && (s.phase == Testing ==> (Step(s, Test).phase == Finished <==> QuitSinceStart(run)))
            && (s.phase == Finished ==> QuitSinceStart(run))
  {
    QuitFollowsTheCalls(Initial<F>(), run);
    FinishedMeansQuit(Initial<F>(), run);
  }

  /** A run in which it is not: queueing before loop() sends no wakeup. */
  lemma EarlyWorkIsNotAnnounced<F>(f: F)
    ensures var run := [LoopPush(f), Start, Test];
            && IsRun(Initial(), run)
            && var s := After(Initial(), run);
               s.phase == Polling && s.pending == [f] && s.counter == 0 && s.waking == {}
  {
    var s0: State<F> := Initial();
    var run: seq<Event<F>> := [LoopPush(f), Start, Test];
    var s1 := Step(s0, run[0]);
    var s2 := Step(s1, run[1]);
    var s3 := Step(s2, run[2]);
    var rest: seq<Event<F>> := [Start, Test];
    var last: seq<Event<F>> := [Test];
    assert run[1..] == rest && rest[1..] == last && last[1..] == [];
    RunOf(s3, last[1..]);
    RunOf(s2, last);
    RunOf(s1, rest);
    RunOf(s0, run);
  }

  /** A run, one event at a time. */
  lemma RunOf<F>(s: State<F>, run: seq<Event<F>>)
    requires run == [] || (Enabled(s, run[0]) && IsRun(Step(s, run[0]), run[1..]))
    ensures IsRun(s, run)
    ensures After(s, run) == if run == [] then s else After(Step(s, run[0]), run[1..])
  {
  }

  /** Without early pushes the flag is never set. */
  ghost predicate NothingEarly<F>(s: State<F>, run: seq<Event<F>>)
    requires IsRun(s, run)
    decreases |run|
  {
    run == [] || (!(run[0].LoopPush? && s.phase == NotStarted) && NothingEarly(Step(s, run[0]), run[1..]))
  }

  lemma {:induction false} NeverEarly<F>(s: State<F>, run: seq<Event<F>>)
    requires IsRun(s, run) && NothingEarly(s, run) && !s.early
    ensures !After(s, run).early
    decreases |run|
  {
    if run == [] {
    } else {
      NeverEarly(Step(s, run[0]), run[1..]);
    }
  }

  /** So the work is always announced when the loop thread queues only from inside loop(). */
  lemma WorkAtPollIsAnnounced<F>(run: seq<Event<F>>)
    requires IsRun(Initial(), run) && NothingEarly(Initial(), run)
    ensures var s := After(Initial(), run);
            s.phase == Polling && s.pending != [] ==> s.counter > 0 || s.waking != {}
  {
    EveryRunAnnouncesWork(run);
    NeverEarly(Initial(), run);
  }

  // ----------------------------------------------------------- the loop object

  /** A functor is known by its name and by the functors it queues when it runs. */
  datatype Functor = Functor(name: int, queues: seq<Functor>)

  // ---------------------------------------------------- what a run consists of

  /** A model together with the events that led to it. */
  ghost predicate Recorded<F>(history: seq<Event<F>>, s: State<F>) {
    && IsRun(Initial(), history) && After(Initial(), history) == s
    && QueueInOrder(s) && NoLostWakeup(s)
  }

  lemma {:induction false} RunSnoc<F>(s: State<F>, run: seq<Event<F>>, e: Event<F>)
    requires IsRun(s, run) && Enabled(After(s, run), e)
    ensures IsRun(s, run + [e]) && After(s, run + [e]) == Step(After(s, run), e)
    decreases |run|
  {
    if run == [] {
      RunOf(Step(s, e), []);
      assert [e][1..] == [];
      RunOf(s, [e]);
      assert run + [e] == [e];
    } else {
      RunSnoc(Step(s, run[0]), run[1..], e);
      assert (run + [e])[1..] == run[1..] + [e];
      RunOf(s, run + [e]);
    }
  }

  lemma RecordedStep<F>(history: seq<Event<F>>, s: State<F>, e: Event<F>)
    requires Recorded(history, s) && Enabled(s, e)
    ensures Recorded(history + [e], Step(s, e))
  {
    RunSnoc(Initial<F>(), history, e);
    StepKeepsOrder(s, e);
    StepKeepsAnnounced(s, e);
  }

  /** What the loop thread has queued, in order. */
  ghost function OwnPushes<F>(run: seq<Event<F>>): seq<F> {
    if run == [] then []
    else
      var before, last := run[..|run| - 1], run[|run| - 1];
      if last.LoopPush? then OwnPushes(before) + [last.f] else OwnPushes(before)
  }

  predicate IsForeign(e: Event) { e.ForeignPush? || e.ForeignWake? || e.Quit? || e.QuitWake? }

  /** What other threads have done, in order. */
  ghost function ForeignPart<F>(run: seq<Event<F>>): seq<Event<F>> {
    if run == [] then []
    else
      var before, last := run[..|run| - 1], run[|run| - 1];
      if IsForeign(last) then ForeignPart(before) + [last] else ForeignPart(before)
  }

  lemma PartsSnoc<F>(run: seq<Event<F>>, e: Event<F>)
    ensures OwnPushes(run + [e]) == if e.LoopPush? then OwnPushes(run) + [e.f] else OwnPushes(run)
    ensures ForeignPart(run + [e]) == if IsForeign(e) then ForeignPart(run) + [e] else ForeignPart(run)
  {
    assert (run + [e])[..|run|] == run;
  }

  /** An interleaving: events of other threads, and the turns of the loop thread between them. */
  datatype Turn = Other(event: Event<Functor>) | LoopThread

  predicate Legal(waking: set<int>, script: seq<Turn>)
    decreases |script|
  {
    if script == [] then true
    else if script[0].LoopThread? then Legal(waking, script[1..])
    else
      match script[0].event
      case ForeignPush(t, _) => t !in waking && Legal(waking + {t}, script[1..])
      case ForeignWake(t) => t in waking && Legal(waking - {t}, script[1..])
      case Quit => Legal(waking, script[1..])
      case QuitWake => Legal(waking, script[1..])
      case _ => false
  }

  ghost function Others(script: seq<Turn>): seq<Event<Functor>> {
    if script == [] then []
    else if script[0].Other? then [script[0].event] + Others(script[1..])
    else Others(script[1..])
  }

  lemma LegalMove(s: State<Functor>, script: seq<Turn>)
    requires Legal(s.waking, script) && script != [] && script[0].Other?
    ensures var e := script[0].event;
            IsForeign(e) && Enabled(s, e) && Legal(Step(s, e).waking, script[1..]) && Untouched(s, Step(s, e))
  {
  }

  lemma OthersCons(script: seq<Turn>)
    requires script != [] && script[0].Other?
    ensures Others(script) == [script[0].event] + Others(script[1..])
  {
  }

  lemma Regroup<T>(a: seq<T>, x: T, b: seq<T>)
    ensures a + [x] + b == a + ([x] + b)
  {
  }

  lemma OtherCounted(run: seq<Event<Functor>>, script: seq<Turn>)
    requires script != [] && script[0].Other? && IsForeign(script[0].event)
    ensures var e := script[0].event;
            && OwnPushes(run + [e]) == OwnPushes(run)
            && ForeignPart(run + [e]) + Others(script[1..]) == ForeignPart(run) + Others(script)
  {
    var e := script[0].event;
    OthersCons(script);
    hide ForeignPart, OwnPushes, Others;
    PartsSnoc(run, e);
    Regroup(ForeignPart(run), e, Others(script[1..]));
  }

  lemma TurnPasses(waking: set<int>, script: seq<Turn>)
    requires Legal(waking, script) && script != [] && script[0].LoopThread?
    ensures Legal(waking, script[1..]) && Others(script[1..]) == Others(script)
  {
  }

  class EventLoop {
    var pendingFunctors: seq<Functor>
    var functors: seq<Functor>          // the batch doPendingFunctors holds
    var callingPendingFunctors: bool
    var wakeupFd: nat
    var quitFlag: bool
    ghost var model: State<Functor>
    ghost var history: seq<Event<Functor>>

    /** The fields show the queue, the batch, the flag, the eventfd and quit of the model,
        and the model is what the history leads to. */
    ghost predicate Valid()
      reads this
    {
      && model.pending == pendingFunctors
      && model.batch == functors
      && model.calling == callingPendingFunctors
      && model.counter == wakeupFd
      && model.quit == quitFlag
      && Recorded(history, model)
    }

    constructor ()
      ensures Valid() && model == Initial() && history == []
    {
      pendingFunctors, functors, callingPendingFunctors, wakeupFd, quitFlag := [], [], false, 0, false;
      model, history := Initial(), [];
    }

    ghost method Record(e: Event<Functor>)
      requires Recorded(history, model) && Enabled(model, e)
      modifies `model, `history
      ensures Recorded(history, model) && model == Step(old(model), e) && history == old(history) + [e]
    {
      RecordedStep(history, model, e);
      model, history := Step(model, e), history + [e];
    }

    method WriteWakeup()
      modifies `wakeupFd
      ensures wakeupFd == Woken(old(wakeupFd))
    {
      if wakeupFd < EVENTFD_MAX {
        wakeupFd := wakeupFd + 1;
      }
    }

    method HandleWakeup()
      requires Valid() && Enabled(model, Event.HandleWakeup)
      modifies this
      ensures Valid() && model == Step(old(model), Event.HandleWakeup) && history == old(history) + [Event.HandleWakeup]
      ensures wakeupFd == 0
    {
      hide Recorded;
      wakeupFd := 0;
      Record(Event.HandleWakeup);
    }

    /** The lock region of queueInLoop on the loop thread. */
    method PushFromLoop(cb: Functor)
      requires Valid() && Enabled(model, LoopPush(cb))
      modifies this
      ensures Valid() && model == Step(old(model), LoopPush(cb)) && history == old(history) + [LoopPush(cb)]
    {
      hide Recorded;
      pendingFunctors := pendingFunctors + [cb];
      Record(LoopPush(cb));
    }

    /** The wakeup that follows it while functors are being run. */
    method WakeFromLoop()
      requires Valid() && Enabled(model, LoopWake)
      modifies this
      ensures Valid() && model == Step(old(model), LoopWake) && history == old(history) + [LoopWake]
    {
      hide Recorded;
      WriteWakeup();
      Record(LoopWake);
    }

    /** The lock region of queueInLoop on another thread. */
    method QueueFromElsewhere(thread: int, cb: Functor)
      requires Valid() && Enabled(model, ForeignPush(thread, cb))
      modifies this
      ensures Valid() && model == Step(old(model), ForeignPush(thread, cb))
      ensures history == old(history) + [ForeignPush(thread, cb)]
    {
      hide Recorded;
      pendingFunctors := pendingFunctors + [cb];
      Record(ForeignPush(thread, cb));
    }

    /** The wakeup that follows it, outside the lock. */
    method WakeFromElsewhere(thread: int)
      requires Valid() && Enabled(model, ForeignWake(thread))
      modifies this
      ensures Valid() && model == Step(old(model), ForeignWake(thread))
      ensures history == old(history) + [ForeignWake(thread)]
    {
      hide Recorded;
      WriteWakeup();
      Record(ForeignWake(thread));
    }

    /** quit(): first the flag, then, on another thread, the wakeup. */
    method SetQuit()
      requires Valid()
      modifies this
      ensures Valid() && model == Step(old(model), Event.Quit) && history == old(history) + [Event.Quit]
    {
      hide Recorded;
      quitFlag := true;
      Record(Event.Quit);
    }

    method WakeForQuit()
      requires Valid()
      modifies this
      ensures Valid() && model == Step(old(model), QuitWake) && history == old(history) + [QuitWake]
    {
      hide Recorded;
      WriteWakeup();
      Record(QuitWake);
    }

    /** What other threads do until it is the loop thread's turn. */
    method LetOthersMove(script: seq<Turn>) returns (rest: seq<Turn>)
      requires Valid() && Legal(model.waking, script)
      modifies this
      ensures Valid() && Legal(model.waking, rest) && |rest| <= |script|
      ensures Untouched(old(model), model) && functors == old(functors)
      ensures old(history) <= history && OwnPushes(history) == OwnPushes(old(history))
      ensures ForeignPart(history) + Others(rest) == ForeignPart(old(history)) + Others(script)
    {
      hide Recorded, OwnPushes, ForeignPart, Others, Legal;
      rest := script;
      while rest != [] && rest[0].Other?
        invariant Valid() && Legal(model.waking, rest) && |rest| <= |script|
        invariant Untouched(old(model), model) && functors == old(functors)
        invariant old(history) <= history && OwnPushes(history) == OwnPushes(old(history))
        invariant ForeignPart(history) + Others(rest) == ForeignPart(old(history)) + Others(script)
      {
        LegalMove(model, rest);
        OtherCounted(history, rest);
        OtherMoves(rest[0].event);
        rest := rest[1..];
      }
      if rest != [] {
        TurnPasses(model.waking, rest);
        rest := rest[1..];
      }
    }

    /** One event of another thread. */
    method OtherMoves(e: Event<Functor>)
      requires Valid() && IsForeign(e) && Enabled(model, e)
      modifies this
      ensures Valid() && model == Step(old(model), e) && history == old(history) + [e]
    {
      match e {
        case ForeignPush(t, f) => QueueFromElsewhere(t, f);
        case ForeignWake(t) => WakeFromElsewhere(t);
        case Quit => SetQuit();
        case QuitWake => WakeForQuit();
      }
    }

    /** queueInLoop on the loop thread; others may come in between the push and the wakeup. */
    method QueueFromLoop(cb: Functor, script: seq<Turn>) returns (rest: seq<Turn>)
      requires Valid() && Enabled(model, LoopPush(cb)) && Legal(model.waking, script)
      modifies this
      ensures Valid() && Legal(model.waking, rest)
      ensures Untouched(old(model).(early := model.early), model) && functors == old(functors)
      ensures model.early == (old(model.early) || old(model.phase) == NotStarted)
      ensures old(history) <= history && OwnPushes(history) == OwnPushes(old(history)) + [cb]
      ensures ForeignPart(history) + Others(rest) == ForeignPart(old(history)) + Others(script)
    {
      hide Recorded, OwnPushes, ForeignPart, Others, Legal;
      WakingOnlyWhileDraining(history, model);
      PartsSnoc(history, LoopPush(cb));
      PushFromLoop(cb);
      rest := LetOthersMove(script);
      if callingPendingFunctors {
        PartsSnoc(history, LoopWake);
        WakeFromLoop();
      }
    }

    /** The lock region of doPendingFunctors. */
    method SwapPending()
      requires Valid() && Enabled(model, Swap)
      modifies this
      ensures Valid() && model == Step(old(model), Swap) && history == old(history) + [Swap]
    {
      hide Recorded;
      functors, pendingFunctors := pendingFunctors, [];
      callingPendingFunctors := true;
      Record(Swap);
    }

    method TakeNext() returns (f: Functor)
      requires Valid() && Enabled(model, Execute)
      modifies this
      ensures Valid() && model == Step(old(model), Execute) && history == old(history) + [Execute]
      ensures f == old(functors)[0]
    {
      hide Recorded;
      f := functors[0];
      functors := functors[1..];
      Record(Execute);
    }

    method FinishDrain()
      requires Valid() && Enabled(model, EndDrain)
      modifies this
      ensures Valid() && model == Step(old(model), EndDrain) && history == old(history) + [EndDrain]
    {
      hide Recorded;
      callingPendingFunctors := false;
      Record(EndDrain);
    }

    /** doPendingFunctors, whatever other threads do between any two of its steps: the
        functors that waited run, in order, and nothing else does; what waits afterwards is
        everything queued meanwhile, by whomever, in lock order; the loop's own part of it
        is what the functors queue; and it is announced. */
    method DoPendingFunctors(script: seq<Turn>) returns (rest: seq<Turn>)
      requires Valid() && model.phase == Dispatching && Legal(model.waking, script)
      modifies this
      ensures Valid() && model.phase == Testing && Legal(model.waking, rest)
      ensures model.executed == old(model.executed) + old(pendingFunctors)
      ensures old(model.queued) + pendingFunctors == model.queued
      ensures pendingFunctors != [] ==> wakeupFd > 0 || model.waking != {}
      ensures old(history) <= history && OwnPushes(history) == OwnPushes(old(history)) + Children(old(pendingFunctors))
      ensures ForeignPart(history) + Others(rest) == ForeignPart(old(history)) + Others(script)
    {
      hide Recorded, OwnPushes, ForeignPart, Others, Legal, Children;
      BeforeSwap(history, model);
      PartsSnoc(history, Swap);
      SwapPending();
      rest := LetOthersMove(script);
      rest := DrainBatch(rest);
      PartsSnoc(history, EndDrain);
      FinishDrain();
      AfterDrain(history, model);
    }

    /** The loop over the batch. */
    method DrainBatch(script: seq<Turn>) returns (rest: seq<Turn>)
      requires Valid() && DrainGoesOn(model) && Legal(model.waking, script)
      modifies this
      ensures Valid() && DrainGoesOn(model) && Legal(model.waking, rest) && functors == []
      ensures model.executed == old(model.executed) + old(functors)
      ensures old(history) <= history && OwnPushes(history) == OwnPushes(old(history)) + Children(old(functors))
      ensures ForeignPart(history) + Others(rest) == ForeignPart(old(history)) + Others(script)
    {
      hide Recorded, OwnPushes, ForeignPart, Others, Legal, Children;
      ghost var batch, own := functors, OwnPushes(history);
      ghost var done: nat := 0;
      rest := script;
      NoChildren();
      while functors != []
        invariant Valid() && Legal(model.waking, rest) && DrainGoesOn(model)
        invariant done <= |batch| && functors == batch[done..]
        invariant model.executed == old(model.executed) + batch[..done]
        invariant old(history) <= history && OwnPushes(history) == own + Children(batch[..done])
        invariant ForeignPart(history) + Others(rest) == ForeignPart(old(history)) + Others(script)
        decreases |functors|
      {
        PartsSnoc(history, Execute);
        var f := TakeNext();
        rest := RunFunctor(f, rest);
        assert batch[..done + 1] == batch[..done] + [f];
        ChildrenSnoc(batch[..done], f);
        done := done + 1;
      }
      assert batch[..done] == batch;
    }

    /** Running a functor: it queues what it queues, each push with its wakeup. */
    method RunFunctor(f: Functor, script: seq<Turn>) returns (rest: seq<Turn>)
      requires Valid() && DrainGoesOn(model) && Legal(model.waking, script)
      modifies this
      ensures Valid() && DrainGoesOn(model) && Legal(model.waking, rest)
      ensures functors == old(functors) && model.executed == old(model.executed)
      ensures old(history) <= history && OwnPushes(history) == OwnPushes(old(history)) + f.queues
      ensures ForeignPart(history) + Others(rest) == ForeignPart(old(history)) + Others(script)
    {
      hide Recorded, OwnPushes, ForeignPart, Others, Legal;
      ghost var own := OwnPushes(history);
      rest := LetOthersMove(script);
      for i := 0 to |f.queues|
        invariant Valid() && DrainGoesOn(model) && Legal(model.waking, rest)
        invariant functors == old(functors) && model.executed == old(model.executed)
        invariant old(history) <= history && OwnPushes(history) == own + f.queues[..i]
        invariant ForeignPart(history) + Others(rest) == ForeignPart(old(history)) + Others(script)
      {
        rest := QueueFromLoop(f.queues[i], rest);
        rest := LetOthersMove(rest);
        assert f.queues[..i + 1] == f.queues[..i] + [f.queues[i]];
        assert own + f.queues[..i] + [f.queues[i]] == own + f.queues[..i + 1];
      }
    }
  }

  /** Other threads leave the loop thread where it is. */
  ghost predicate Untouched(s: State, n: State) {
    && n.phase == s.phase && n.batch == s.batch && n.calling == s.calling && n.loopWaking == s.loopWaking
    && n.early == s.early && n.mark == s.mark && n.executed == s.executed
  }

  ghost predicate DrainGoesOn(s: State) {
    s.phase == Draining && s.calling && !s.loopWaking && !s.early
  }

  lemma WakingOnlyWhileDraining<F>(history: seq<Event<F>>, s: State<F>)
    requires Recorded(history, s)
    ensures s.loopWaking ==> s.phase == Draining
  {
  }

  lemma BeforeSwap<F>(history: seq<Event<F>>, s: State<F>)
    requires Recorded(history, s) && s.phase == Dispatching
    ensures s.batch == [] && !s.calling && !s.loopWaking && Enabled(s, Swap)
    ensures s.queued == s.executed + s.pending
  {
  }

  lemma AfterDrain<F>(history: seq<Event<F>>, s: State<F>)
    requires Recorded(history, s) && s.phase == Testing && !s.early && !s.loopWaking
    ensures s.batch == [] && s.queued == s.executed + s.pending
    ensures s.pending != [] ==> s.counter > 0 || s.waking != {}
  {
  }

  /** What a batch queues while it runs, in order. */
  function Children(batch: seq<Functor>): seq<Functor> {
    Flatten(seq(|batch|, i requires 0 <= i < |batch| => batch[i].queues))
  }

  lemma NoChildren()
    ensures Children([]) == []
  {
  }

  lemma ChildrenSnoc(batch: seq<Functor>, last: Functor)
    ensures Children(batch + [last]) == Children(batch) + last.queues
  {
    var all := batch + [last];
    var parts := seq(|batch|, i requires 0 <= i < |batch| => batch[i].queues);
    assert seq(|all|, i requires 0 <= i < |all| => all[i].queues) == parts + [last.queues];
    FlattenSnoc(parts, last.queues);
  }
}
