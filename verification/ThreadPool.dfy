/** The thread pool as a step system over every interleaving of submitters, workers
    and the destructor. Each event is one lock region, one notification or the end of
    one task; the condition variable is a set of sleeping workers that may also wake
    by themselves. */
module ThreadPools {
  import opened Basics

  datatype Worker<T> =
    | Ready             // about to take the lock and test the wait predicate
    | Asleep            // inside cv_.wait, not notified
    | Running(task: T)  // outside the lock, running a task
    | Exited

  datatype State<T> = State(
    tasks: seq<T>,            // tasks_
    stop: bool,               // stop_
    bound: nat,               // config_.max_queue_size, 0 for none
    workers: seq<Worker<T>>,
    notified: bool,           // the notify_all that follows stop_ has run
    accepted: seq<T>,         // tasks Submit took, in lock order
    started: seq<T>,          // tasks workers took, in lock order
    rejected: seq<T>)         // tasks Submit refused with an exception

  ghost function Initial<T>(threads: nat, bound: nat): State<T> {
    State([], false, bound, seq(threads, _ => Ready), false, [], [], [])
  }

  datatype Event<T> =
    | Submit(task: T, wake: Option<nat>)  // wake: the sleeper notify_one picks, if there is one
    | Check(worker: nat)                  // the lock region of WorkerLoop
    | Spurious(worker: nat)               // a wakeup nobody asked for
    | Finish(worker: nat)                 // a task ends
    | SetStop                             // Cleanup, under the lock
    | NotifyAll
    | Clear                               // the last lock region of Cleanup, after the joins

  predicate Sleeps<T>(workers: seq<Worker<T>>, i: nat) { i < |workers| && workers[i].Asleep? }

  ghost predicate SomeoneSleeps<T>(workers: seq<Worker<T>>) { exists i: nat :: Sleeps(workers, i) }

  predicate Admits(s: State) { !s.stop && (s.bound == 0 || |s.tasks| < s.bound) }

  predicate AllExited(s: State) { forall i :: 0 <= i < |s.workers| ==> s.workers[i].Exited? }

  ghost predicate Enabled<T>(s: State<T>, e: Event<T>) {
    match e
    case Submit(t, wake) =>
      Admits(s) ==> if wake.Some? then Sleeps(s.workers, wake.value) else !SomeoneSleeps(s.workers)
    case Check(w) => w < |s.workers| && s.workers[w].Ready?
    case Spurious(w) => Sleeps(s.workers, w)
    case Finish(w) => w < |s.workers| && s.workers[w].Running?
    case SetStop => !s.stop
    case NotifyAll => s.stop && !s.notified
    case Clear => s.notified && AllExited(s)
  }

  function WakeAll<T>(workers: seq<Worker<T>>): (r: seq<Worker<T>>)
    ensures |r| == |workers|
    ensures forall i :: 0 <= i < |r| ==> r[i] == if workers[i].Asleep? then Ready else workers[i]
  {
    seq(|workers|, i requires 0 <= i < |workers| => if workers[i].Asleep? then Ready else workers[i])
  }

  ghost function Step<T>(s: State<T>, e: Event<T>): State<T>
    requires Enabled(s, e)
  {
    match e
    case Submit(t, wake) =>
      if !Admits(s) then s.(rejected := s.rejected + [t])
      else s.(tasks := s.tasks + [t], accepted := s.accepted + [t],
              workers := if wake.Some? then s.workers[wake.value := Ready] else s.workers)
    case Check(w) =>
      if !s.stop && s.tasks == [] then s.(workers := s.workers[w := Asleep])
      else if s.stop && s.tasks == [] then s.(workers := s.workers[w := Exited])
      else s.(workers := s.workers[w := Running(s.tasks[0])],
              started := s.started + [s.tasks[0]], tasks := s.tasks[1..])
    case Spurious(w) => s.(workers := s.workers[w := Ready])
    case Finish(w) => s.(workers := s.workers[w := Ready])
    case SetStop => s.(stop := true)
    case NotifyAll => s.(workers := WakeAll(s.workers), notified := true)
    case Clear => if |s.tasks| > 0 then s.(tasks := []) else s
  }

  ghost predicate IsRun<T>(s: State<T>, run: seq<Event<T>>)
    decreases |run|
  {
    run == [] || (Enabled(s, run[0]) && IsRun(Step(s, run[0]), run[1..]))
  }

  ghost function After<T>(s: State<T>, run: seq<Event<T>>): State<T>
    requires IsRun(s, run)
    decreases |run|
  {
    if run == [] then s else After(Step(s, run[0]), run[1..])
  }

  // --------------------------------------------------------------- counting

  ghost function Total<T>(workers: seq<Worker<T>>, weight: Worker<T> -> nat): nat {
    if workers == [] then 0 else weight(workers[0]) + Total(workers[1..], weight)
  }

  lemma {:induction false} TotalUpdate<T>(workers: seq<Worker<T>>, weight: Worker<T> -> nat, i: nat, w: Worker<T>)
    requires i < |workers|
    ensures Total(workers[i := w], weight) == Total(workers, weight) - weight(workers[i]) + weight(w)
  {
    if i == 0 {
      assert workers[0 := w][1..] == workers[1..];
    } else {
      assert workers[i := w][1..] == workers[1..][i - 1 := w];
      TotalUpdate(workers[1..], weight, i - 1, w);
    }
  }

  /** A worker with weight makes the total positive, and a positive total has such a worker. */
  lemma {:induction false} TotalPositive<T>(workers: seq<Worker<T>>, weight: Worker<T> -> nat)
    ensures Total(workers, weight) > 0 <==> exists i :: 0 <= i < |workers| && weight(workers[i]) > 0
  {
    if workers == [] {
    } else {
      TotalPositive(workers[1..], weight);
      if i :| 0 <= i < |workers[1..]| && weight(workers[1..][i]) > 0 {
        assert weight(workers[i + 1]) > 0;
      }
      if i :| 0 < i < |workers| && weight(workers[i]) > 0 {
        assert weight(workers[1..][i - 1]) > 0;
      }
    }
  }

  function IsReady<T>(w: Worker<T>): nat { if w.Ready? then 1 else 0 }

  /** How many more events of its own a worker has, besides taking queued tasks. */
  function Life<T>(w: Worker<T>): nat {
    match w
    case Ready => 1
    case Asleep => 1
    case Running(_) => 2
    case Exited => 0
  }

  // -------------------------------------------------------------- invariant

  ghost predicate Invariant<T>(s: State<T>) {
    && |s.workers| > 0
    && s.accepted == s.started + s.tasks
    && (s.bound > 0 ==> |s.tasks| <= s.bound)
    && (SomeoneSleeps(s.workers) ==> |s.tasks| <= Total(s.workers, IsReady))
    && (s.notified ==> s.stop && !SomeoneSleeps(s.workers))
    && (forall i :: 0 <= i < |s.workers| && s.workers[i].Exited? ==> s.stop && s.tasks == [])
  }

  lemma SleeperRemains<T>(workers: seq<Worker<T>>, w: nat, status: Worker<T>)
    requires w < |workers| && !status.Asleep?
    ensures SomeoneSleeps(workers[w := status]) ==> SomeoneSleeps(workers)
  {
    var updated := workers[w := status];
    if i: nat :| Sleeps(updated, i) {
      assert Sleeps(workers, i);
    }
  }

  lemma StepKeepsInvariant<T>(s: State<T>, e: Event<T>)
    requires Invariant(s) && Enabled(s, e)
    ensures Invariant(Step(s, e))
  {
    match e
    case Submit(t, wake) => SubmitKeepsInvariant(s, t, wake);
    case Check(w) => CheckKeepsInvariant(s, w);
    case Spurious(w) => WakeKeepsInvariant(s, w);
    case Finish(w) => WakeKeepsInvariant(s, w);
    case SetStop =>
    case NotifyAll => assert !SomeoneSleeps(Step(s, e).workers);
    case Clear => assert s.workers[0].Exited?;
  }

  lemma SubmitKeepsInvariant<T>(s: State<T>, t: T, wake: Option<nat>)
    requires Invariant(s) && Enabled(s, Submit(t, wake))
    ensures Invariant(Step(s, Submit(t, wake)))
  {
    var n := Step(s, Submit(t, wake));
    if Admits(s) {
      assert s.started + s.tasks + [t] == s.started + (s.tasks + [t]);
      if wake.Some? {
        assert Sleeps(s.workers, wake.value);
        TotalUpdate(s.workers, IsReady, wake.value, Ready);
      }
    }
  }

  lemma CheckKeepsInvariant<T>(s: State<T>, w: nat)
    requires Invariant(s) && Enabled(s, Check(w))
    ensures Invariant(Step(s, Check(w)))
  {
    var n := Step(s, Check(w));
    TotalUpdate(s.workers, IsReady, w, n.workers[w]);
    if n.workers[w].Asleep? {
      assert |n.tasks| == 0;
    } else {
      SleeperRemains(s.workers, w, n.workers[w]);
      if n.workers[w].Running? {
        assert s.started + s.tasks == s.started + [s.tasks[0]] + s.tasks[1..];
      }
    }
  }

  lemma WakeKeepsInvariant<T>(s: State<T>, w: nat)
    requires Invariant(s) && w < |s.workers| && (s.workers[w].Asleep? || s.workers[w].Running?)
    ensures Invariant(s.(workers := s.workers[w := Ready]))
  {
    TotalUpdate(s.workers, IsReady, w, Ready);
    SleeperRemains(s.workers, w, Ready);
  }

  lemma {:induction false} RunKeepsInvariant<T>(s: State<T>, run: seq<Event<T>>)
    requires Invariant(s) && IsRun(s, run)
    ensures Invariant(After(s, run))
    ensures |After(s, run).workers| == |s.workers| && After(s, run).bound == s.bound
    decreases |run|
  {
    if run == [] {
    } else {
      StepKeepsInvariant(s, run[0]);
      RunKeepsInvariant(Step(s, run[0]), run[1..]);
    }
  }

  // ----------------------------------------------------------- main results

  /** The tasks handed to Submit, in the order of the lock. */
  ghost function Submitted<T>(run: seq<Event<T>>): seq<T> {
    if run == [] then []
    else if run[0].Submit? then [run[0].task] + Submitted(run[1..])
    else Submitted(run[1..])
  }

  lemma {:induction false} SubmittedIsAcceptedOrRejected<T>(s: State<T>, run: seq<Event<T>>)
    requires IsRun(s, run)
    ensures multiset(After(s, run).accepted) + multiset(After(s, run).rejected)
            == multiset(s.accepted) + multiset(s.rejected) + multiset(Submitted(run))
    decreases |run|
  {
    if run == [] {
    } else {
      SubmittedIsAcceptedOrRejected(Step(s, run[0]), run[1..]);
    }
  }

  /** Every interleaving: the tasks taken by Submit are those started, then those queued,
      in that order, so each starts once and in submit order; everything submitted is
      started, queued or refused, and only one of them; a bounded queue keeps its bound. */
  lemma ExactlyOnceInOrder<T>(threads: nat, bound: nat, run: seq<Event<T>>)
    requires threads > 0 && IsRun(Initial(threads, bound), run)
    ensures var s := After(Initial(threads, bound), run);
            && s.accepted == s.started + s.tasks
            && multiset(Submitted(run)) == multiset(s.started) + multiset(s.tasks) + multiset(s.rejected)
            && (bound > 0 ==> |s.tasks| <= bound)
  {
    var s: State<T> := Initial(threads, bound);
    assert !SomeoneSleeps(s.workers);
    RunKeepsInvariant(s, run);
    SubmittedIsAcceptedOrRejected(s, run);
  }

  /** After every interleaving, a submission is refused if and only if the pool is stopping or as
      many of the accepted tasks as the bound allows have not started yet; refused or accepted,
      it is counted once, and a bound of zero never refuses. */
  lemma RefusedIff<T>(threads: nat, bound: nat, run: seq<Event<T>>, task: T, wake: Option<nat>)
    requires threads > 0 && IsRun(Initial(threads, bound), run)
    requires Enabled(After(Initial(threads, bound), run), Submit(task, wake))
    ensures var s := After(Initial(threads, bound), run);
            var n := Step(s, Submit(task, wake));
            var refused := s.stop || (bound > 0 && |s.accepted| - |s.started| == bound);
            && n.rejected == s.rejected + (if refused then [task] else [])
            && n.accepted == s.accepted + (if refused then [] else [task])
            && n.started == s.started
  {
    var start: State<T> := Initial(threads, bound);
    assert !SomeoneSleeps(start.workers);
    RunKeepsInvariant(start, run);
  }

  /** No lost wakeup: while tasks wait, some worker is awake; and while one sleeps, every
      waiting task has an awake worker of its own on its way to the lock. */
  lemma NoLostWakeup<T>(threads: nat, bound: nat, run: seq<Event<T>>)
    requires threads > 0 && IsRun(Initial(threads, bound), run)
    ensures var s := After(Initial(threads, bound), run);
            && (s.tasks != [] ==> exists i :: 0 <= i < |s.workers| && (s.workers[i].Ready? || s.workers[i].Running?))
            && (SomeoneSleeps(s.workers) ==> |s.tasks| <= Total(s.workers, IsReady))
            && (s.notified ==> !SomeoneSleeps(s.workers))
  {
    var start: State<T> := Initial(threads, bound);
    assert !SomeoneSleeps(start.workers);
    RunKeepsInvariant(start, run);
    var s := After(start, run);
    if s.tasks != [] {
      if SomeoneSleeps(s.workers) {
        TotalPositive(s.workers, IsReady);
      } else {
        assert !Sleeps(s.workers, 0);
        assert s.workers[0].Ready? || s.workers[0].Running?;
      }
    }
  }

  /** What is left to do once everyone has been told to stop. */
  ghost function Measure<T>(s: State<T>): nat { 2 * |s.tasks| + Total(s.workers, Life) }

  predicate IsWork<T>(e: Event<T>) { e.Check? || e.Finish? }

  lemma WorkDecreases<T>(s: State<T>, e: Event<T>)
    requires Invariant(s) && s.notified && Enabled(s, e)
    ensures Step(s, e).notified
    ensures IsWork(e) ==> Measure(Step(s, e)) < Measure(s)
    ensures Measure(Step(s, e)) <= Measure(s)
  {
    if IsWork(e) {
      TotalUpdate(s.workers, Life, e.worker, Step(s, e).workers[e.worker]);
    }
    if e.Spurious? {
      assert SomeoneSleeps(s.workers);
    }
  }

  ghost function WorkIn<T>(run: seq<Event<T>>): nat {
    if run == [] then 0 else (if IsWork(run[0]) then 1 else 0) + WorkIn(run[1..])
  }

  /** After stop and notify_all, only so many worker events can still happen, whatever
      else is tried in between. */
  lemma {:induction false} ShutdownIsBounded<T>(s: State<T>, run: seq<Event<T>>)
    requires Invariant(s) && s.notified && IsRun(s, run)
    ensures WorkIn(run) + Measure(After(s, run)) <= Measure(s)
    decreases |run|
  {
    if run == [] {
    } else {
      StepKeepsInvariant(s, run[0]);
      WorkDecreases(s, run[0]);
      ShutdownIsBounded(Step(s, run[0]), run[1..]);
    }
  }

  /** And it does not stop short: until every worker has left, one of them can move. When
      they have left, the queue is empty and everything accepted has started, so the
      final clearing finds nothing. */
  lemma ShutdownCompletes<T>(s: State<T>)
    requires Invariant(s) && s.notified
    ensures !AllExited(s) ==> exists i: nat :: Enabled(s, Check(i)) || Enabled(s, Finish(i))
    ensures AllExited(s) ==> s.tasks == [] && s.started == s.accepted && Step(s, Clear) == s
  {
    if !AllExited(s) {
      var i: nat :| i < |s.workers| && !s.workers[i].Exited?;
      assert !Sleeps(s.workers, i);
      assert Enabled(s, Check(i)) || Enabled(s, Finish(i));
    } else {
      assert s.workers[0].Exited?;
      assert s.started + [] == s.started;
    }
  }

  // ---------------------------------------------------------------- the pool

  predicate IsOthers<T>(e: Event<T>) { e.Submit? || e.Check? || e.Spurious? || e.Finish? }

  predicate OnlyOthers<T>(script: seq<Event<T>>) { forall i :: 0 <= i < |script| ==> IsOthers(script[i]) }

  /** Once the pool is stopping, nothing is accepted any more. */
  lemma StoppedStep<T>(s: State<T>, e: Event<T>)
    requires s.stop && Enabled(s, e) && IsOthers(e)
    ensures var n := Step(s, e);
            && n.stop && n.notified == s.notified && n.accepted == s.accepted
            && n.rejected == if e.Submit? then s.rejected + [e.task] else s.rejected
  {
  }

  lemma NoneSubmitted<T>()
    ensures Submitted<T>([]) == []
  {
  }

  lemma {:induction false} SubmittedSnoc<T>(run: seq<Event<T>>, e: Event<T>)
    ensures Submitted(run + [e]) == if e.Submit? then Submitted(run) + [e.task] else Submitted(run)
  {
    if run == [] {
      assert run + [e] == [e] && [e][1..] == [];
    } else {
      SubmittedSnoc(run[1..], e);
      assert (run + [e])[1..] == run[1..] + [e];
    }
  }

  class ThreadPool<T> {
    var tasks: seq<T>
    var stop: bool
    const maxQueueSize: nat
    var workers: seq<Worker<T>>      // where each thread of workers_ stands
    ghost var model: State<T>

    ghost predicate Valid()
      reads this
    {
      && model.tasks == tasks && model.stop == stop && model.bound == maxQueueSize && model.workers == workers
      && Invariant(model)
    }

    constructor (threads: nat, maxQueue: nat)
      requires threads > 0
      ensures Valid() && model == Initial(threads, maxQueue)
    {
      tasks, stop, maxQueueSize := [], false, maxQueue;
      workers := seq(threads, _ => Ready);
      model := Initial(threads, maxQueue);
      new;
      assert !SomeoneSleeps(model.workers);
    }

    /** Submit: refused when stopped or full, else queued with one notification. */
    method Submit(task: T, wake: Option<nat>) returns (accepted: bool)
      requires Valid() && Enabled(model, Event.Submit(task, wake))
      modifies this
      ensures Valid() && model == Step(old(model), Event.Submit(task, wake))
      ensures accepted <==> !old(stop) && (maxQueueSize == 0 || |old(tasks)| < maxQueueSize)
      ensures tasks == old(tasks) + if accepted then [task] else []
    {
      StepKeepsInvariant(model, Event.Submit(task, wake));
      ghost var next := Step(model, Event.Submit(task, wake));
      if stop {
        model := next;
        return false;
      }
      if maxQueueSize > 0 && |tasks| >= maxQueueSize {
        model := next;
        return false;
      }
      tasks := tasks + [task];
      if wake.Some? {
        workers := workers[wake.value := Ready];
      }
      model := next;
      return true;
    }

    /** One pass of a worker through the lock: sleep, leave, or take the oldest task. */
    method TakeTask(worker: nat) returns (task: Option<T>)
      requires Valid() && Enabled(model, Check(worker))
      modifies this
      ensures Valid() && model == Step(old(model), Check(worker))
      ensures if old(tasks) == [] then task.None? else task.Some? && old(tasks) == [task.value] + tasks
      ensures workers == old(workers)[worker := if old(tasks) != [] then Running(old(tasks)[0])
                                                else if old(stop) then Exited else Asleep]
    {
      StepKeepsInvariant(model, Check(worker));
      ghost var next := Step(model, Check(worker));
      task := None;
      if !(stop || |tasks| > 0) {
        workers := workers[worker := Asleep];
      } else if stop && |tasks| == 0 {
        workers := workers[worker := Exited];
      } else {
        task := Some(tasks[0]);
        tasks := tasks[1..];
        workers := workers[worker := Running(task.value)];
      }
      model := next;
    }

    method FinishTask(worker: nat)
      requires Valid() && Enabled(model, Finish(worker))
      modifies this
      ensures Valid() && model == Step(old(model), Finish(worker))
    {
      StepKeepsInvariant(model, Finish(worker));
      ghost var next := Step(model, Finish(worker));
      workers := workers[worker := Ready];
      model := next;
    }

    method WakeWorker(worker: nat)
      requires Valid() && Enabled(model, Spurious(worker))
      modifies this
      ensures Valid() && model == Step(old(model), Spurious(worker))
    {
      StepKeepsInvariant(model, Spurious(worker));
      ghost var next := Step(model, Spurious(worker));
      workers := workers[worker := Ready];
      model := next;
    }

    /** Cleanup's first lock region. */
    method RequestStop()
      requires Valid() && Enabled(model, SetStop)
      modifies this
      ensures Valid() && model == Step(old(model), SetStop)
    {
      StepKeepsInvariant(model, SetStop);
      stop := true;
      model := Step(model, SetStop);
    }

    method WakeEveryone()
      requires Valid() && Enabled(model, NotifyAll)
      modifies this
      ensures Valid() && model == Step(old(model), NotifyAll)
    {
      StepKeepsInvariant(model, NotifyAll);
      model := Step(model, NotifyAll);
      workers := WakeAll(workers);
    }

    /** One event of a submitter or a worker. */
    method OtherMoves(e: Event<T>)
      requires Valid() && Enabled(model, e) && IsOthers(e)
      modifies this
      ensures Valid() && model == Step(old(model), e)
    {
      match e {
        case Submit(t, wake) => var accepted := Submit(t, wake);
        case Check(w) => var task := TakeTask(w);
        case Spurious(w) => WakeWorker(w);
        case Finish(w) => FinishTask(w);
      }
    }

    /** What submitters and workers do meanwhile, once the pool is stopping. */
    method LetOthersMove(script: seq<Event<T>>, ghost later: seq<Event<T>>)
      requires Valid() && stop && OnlyOthers(script) && IsRun(model, script + later)
      modifies this
      ensures Valid() && stop && IsRun(model, later) && model.notified == old(model.notified)
      ensures model.accepted == old(model.accepted)
      ensures model.rejected == old(model.rejected) + Submitted(script)
    {
      hide Invariant, Step, Submitted, Enabled;
      assert script + later == script[0..] + later;
      NoneSubmitted<T>();
      for k := 0 to |script|
        invariant Valid() && stop && IsRun(model, script[k..] + later) && model.notified == old(model.notified)
        invariant model.accepted == old(model.accepted)
        invariant model.rejected == old(model.rejected) + Submitted(script[..k])
      {
        assert (script[k..] + later)[0] == script[k] && (script[k..] + later)[1..] == script[k + 1..] + later;
        StoppedStep(model, script[k]);
        SubmittedSnoc(script[..k], script[k]);
        assert script[..k + 1] == script[..k] + [script[k]];
        OtherMoves(script[k]);
      }
      assert script[|script|..] + later == later && script[..|script|] == script;
    }

    /** Cleanup: stop, tell everyone, wait for every worker, look for leftovers. Whatever
        submitters and workers do between stop and notification, and after it, every task
        accepted before is run and every one submitted since is refused. */
    method Cleanup(between: seq<Event<T>>, meanwhile: seq<Event<T>>) returns (remaining: nat)
      requires Valid() && !stop && OnlyOthers(between) && OnlyOthers(meanwhile)
      requires IsRun(model, [SetStop] + between + [NotifyAll] + meanwhile)
      modifies this
      ensures Valid() && stop && AllExited(model)
      ensures remaining == 0 && tasks == []
      ensures model.started == model.accepted == old(model.accepted)
      ensures model.rejected == old(model.rejected) + Submitted(between) + Submitted(meanwhile)
    {
      hide Invariant, Submitted, SomeoneSleeps, WakeAll;
      ghost var last := [NotifyAll] + meanwhile;
      assert [SetStop] + between + [NotifyAll] + meanwhile == [SetStop] + (between + last);
      assert ([SetStop] + (between + last))[1..] == between + last;
      RequestStop();
      LetOthersMove(between, last);
      assert last[1..] == meanwhile && meanwhile + [] == meanwhile;
      WakeEveryone();
      LetOthersMove(meanwhile, []);
      WaitForWorkers();
      ShutdownCompletes(model);
      remaining := ClearLeftovers();
    }

    /** The joins: the workers that are left move, in any order, until none is. */
    method WaitForWorkers()
      requires Valid() && model.notified && stop
      modifies this
      ensures Valid() && model.notified && stop && AllExited(model)
      ensures model.accepted == old(model.accepted) && model.rejected == old(model.rejected)
    {
      while exists i :: 0 <= i < |workers| && !workers[i].Exited?
        invariant Valid() && model.notified && stop
        invariant model.accepted == old(model.accepted) && model.rejected == old(model.rejected)
        decreases Measure(model)
      {
        var i :| 0 <= i < |workers| && !workers[i].Exited?;
        assert !Sleeps(model.workers, i);
        if workers[i].Ready? {
          WorkDecreases(model, Check(i));
          var task := TakeTask(i);
        } else {
          WorkDecreases(model, Finish(i));
          FinishTask(i);
        }
      }
    }

    /** The last lock region of Cleanup, whatever it finds. */
    method ClearLeftovers() returns (remaining: nat)
      modifies `tasks
      ensures remaining == |old(tasks)| && tasks == []
    {
      remaining := |tasks|;
      if remaining > 0 {
        tasks := [];
      }
    }
  }
}
