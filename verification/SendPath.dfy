/** Connection::send from any thread, through the event loop, to the socket. The
    functors of the loop are sends; the loop thread sends directly, every other
    thread through the queue. */
module SendPath {
  import opened Basics
  import opened Buffers
  import opened EventLoops
  import opened Connections

  datatype Post = Post(thread: int, message: string)

  datatype World = World(loop: State<Post>, output: Output)

  datatype Action =
    | LoopEvent(event: Event<Post>, outcome: WriteOutcome)  // outcome: of the write, when a send runs
    | Writable(outcome: WriteOutcome)                       // the connection's write callback

  /** The send an event runs, if it runs one. */
  ghost function Runs(s: State<Post>, e: Event<Post>): Option<Post>
    requires Enabled(s, e)
  {
    match e
    case RunDirect(f) => Some(f)
    case Execute => Some(s.batch[0])
    case _ => None
  }

  ghost predicate Fits(o: Output, more: string, outcome: WriteOutcome) {
    outcome.Accepted? ==> outcome.count <= |o.buffer| + |more|
  }

  /** send() on the loop thread runs at once; elsewhere it is queued. */
  ghost predicate SentBy(loopThread: int, e: Event<Post>) {
    match e
    case RunDirect(f) => f.thread == loopThread
    case ForeignPush(t, f) => f.thread == t && t != loopThread
    case LoopPush(f) => false
    case _ => true
  }

  ghost predicate Possible(loopThread: int, w: World, a: Action) {
    match a
    case LoopEvent(e, outcome) =>
      && Enabled(w.loop, e) && SentBy(loopThread, e)
      && (Runs(w.loop, e).Some? ==> Fits(w.output, Runs(w.loop, e).value.message, outcome))
    case Writable(outcome) =>
      w.loop.phase == Dispatching && Fits(w.output, "", outcome)
  }

  ghost function Next(loopThread: int, w: World, a: Action): World
    requires Possible(loopThread, w, a)
  {
    match a
    case LoopEvent(e, outcome) =>
      var run := Runs(w.loop, e);
      World(Step(w.loop, e),
            if run.Some? then SendStep(w.output, run.value.message, outcome) else w.output)
    case Writable(outcome) => w.(output := WritableStep(w.output, outcome))
  }

  ghost predicate IsHistory(loopThread: int, w: World, history: seq<Action>)
    decreases |history|
  {
    history == [] ||
    (Possible(loopThread, w, history[0]) && IsHistory(loopThread, Next(loopThread, w, history[0]), history[1..]))
  }

  ghost function Result(loopThread: int, w: World, history: seq<Action>): World
    requires IsHistory(loopThread, w, history)
    decreases |history|
  {
    if history == [] then w else Result(loopThread, Next(loopThread, w, history[0]), history[1..])
  }

  /** Whether an action makes a write: a send without write interest, a writable event with
      something to write. */
  ghost predicate Writes(w: World, a: Action)
    requires a.LoopEvent? ==> Enabled(w.loop, a.event)
  {
    match a
    case LoopEvent(e, outcome) => Runs(w.loop, e).Some? && !w.output.writing
    case Writable(outcome) => w.output.buffer != ""
  }

  /** Whether a write made in the history failed. */
  ghost predicate SomeWriteFailed(loopThread: int, w: World, history: seq<Action>)
    requires IsHistory(loopThread, w, history)
    decreases |history|
  {
    history != [] &&
    ((Writes(w, history[0]) && history[0].outcome.WriteFailed?)
     || SomeWriteFailed(loopThread, Next(loopThread, w, history[0]), history[1..]))
  }

  /** How many bytes the writes made in the history report as accepted. */
  ghost function Taken(loopThread: int, w: World, history: seq<Action>): nat
    requires IsHistory(loopThread, w, history)
    decreases |history|
  {
    if history == [] then 0
    else if Writes(w, history[0]) && history[0].outcome.Accepted? then
      history[0].outcome.count + Taken(loopThread, Next(loopThread, w, history[0]), history[1..])
    else Taken(loopThread, Next(loopThread, w, history[0]), history[1..])
  }

  function ByThread(posts: seq<Post>, thread: int): seq<string> {
    if posts == [] then []
    else if posts[0].thread == thread then [posts[0].message] + ByThread(posts[1..], thread)
    else ByThread(posts[1..], thread)
  }

  function Messages(posts: seq<Post>): (r: seq<string>)
    ensures |r| == |posts|
  {
    seq(|posts|, i requires 0 <= i < |posts| => posts[i].message)
  }

  lemma {:induction false} ByThreadAppend(a: seq<Post>, b: seq<Post>, thread: int)
    ensures ByThread(a + b, thread) == ByThread(a, thread) + ByThread(b, thread)
  {
    if a == [] {
      assert a + b == b;
    } else {
      assert (a + b)[1..] == a[1..] + b;
      ByThreadAppend(a[1..], b, thread);
    }
  }

  lemma ByThreadCons(p: Post, rest: seq<Post>, thread: int)
    ensures ByThread([p] + rest, thread) == (if p.thread == thread then [p.message] else []) + ByThread(rest, thread)
  {
    assert ([p] + rest)[1..] == rest;
  }

  lemma ByThreadSnoc(a: seq<Post>, p: Post, thread: int)
    ensures ByThread(a + [p], thread) == ByThread(a, thread) + (if p.thread == thread then [p.message] else [])
  {
    ByThreadAppend(a, [p], thread);
    assert [p][1..] == [];
  }

  ghost predicate NoneBy(posts: seq<Post>, thread: int) {
    forall i :: 0 <= i < |posts| ==> posts[i].thread != thread
  }

  lemma {:induction false} ByThreadNone(posts: seq<Post>, thread: int)
    requires NoneBy(posts, thread)
    ensures ByThread(posts, thread) == []
  {
    if posts == [] {
    } else {
      ByThreadNone(posts[1..], thread);
    }
  }

  /** Sends not run yet. */
  ghost function Waiting(s: State<Post>): seq<Post> { s.batch + s.pending }

  /** One thread's sends have run in its order and the rest wait in its order; the loop
      thread's never wait. */
  ghost predicate InOrder(loopThread: int, s: State<Post>, thread: int) {
    && ByThread(s.issued, thread) == ByThread(s.performed, thread) + ByThread(Waiting(s), thread)
    && NoneBy(Waiting(s), loopThread)
    && (s.batch != [] ==> s.phase == Draining)
  }

  lemma DirectKeepsOrder(loopThread: int, s: State<Post>, f: Post, thread: int)
    requires InOrder(loopThread, s, thread) && Enabled(s, RunDirect(f)) && f.thread == loopThread
    ensures InOrder(loopThread, Step(s, RunDirect(f)), thread)
  {
    ByThreadSnoc(s.issued, f, thread);
    ByThreadSnoc(s.performed, f, thread);
    if thread == loopThread {
      ByThreadNone(Waiting(s), thread);
    }
  }

  lemma ForeignKeepsOrder(loopThread: int, s: State<Post>, f: Post, thread: int)
    requires InOrder(loopThread, s, thread) && Enabled(s, ForeignPush(f.thread, f)) && f.thread != loopThread
    ensures InOrder(loopThread, Step(s, ForeignPush(f.thread, f)), thread)
  {
    hide ByThread;
    assert s.batch + (s.pending + [f]) == Waiting(s) + [f];
    ByThreadSnoc(s.issued, f, thread);
    ByThreadSnoc(Waiting(s), f, thread);
  }

  lemma ExecuteKeepsOrder(loopThread: int, s: State<Post>, thread: int)
    requires InOrder(loopThread, s, thread) && Enabled(s, Execute)
    ensures InOrder(loopThread, Step(s, Execute), thread)
  {
    hide ByThread;
    var rest := s.batch[1..] + s.pending;
    assert Waiting(s) == [s.batch[0]] + rest;
    MovesOver(s.performed, s.batch[0], rest, thread);
    NoneByTail(s.batch[0], rest, loopThread);
    hide NoneBy;
  }

  lemma NoneByTail(p: Post, rest: seq<Post>, thread: int)
    requires NoneBy([p] + rest, thread)
    ensures NoneBy(rest, thread)
  {
    forall i | 0 <= i < |rest|
      ensures rest[i].thread != thread
    {
      assert ([p] + rest)[i + 1] == rest[i];
    }
  }

  /** The first of the waiting sends becomes the last of those that have run. */
  lemma MovesOver(done: seq<Post>, p: Post, rest: seq<Post>, thread: int)
    ensures ByThread(done, thread) + ByThread([p] + rest, thread)
            == ByThread(done + [p], thread) + ByThread(rest, thread)
  {
    ByThreadCons(p, rest, thread);
    ByThreadSnoc(done, p, thread);
  }

  lemma LoopEventKeepsOrder(loopThread: int, s: State<Post>, e: Event<Post>, thread: int)
    requires InOrder(loopThread, s, thread) && Enabled(s, e) && SentBy(loopThread, e)
    ensures InOrder(loopThread, Step(s, e), thread)
  {
    hide ByThread, NoneBy;
    match e
    case RunDirect(f) => DirectKeepsOrder(loopThread, s, f, thread);
    case ForeignPush(t, f) => ForeignKeepsOrder(loopThread, s, f, thread);
    case Execute => ExecuteKeepsOrder(loopThread, s, thread);
    case Swap => assert s.pending + [] == Waiting(s);
    case _ =>
  }

  ghost predicate WorldInvariant(loopThread: int, w: World, thread: int) {
    && OutputInvariant(w.output)
    && w.output.sent == Messages(w.loop.performed)
    && InOrder(loopThread, w.loop, thread)
  }

  lemma StepKeepsSent(w: World, e: Event<Post>, outcome: WriteOutcome)
    requires OutputInvariant(w.output) && w.output.sent == Messages(w.loop.performed) && Enabled(w.loop, e)
    requires Runs(w.loop, e).Some? ==> Fits(w.output, Runs(w.loop, e).value.message, outcome)
    ensures var run := Runs(w.loop, e);
            var o := if run.Some? then SendStep(w.output, run.value.message, outcome) else w.output;
            OutputInvariant(o) && o.sent == Messages(Step(w.loop, e).performed)
  {
    hide OutputInvariant;
    var run := Runs(w.loop, e);
    if run.Some? {
      SendKeepsInvariant(w.output, run.value.message, outcome);
      assert Messages(w.loop.performed + [run.value]) == Messages(w.loop.performed) + [run.value.message];
    }
  }

  lemma StepWrites(loopThread: int, w: World, a: Action)
    requires Possible(loopThread, w, a) && OutputInvariant(w.output)
    ensures var o := Next(loopThread, w, a).output;
            && (o.closed <==> w.output.closed || (Writes(w, a) && a.outcome.WriteFailed?))
            && |o.wire| == |w.output.wire| + (if Writes(w, a) && a.outcome.Accepted? then a.outcome.count else 0)
            && w.output.sent <= o.sent
            && ("" !in o.sent && InterestIsExact(w.output) ==> InterestIsExact(o))
  {
    hide Enabled, Step, Runs, SendStep, WritableStep, OutputInvariant, InterestIsExact;
    match a
    case LoopEvent(e, outcome) =>
      var run := Runs(w.loop, e);
      if run.Some? {
        SendWrites(w.output, run.value.message, outcome);
        SendIsCounted(w.output, run.value.message, outcome);
        InterestBecomesExact(w.output, run.value.message, outcome);
        assert run.value.message in w.output.sent + [run.value.message];
      }
    case Writable(outcome) =>
      WritableWrites(w.output, outcome);
      InterestBecomesExact(w.output, "", outcome);
  }

  /** The connection is closed from the output side exactly when a write that was made has
      failed, and the socket has taken exactly the bytes that the writes made report. */
  lemma {:induction false} ClosedByFailedWritesOnly(loopThread: int, w: World, history: seq<Action>)
    requires WorldInvariant(loopThread, w, loopThread) && IsHistory(loopThread, w, history)
    ensures var o := Result(loopThread, w, history).output;
            && (o.closed <==> w.output.closed || SomeWriteFailed(loopThread, w, history))
            && |o.wire| == |w.output.wire| + Taken(loopThread, w, history)
            && w.output.sent <= o.sent
            && ("" !in o.sent && InterestIsExact(w.output) ==> InterestIsExact(o))
    decreases |history|
  {
    hide OutputInvariant, InterestIsExact, Writes, InOrder, Possible, Next;
    if history == [] {
    } else {
      var next := Next(loopThread, w, history[0]);
      StepKeepsWorld(loopThread, w, history[0], loopThread);
      StepWrites(loopThread, w, history[0]);
      ClosedByFailedWritesOnly(loopThread, next, history[1..]);
      var o := Result(loopThread, w, history).output;
      assert next.output.sent <= o.sent && forall k :: 0 <= k < |next.output.sent| ==> next.output.sent[k] in o.sent;
    }
  }

  lemma StepKeepsWorld(loopThread: int, w: World, a: Action, thread: int)
    requires WorldInvariant(loopThread, w, thread) && Possible(loopThread, w, a)
    ensures WorldInvariant(loopThread, Next(loopThread, w, a), thread)
  {
    hide InOrder, Enabled, Step, Runs, OutputInvariant;
    match a
    case LoopEvent(e, outcome) =>
      LoopEventKeepsOrder(loopThread, w.loop, e, thread);
      StepKeepsSent(w, e, outcome);
    case Writable(outcome) =>
      WritableKeepsInvariant(w.output, outcome);
  }

  lemma {:induction false} HistoryKeepsWorld(loopThread: int, w: World, history: seq<Action>, thread: int)
    requires WorldInvariant(loopThread, w, thread) && IsHistory(loopThread, w, history)
    ensures WorldInvariant(loopThread, Result(loopThread, w, history), thread)
    decreases |history|
  {
    if history == [] {
    } else {
      StepKeepsWorld(loopThread, w, history[0], thread);
      HistoryKeepsWorld(loopThread, Next(loopThread, w, history[0]), history[1..], thread);
    }
  }

  /** Over every interleaving of sends from any threads, partial writes, refusals and
      writable events: the socket has taken, and the buffer holds, exactly the sends that
      have run, in the order they ran, and it has taken just what the writes made report;
      the connection is closed if and only if a write that was made failed; an open
      connection with bytes left waits for the socket, and if no send was empty it waits
      only then; and the sends of any one thread have run in the order it made them, the
      rest of them waiting in that order. */
  lemma SendsReachTheWireInOrder(loopThread: int, history: seq<Action>, thread: int)
    requires IsHistory(loopThread, World(Initial(), NEW_OUTPUT), history)
    ensures var start := World(Initial(), NEW_OUTPUT);
            var w := Result(loopThread, start, history);
            && w.output.wire + w.output.buffer == Flatten(Messages(w.loop.performed))
            && |w.output.wire| == Taken(loopThread, start, history)
            && (w.output.closed <==> SomeWriteFailed(loopThread, start, history))
            && (!w.output.closed && w.output.buffer != "" ==> w.output.writing)
            && (!w.output.closed && "" !in Messages(w.loop.performed) ==>
                  (w.output.writing <==> w.output.buffer != ""))
            && ByThread(w.loop.issued, thread)
               == ByThread(w.loop.performed, thread) + ByThread(w.loop.batch + w.loop.pending, thread)
  {
    var start := World(Initial(), NEW_OUTPUT);
    HistoryKeepsWorld(loopThread, start, history, thread);
    ClosedByFailedWritesOnly(loopThread, start, history);
  }
}
