/** The database connection pool as a step system over every interleaving of
    borrowers, returns and the shutdown. Connections are numbered as they are made;
    each event is one lock region or one wakeup. */
module ConnectionPools {
  import opened Basics

  /** size_t wraps around. */
  const SIZE_MODULUS: nat := 0x1_0000_0000_0000_0000

  function Decrement(n: nat): nat { if n == 0 then SIZE_MODULUS - 1 else n - 1 }

  datatype State = State(
    idle: seq<nat>,         // idleConnections_
    currentSize: nat,       // currentSize_
    maxSize: nat,           // maxSize_
    stop: bool,             // stop_
    lent: set<nat>,         // handed out and not yet returned
    destroyed: seq<nat>,    // in the order of their deletion
    created: nat,           // how many have ever been made
    asleep: set<int>,       // callers inside cond_.wait, not notified
    notified: set<int>)     // callers inside cond_.wait, notified or woken by themselves

  function FirstNumbers(n: nat): seq<nat> { seq(n, i => i) }

  /** After init(minSize, maxSize), when `made` of the minSize attempts connected. */
  function AfterInit(made: nat, maxSize: nat): State {
    State(FirstNumbers(made), made, maxSize, false, {}, [], made, {}, {})
  }

  /** What the database does during a borrow. */
  datatype Attempt = Attempt(creates: bool, isConnected: bool, reconnects: bool)

  datatype Event =
    | Get(caller: int, attempt: Attempt)
    | Spurious(caller: int)
    | Return(conn: nat, wake: Option<int>)
    | CloseAll

  datatype Borrowed = Waits | Nothing | Lent(conn: nat)

  predicate MayProceed(s: State) { s.stop || s.idle != [] || s.currentSize < s.maxSize }

  predicate Usable(a: Attempt) { a.isConnected || a.reconnects }

  predicate Enabled(s: State, e: Event) {
    match e
    case Get(c, a) => c !in s.asleep
    case Spurious(c) => c in s.asleep
    case Return(n, wake) =>
      n in s.lent && (!s.stop ==> if s.asleep == {} then wake.None? else wake.Some? && wake.value in s.asleep)
    case CloseAll => true
  }

  /** getConnection from the test of the wait predicate on. */
  function Borrow(s: State, c: int, a: Attempt): (State, Borrowed) {
    if !MayProceed(s) then (s.(asleep := s.asleep + {c}, notified := s.notified - {c}), Waits)
    else
      var awake := s.(notified := s.notified - {c});
      if s.stop then (awake, Nothing)
      else if s.idle != [] then Check(awake.(idle := s.idle[1..]), s.idle[0], a)
      else if a.creates then Check(awake.(created := s.created + 1, currentSize := s.currentSize + 1), s.created, a)
      else (awake, Nothing)
  }

  /** The liveness test of the connection about to be lent. */
  function Check(s: State, conn: nat, a: Attempt): (State, Borrowed) {
    if Usable(a) then (s.(lent := s.lent + {conn}), Lent(conn))
    else (s.(currentSize := Decrement(s.currentSize), destroyed := s.destroyed + [conn]), Nothing)
  }

  function Step(s: State, e: Event): State
    requires Enabled(s, e)
  {
    match e
    case Get(c, a) => Borrow(s, c, a).0
    case Spurious(c) => s.(asleep := s.asleep - {c}, notified := s.notified + {c})
    case Return(n, wake) =>
      if s.stop then
        s.(lent := s.lent - {n}, destroyed := s.destroyed + [n], currentSize := Decrement(s.currentSize))
      else
        var back := s.(lent := s.lent - {n}, idle := s.idle + [n]);
        if wake.Some? then back.(asleep := s.asleep - {wake.value}, notified := s.notified + {wake.value}) else back
    case CloseAll =>
      s.(stop := true, asleep := {}, notified := s.notified + s.asleep,
         idle := [], destroyed := s.destroyed + s.idle, currentSize := 0)
  }

  predicate IsRun(s: State, run: seq<Event>)
    decreases |run|
  {
    run == [] || (Enabled(s, run[0]) && IsRun(Step(s, run[0]), run[1..]))
  }

  function After(s: State, run: seq<Event>): State
    requires IsRun(s, run)
    decreases |run|
  {
    if run == [] then s else After(Step(s, run[0]), run[1..])
  }

  // ------------------------------------------------------- who gets what

  /** The connection a borrow takes in hand: the one idle for longest, or else a new one if there
      is room and it can be made. */
  function InHand(s: State, a: Attempt): Option<nat> {
    if s.stop then None
    else if s.idle != [] then Some(s.idle[0])
    else if s.currentSize < s.maxSize && a.creates then Some(s.created)
    else None
  }

  /** A borrow waits exactly at a full pool with nothing idle; the connection it takes in hand is
      lent if and only if it is connected or reconnects, and is destroyed if and only if it is
      neither. */
  lemma LentIff(s: State, c: int, a: Attempt)
    ensures var (n, result) := Borrow(s, c, a);
            var conn := InHand(s, a);
            && (result == Waits <==> !s.stop && s.idle == [] && s.currentSize >= s.maxSize)
            && (result.Lent? <==> conn.Some? && (a.isConnected || a.reconnects))
            && (result.Lent? ==> result.conn == conn.value)
            && n.lent == (if result.Lent? then s.lent + {result.conn} else s.lent)
            && n.destroyed == (if conn.Some? && !a.isConnected && !a.reconnects
                               then s.destroyed + [conn.value] else s.destroyed)
            && n.idle == (if !s.stop && s.idle != [] then s.idle[1..] else s.idle)
            && n.created == (if conn.Some? && s.idle == [] then s.created + 1 else s.created)
            && n.asleep == (if result == Waits then s.asleep + {c} else s.asleep)
  {
  }

  /** The connections of a run that were taken in hand and could not be lent. */
  function DeadIn(s: State, run: seq<Event>): seq<nat>
    requires IsRun(s, run)
    decreases |run|
  {
    if run == [] then []
    else if run[0].Get? && InHand(s, run[0].attempt).Some?
            && !run[0].attempt.isConnected && !run[0].attempt.reconnects then
      [InHand(s, run[0].attempt).value] + DeadIn(Step(s, run[0]), run[1..])
    else DeadIn(Step(s, run[0]), run[1..])
  }

  /** Until closeAll, over every run, exactly these are destroyed. */
  lemma {:induction false} OnlyTheDeadAreDestroyed(s: State, run: seq<Event>)
    requires IsRun(s, run)
    ensures !After(s, run).stop ==> !s.stop && After(s, run).destroyed == s.destroyed + DeadIn(s, run)
    decreases |run|
  {
    if run == [] {
    } else {
      var n := Step(s, run[0]);
      StepDestroys(s, run[0]);
      hide Step, InHand;
      OnlyTheDeadAreDestroyed(n, run[1..]);
    }
  }

  lemma StepDestroys(s: State, e: Event)
    requires Enabled(s, e)
    ensures s.stop ==> Step(s, e).stop
    ensures !Step(s, e).stop ==>
              Step(s, e).destroyed
              == if e.Get? && InHand(s, e.attempt).Some? && !e.attempt.isConnected && !e.attempt.reconnects
                 then s.destroyed + [InHand(s, e.attempt).value] else s.destroyed
  {
    if e.Get? {
      LentIff(s, e.caller, e.attempt);
    }
  }

  /** The connections a run puts back, and those it takes out of the idle ones, in order. */
  function PutBack(run: seq<Event>): seq<nat> {
    if run == [] then []
    else if run[0].Return? then [run[0].conn] + PutBack(run[1..])
    else PutBack(run[1..])
  }

  function TakenOut(s: State, run: seq<Event>): seq<nat>
    requires IsRun(s, run)
    decreases |run|
  {
    if run == [] then []
    else if run[0].Get? && !s.stop && s.idle != [] then [s.idle[0]] + TakenOut(Step(s, run[0]), run[1..])
    else TakenOut(Step(s, run[0]), run[1..])
  }

  lemma StepKeepsQueue(s: State, e: Event)
    requires Enabled(s, e) && !Step(s, e).stop
    ensures Step(s, e).idle == match e
      case Get(_, _) => if s.idle != [] then s.idle[1..] else []
      case Return(n, _) => s.idle + [n]
      case _ => s.idle
  {
    if e.Get? {
      LentIff(s, e.caller, e.attempt);
    }
  }

  /** Until closeAll the idle connections are a queue: over every run, those idle at first, then
      those put back, are taken out in that order, and the rest is idle. */
  lemma {:induction false} IdleIsAQueue(s: State, run: seq<Event>)
    requires IsRun(s, run)
    ensures !After(s, run).stop ==> s.idle + PutBack(run) == TakenOut(s, run) + After(s, run).idle
    decreases |run|
  {
    if run == [] {
    } else {
      var n, rest := Step(s, run[0]), run[1..];
      OnlyTheDeadAreDestroyed(n, rest);
      StepDestroys(s, run[0]);
      if !n.stop {
        StepKeepsQueue(s, run[0]);
      }
      hide Step, DeadIn;
      IdleIsAQueue(n, rest);
      match run[0]
      case Get(_, _) =>
        assert s.idle != [] && n.idle == s.idle[1..] ==>
                 s.idle + PutBack(rest) == [s.idle[0]] + (n.idle + PutBack(rest));
      case Return(c, _) =>
        assert s.idle + ([c] + PutBack(rest)) == (s.idle + [c]) + PutBack(rest);
      case _ =>
    }
  }

  // --------------------------------------------------------- accounting

  /** Where the connections are. */
  function Places(s: State): multiset<nat> {
    multiset(s.idle) + multiset(s.lent) + multiset(s.destroyed)
  }

  /** Every connection ever made is in exactly one place. */
  ghost predicate EachOnce(s: State) {
    forall n: nat :: Places(s)[n] == if n < s.created then 1 else 0
  }

  predicate CounterLaw(s: State) { s.currentSize == |s.idle| + |s.lent| }

  lemma NumbersNotLent(s: State)
    requires EachOnce(s)
    ensures s.created !in s.lent
    ensures s.idle != [] ==> s.idle[0] !in s.lent
  {
    assert Places(s)[s.created] == 0;
    if s.idle != [] {
      assert s.idle[0] in multiset(s.idle);
      assert Places(s)[s.idle[0]] <= 1;
    }
  }

  /** Lending or deleting a connection that has just been taken out. */
  lemma CheckPlaces(s: State, conn: nat, a: Attempt)
    requires conn !in s.lent
    ensures Places(Check(s, conn, a).0) == Places(s) + multiset{conn}
  {
  }

  /** What the liveness test leaves alone. */
  lemma CheckKeeps(s: State, conn: nat, a: Attempt)
    ensures var n := Check(s, conn, a).0;
            n.created == s.created && n.asleep == s.asleep && n.notified == s.notified && n.idle == s.idle
            && n.stop == s.stop && n.maxSize == s.maxSize
  {
  }

  lemma BorrowPlaces(s: State, c: int, a: Attempt)
    requires s.created !in s.lent && (s.idle != [] ==> s.idle[0] !in s.lent)
    ensures var n := Borrow(s, c, a).0;
            || (Places(n) == Places(s) && n.created == s.created)
            || (Places(n) == Places(s) + multiset{s.created} && n.created == s.created + 1)
  {
    hide Check;
    if MayProceed(s) && !s.stop {
      var awake := s.(notified := s.notified - {c});
      if s.idle != [] {
        assert s.idle == [s.idle[0]] + s.idle[1..];
        assert Places(s) == Places(awake.(idle := s.idle[1..])) + multiset{s.idle[0]};
        CheckPlaces(awake.(idle := s.idle[1..]), s.idle[0], a);
        CheckKeeps(awake.(idle := s.idle[1..]), s.idle[0], a);
      } else if a.creates {
        var grown := awake.(created := s.created + 1, currentSize := s.currentSize + 1);
        CheckPlaces(grown, s.created, a);
        CheckKeeps(grown, s.created, a);
      }
    }
  }

  lemma ReturnPlaces(s: State, n: nat, wake: Option<int>)
    requires Enabled(s, Return(n, wake))
    ensures Places(Step(s, Return(n, wake))) == Places(s)
  {
    assert multiset(s.lent) == multiset(s.lent - {n}) + multiset{n};
  }

  lemma ClosePlaces(s: State)
    ensures Places(Step(s, CloseAll)) == Places(s)
  {
  }

  /** A new connection takes the next number; any other step moves connections around. */
  lemma StepMovesConnections(s: State, e: Event)
    requires EachOnce(s) && Enabled(s, e)
    ensures EachOnce(Step(s, e))
  {
    NumbersNotLent(s);
    hide Borrow;
    match e
    case Get(c, a) =>
      BorrowPlaces(s, c, a);
      hide Places;
    case Return(n, wake) =>
      ReturnPlaces(s, n, wake);
      hide Places;
    case CloseAll =>
      ClosePlaces(s);
      hide Places;
    case Spurious(c) =>
      assert Places(Step(s, e)) == Places(s);
  }

  lemma StepKeepsCounter(s: State, e: Event)
    requires EachOnce(s) && Enabled(s, e) && !Step(s, e).stop && CounterLaw(s)
    ensures CounterLaw(Step(s, e)) && Step(s, e).maxSize == s.maxSize
    ensures Step(s, e).currentSize <= Max(s.currentSize, s.maxSize)
  {
    NumbersNotLent(s);
    hide EachOnce, Places;
    match e
    case Get(c, a) => BorrowKeepsCounter(s, c, a);
    case Return(n, wake) => assert |s.lent - {n}| == |s.lent| - 1;
    case _ =>
  }

  lemma BorrowKeepsCounter(s: State, c: int, a: Attempt)
    requires CounterLaw(s) && !s.stop && s.created !in s.lent && (s.idle != [] ==> s.idle[0] !in s.lent)
    ensures var n := Borrow(s, c, a).0;
            CounterLaw(n) && n.maxSize == s.maxSize && n.currentSize <= Max(s.currentSize, s.maxSize)
  {
  }

  // ------------------------------------------------------------- waiters

  /** While someone sleeps, as many callers are on their way as connections lie idle;
      after the shutdown nobody sleeps. */
  predicate WaitersLaw(s: State) {
    && s.asleep !! s.notified
    && (s.asleep != {} ==> !s.stop && |s.notified| >= |s.idle|)
  }

  lemma BorrowKeepsWaiters(s: State, c: int, a: Attempt)
    requires WaitersLaw(s) && c !in s.asleep
    ensures WaitersLaw(Borrow(s, c, a).0)
  {
    hide Check;
    if c in s.notified {
      assert |s.notified - {c}| == |s.notified| - 1;
    } else {
      assert s.notified - {c} == s.notified;
    }
    if MayProceed(s) && !s.stop {
      var awake := s.(notified := s.notified - {c});
      if s.idle != [] {
        CheckKeeps(awake.(idle := s.idle[1..]), s.idle[0], a);
      } else if a.creates {
        CheckKeeps(awake.(created := s.created + 1, currentSize := s.currentSize + 1), s.created, a);
      }
    }
  }

  lemma StepKeepsWaiters(s: State, e: Event)
    requires WaitersLaw(s) && Enabled(s, e)
    ensures WaitersLaw(Step(s, e))
  {
    hide Borrow;
    if e.Get? {
      BorrowKeepsWaiters(s, e.caller, e.attempt);
    }
  }

  /** A sleeping caller means the pool is full. */
  predicate SleepersMeanFull(s: State) { s.asleep != {} ==> s.currentSize >= s.maxSize }

  /** The one step that breaks it: a borrow whose idle connection turns out dead and
      cannot be reconnected frees a place and tells nobody. */
  predicate StrandsSomeone(s: State, e: Event) {
    && e.Get? && s.idle != [] && !Usable(e.attempt)
    && s.asleep != {} && s.currentSize == s.maxSize
  }

  lemma FullUnlessStranded(s: State, e: Event)
    requires Enabled(s, e) && !s.stop && WaitersLaw(s) && SleepersMeanFull(s) && CounterLaw(s)
    ensures SleepersMeanFull(Step(s, e)) <==> !StrandsSomeone(s, e)
  {
  }

  // --------------------------------------------------------- whole runs

  ghost predicate Invariant(s: State, limit: nat) {
    EachOnce(s) && WaitersLaw(s) && (!s.stop ==> CounterLaw(s) && s.currentSize <= limit) && s.maxSize <= limit
  }

  lemma StepKeepsInvariant(s: State, e: Event, limit: nat)
    requires Invariant(s, limit) && Enabled(s, e)
    ensures Invariant(Step(s, e), limit)
  {
    StepMovesConnections(s, e);
    StepKeepsWaiters(s, e);
    if !Step(s, e).stop {
      StepKeepsCounter(s, e);
    }
  }

  lemma {:induction false} RunKeepsInvariant(s: State, run: seq<Event>, limit: nat)
    requires Invariant(s, limit) && IsRun(s, run)
    ensures Invariant(After(s, run), limit)
    decreases |run|
  {
    if run == [] {
    } else {
      StepKeepsInvariant(s, run[0], limit);
      RunKeepsInvariant(Step(s, run[0]), run[1..], limit);
    }
  }

  lemma {:induction false} FirstNumbersOnce(n: nat)
    ensures forall k: nat :: multiset(FirstNumbers(n))[k] == if k < n then 1 else 0
  {
    if n == 0 {
    } else {
      FirstNumbersOnce(n - 1);
      assert FirstNumbers(n) == FirstNumbers(n - 1) + [n - 1];
    }
  }

  lemma InitEstablishes(made: nat, maxSize: nat)
    ensures Invariant(AfterInit(made, maxSize), Max(made, maxSize))
  {
    FirstNumbersOnce(made);
  }

  /** Over every run from init: each connection ever made is idle, lent or destroyed, in
      one place only, so none is destroyed twice; until closeAll the counter is the number
      idle plus the number lent, and it stays within maxSize when init did; and while a
      caller sleeps, no idle connection is left unannounced. */
  lemma PoolAccounting(made: nat, maxSize: nat, run: seq<Event>)
    requires IsRun(AfterInit(made, maxSize), run)
    ensures var s := After(AfterInit(made, maxSize), run);
            && (forall n: nat :: Places(s)[n] == if n < s.created then 1 else 0)
            && (!s.stop ==> s.currentSize == |s.idle| + |s.lent| && s.currentSize <= Max(made, maxSize))
            && (s.asleep != {} ==> !s.stop && |s.notified| >= |s.idle|)
  {
    InitEstablishes(made, maxSize);
    RunKeepsInvariant(AfterInit(made, maxSize), run, Max(made, maxSize));
  }

  lemma DecrementWraps(n: int)
    ensures Decrement(n % SIZE_MODULUS) == (n - 1) % SIZE_MODULUS
  {
  }

  /** Nothing is lent after closeAll, and every return counts down from zero, around the end
      of size_t. */
  ghost predicate Closed(s: State, lentAtClose: set<nat>) {
    && s.stop && s.idle == [] && s.lent <= lentAtClose
    && s.currentSize == (|s.lent| - |lentAtClose|) % SIZE_MODULUS
  }

  lemma StepStaysClosed(s: State, e: Event, lentAtClose: set<nat>)
    requires Closed(s, lentAtClose) && Enabled(s, e) && !e.CloseAll?
    ensures Closed(Step(s, e), lentAtClose)
  {
    if e.Return? {
      DecrementWraps(|s.lent| - |lentAtClose|);
      assert |s.lent - {e.conn}| == |s.lent| - 1;
    }
  }

  lemma {:induction false} RunStaysClosed(s: State, run: seq<Event>, lentAtClose: set<nat>)
    requires Closed(s, lentAtClose) && IsRun(s, run)
    requires forall i :: 0 <= i < |run| ==> !run[i].CloseAll?
    ensures Closed(After(s, run), lentAtClose)
    decreases |run|
  {
    if run == [] {
    } else {
      hide Step, Closed;
      StepStaysClosed(s, run[0], lentAtClose);
      RunStaysClosed(Step(s, run[0]), run[1..], lentAtClose);
    }
  }

  lemma SubsetSize(a: set<nat>, b: set<nat>)
    requires a <= b
    ensures |a| <= |b|
  {
    if a != b {
      assert a + (b - a) == b;
      assert |a| + |b - a| == |b|;
    }
  }

  /** From the last closeAll on, over every run: the pool lends nothing, and the counter is
      the number of connections still out, less the number out at closeAll, modulo 2^64; so
      the counter law holds at any later moment if and only if nothing was lent at closeAll. */
  lemma CounterAfterClose(s: State, run: seq<Event>)
    requires IsRun(Step(s, CloseAll), run) && |s.lent| < SIZE_MODULUS
    requires forall i :: 0 <= i < |run| ==> !run[i].CloseAll?
    ensures var n := After(Step(s, CloseAll), run);
            && n.stop && n.idle == [] && n.lent <= s.lent
            && n.currentSize == (|n.lent| - |s.lent|) % SIZE_MODULUS
            && (CounterLaw(n) <==> s.lent == {})
  {
    RunStaysClosed(Step(s, CloseAll), run, s.lent);
    hide IsRun, Step;
    var n := After(Step(s, CloseAll), run);
    SubsetSize(n.lent, s.lent);
    hide After;
    assert |s.lent| == 0 <==> s.lent == {};
  }

  /** A run that takes the counter around: the only connection is out at closeAll and comes back. */
  lemma LateReturnWrapsCounter(caller: int)
    ensures var run := [Get(caller, Attempt(true, true, true)), CloseAll, Return(0, None)];
            && IsRun(AfterInit(1, 1), run)
            && var s := After(AfterInit(1, 1), run);
               s.currentSize == SIZE_MODULUS - 1 && s.idle == [] && s.lent == {} && s.destroyed == [0]
  {
    var s0 := AfterInit(1, 1);
    assert s0.idle == [0];
    var run := [Get(caller, Attempt(true, true, true)), CloseAll, Return(0, None)];
    var s1 := Step(s0, run[0]);
    assert s1.lent == {0} && s1.idle == [];
    var s2 := Step(s1, run[1]);
    var s3 := Step(s2, run[2]);
    assert run[1..] == [CloseAll, Return(0, None)] && run[2..] == [Return(0, None)] && run[3..] == [];
    RunOf(s3, run[3..]);
    RunOf(s2, run[2..]);
    RunOf(s1, run[1..]);
    RunOf(s0, run);
  }

  predicate NeverStrands(s: State, run: seq<Event>)
    requires IsRun(s, run)
    decreases |run|
  {
    run == [] || (!StrandsSomeone(s, run[0]) && NeverStrands(Step(s, run[0]), run[1..]))
  }

  lemma {:induction false} SleepersStayJustified(s: State, run: seq<Event>, limit: nat)
    requires Invariant(s, limit) && SleepersMeanFull(s) && IsRun(s, run) && NeverStrands(s, run)
    ensures SleepersMeanFull(After(s, run)) && Invariant(After(s, run), limit) && After(s, run).maxSize == s.maxSize
    decreases |run|
  {
    if run == [] {
    } else {
      StepKeepsInvariant(s, run[0], limit);
      if !s.stop {
        FullUnlessStranded(s, run[0]);
      }
      SleepersStayJustified(Step(s, run[0]), run[1..], limit);
    }
  }

  /** In a run where no borrow ends in a failed reconnect at a full pool with sleepers,
      nobody waits in vain: a sleeping caller means a full pool, and somebody either has
      been notified or holds a connection whose return will notify. */
  lemma NobodyWaitsInVain(made: nat, maxSize: nat, run: seq<Event>)
    requires maxSize > 0 && IsRun(AfterInit(made, maxSize), run) && NeverStrands(AfterInit(made, maxSize), run)
    ensures var s := After(AfterInit(made, maxSize), run);
            s.asleep != {} ==> s.currentSize >= maxSize && (s.notified != {} || s.lent != {})
  {
    InitEstablishes(made, maxSize);
    SleepersStayJustified(AfterInit(made, maxSize), run, Max(made, maxSize));
  }

  /** With a failed reconnect somebody can: a pool of one, two callers waiting, the
      connection comes back dead. The second caller then sleeps though the pool is empty. */
  lemma FailedReconnectStrandsACaller()
    ensures var ok := Attempt(true, true, true);
            var dead := Attempt(true, false, false);
            var run := [Get(1, ok), Get(2, ok), Get(3, ok), Return(0, Some(2)), Get(2, dead)];
            && IsRun(AfterInit(1, 1), run)
            && var s := After(AfterInit(1, 1), run);
               s.asleep == {3} && s.notified == {} && s.idle == [] && s.lent == {} && s.currentSize == 0 < s.maxSize
  {
    var ok := Attempt(true, true, true);
    var dead := Attempt(true, false, false);
    var run := [Get(1, ok), Get(2, ok), Get(3, ok), Return(0, Some(2)), Get(2, dead)];
    var s0 := AfterInit(1, 1);
    assert s0.idle == [0];
    var s1 := Step(s0, run[0]);
    assert s1 == State([], 1, 1, false, {0}, [], 1, {}, {});
    var s2 := Step(s1, run[1]);
    assert s2 == s1.(asleep := {2});
    var s3 := Step(s2, run[2]);
    assert s3 == s1.(asleep := {2, 3});
    var s4 := Step(s3, run[3]);
    assert s4 == State([0], 1, 1, false, {}, [], 1, {3}, {2});
    var s5 := Step(s4, run[4]);
    assert s5 == State([], 0, 1, false, {}, [0], 1, {3}, {});
    RunOf(s5, []);
    RunOf(s4, run[4..]);
    RunOf(s3, run[3..]);
    RunOf(s2, run[2..]);
    RunOf(s1, run[1..]);
  }

  lemma RunOf(s: State, run: seq<Event>)
    requires run == [] || (Enabled(s, run[0]) && IsRun(Step(s, run[0]), run[1..]))
    ensures IsRun(s, run)
    ensures After(s, run) == if run == [] then s else After(Step(s, run[0]), run[1..])
  {
  }

  // ------------------------------------------------------------- the pool

  class MySQLConnectionPool {
    var idleConnections: seq<nat>
    var currentSize: nat
    var minSize: nat
    var maxSize: nat
    var stop: bool
    var nextConnection: nat
    ghost var model: State

    ghost predicate Valid()
      reads this
    {
      && model.idle == idleConnections && model.currentSize == currentSize && model.maxSize == maxSize
      && model.stop == stop && model.created == nextConnection
    }

    constructor ()
      ensures Valid() && model == AfterInit(0, 20) && minSize == 5
    {
      idleConnections, currentSize, minSize, maxSize, stop, nextConnection := [], 0, 5, 20, false, 0;
      model := AfterInit(0, 20);
    }

    /** init, on a pool just constructed; `connects` tells which attempts succeed. */
    method Init(min: nat, max: nat, connects: seq<bool>)
      requires Valid() && model == AfterInit(0, 20) && |connects| == min
      modifies this
      ensures Valid() && minSize == min
      ensures model == AfterInit(multiset(connects)[true], max)
    {
      minSize, maxSize := min, max;
      for i := 0 to min
        invariant idleConnections == FirstNumbers(Successes(connects[..i]))
        invariant currentSize == nextConnection == Successes(connects[..i]) <= i
        invariant minSize == min && maxSize == max && stop == old(stop)
      {
        SuccessesSnoc(connects[..i], connects[i]);
        assert connects[..i + 1] == connects[..i] + [connects[i]];
        if connects[i] {
          idleConnections := idleConnections + [nextConnection];
          nextConnection := nextConnection + 1;
          currentSize := currentSize + 1;
        }
      }
      assert connects[..min] == connects;
      SuccessesCount(connects);
      model := AfterInit(Successes(connects), max);
    }

    /** getConnection, from taking the lock (or waking with it) to waiting or returning. */
    method GetConnection(caller: int, attempt: Attempt) returns (result: Borrowed)
      requires Valid() && Enabled(model, Get(caller, attempt))
      modifies this
      ensures Valid() && model == Step(old(model), Get(caller, attempt))
      ensures result == Waits <==> !old(stop) && old(idleConnections) == [] && old(currentSize) >= maxSize
      ensures result.Lent? <==> InHand(old(model), attempt).Some? && (attempt.isConnected || attempt.reconnects)
      ensures result.Lent? ==>
                result.conn == if old(idleConnections) != [] then old(idleConnections)[0] else old(nextConnection)
    {
      ghost var next := Step(model, Get(caller, attempt));
      LentIff(model, caller, attempt);
      if !(stop || idleConnections != [] || currentSize < maxSize) {
        model := next;
        return Waits;
      }
      if stop {
        model := next;
        return Nothing;
      }
      var conn: nat;
      if idleConnections != [] {
        conn := idleConnections[0];
        idleConnections := idleConnections[1..];
      } else if attempt.creates {
        conn := nextConnection;
        nextConnection := nextConnection + 1;
        currentSize := currentSize + 1;
      } else {
        model := next;
        return Nothing;
      }
      model := next;
      if !attempt.isConnected {
        if !attempt.reconnects {
          currentSize := Decrement(currentSize);
          return Nothing;
        }
      }
      return Lent(conn);
    }

    method ReturnConnection(conn: nat, ghost wake: Option<int>)
      requires Valid() && Enabled(model, Return(conn, wake))
      modifies this
      ensures Valid() && model == Step(old(model), Return(conn, wake))
      ensures idleConnections == if stop then old(idleConnections) else old(idleConnections) + [conn]
    {
      model := Step(model, Return(conn, wake));
      if stop {
        currentSize := Decrement(currentSize);
        return;
      }
      idleConnections := idleConnections + [conn];
    }

    /** closeAll; `deleted` lists what its loop destroys. */
    method Shutdown() returns (deleted: seq<nat>)
      requires Valid()
      modifies this
      ensures Valid() && model == Step(old(model), CloseAll)
      ensures deleted == old(idleConnections)
    {
      stop := true;
      deleted := [];
      while idleConnections != []
        invariant deleted + idleConnections == old(idleConnections)
        invariant model == old(model) && stop && maxSize == old(maxSize) && nextConnection == old(nextConnection)
        decreases |idleConnections|
      {
        deleted := deleted + [idleConnections[0]];
        idleConnections := idleConnections[1..];
      }
      currentSize := 0;
      model := Step(model, CloseAll);
    }
  }

  function Successes(connects: seq<bool>): (n: nat)
    ensures n <= |connects|
  {
    if connects == [] then 0 else (if connects[0] then 1 else 0) + Successes(connects[1..])
  }

  lemma {:induction false} SuccessesCount(connects: seq<bool>)
    ensures Successes(connects) == multiset(connects)[true]
  {
    if connects == [] {
    } else {
      SuccessesCount(connects[1..]);
      assert connects == [connects[0]] + connects[1..];
    }
  }

  lemma {:induction false} SuccessesSnoc(connects: seq<bool>, last: bool)
    ensures Successes(connects + [last]) == Successes(connects) + (if last then 1 else 0)
  {
    if connects != [] {
      assert (connects + [last])[1..] == connects[1..] + [last];
      SuccessesSnoc(connects[1..], last);
    } else {
      assert ([] + [last])[1..] == [];
    }
  }
}
