/** The asynchronous logger as a step system over every interleaving of producers, the
    writer thread and shutdown. Each event is one lock region or one test of the running
    flag; a call of log is two of them, the test and then the lock region. Buffers are
    lists of whole records; the object below holds their bytes. */
module Loggers {
  import opened Basics

  const MAX_FILE_SIZE: nat := 1024 * 1024 * 100

  datatype Stage =
    | Testing        // while (is_running_)
    | Taking         // about to lock the buffers
    | Writing        // holds what it took, about to lock the file
    | Draining       // left the loop, about to lock the buffers in writeWhenExit
    | FinalWriting   // about to lock the file for the last time
    | Done

  /** The log directory: the current file and the archives under their time stamps. */
  datatype Disk = Disk(
    file: seq<string>,
    fileSize: nat,                     // file_size_
    isOpen: bool,
    archives: map<nat, seq<string>>,
    order: seq<nat>)                   // the stamps of the archives, in the order of the renames

  datatype State = State(
    size: nat,              // buffer_size_
    current: seq<string>,   // *current_buffer_
    next: seq<string>,      // *next_buffer_
    held: seq<string>,      // write_buffer, or final_buf at the end
    running: bool,
    entered: set<int>,      // producers between the test of is_running_ and the lock
    stage: Stage,
    disk: Disk,
    arrived: nat,           // records that reached the lock
    accepted: seq<string>,  // records appended, in lock order
    dropped: nat,           // dropped_count_
    written: seq<string>,   // records handed to the file, or to stderr when it is not open
    lost: seq<string>,      // records of the exit drain when the file is not open
    drained: nat)           // how many had been accepted at the exit drain

  /** As init leaves it in an empty directory; `opens` tells whether the file could be opened. */
  function Initial(size: nat, opens: bool): State {
    State(size, [], [], [], true, {}, Testing, Disk([], 0, opens, map[], []), 0, [], 0, [], [], 0)
  }

  datatype Event =
    | Enter(producer: int)                 // log tests is_running_, and goes on or returns
    | Skip(producer: int)                  // log returns for the level
    | Log(producer: int, header: string, message: string)  // the lock region of log
    | Test
    | Take
    | Write(stamp: nat, opens: bool)       // stamp and outcome of a roll, should there be one
    | Drain
    | FinalWrite(stamp: nat, opens: bool)
    | Shutdown

  function Size(records: seq<string>): nat { |Flatten(records)| }

  /** The bytes appended for one call: header, message cut to what the buffer can take, newline. */
  function RecordOf(header: string, message: string, size: nat): string {
    var room := Max(0, size - |header| - 1);
    header + (if |header| + |message| + 1 > size then message[..Min(room, |message|)] else message) + "\n"
  }

  function NeedOf(header: string, message: string, size: nat): nat {
    Min(|header| + |message| + 1, size)
  }

  predicate Enabled(s: State, e: Event) {
    match e
    case Enter(p) => p !in s.entered
    case Skip(p) => p in s.entered
    case Log(p, _, _) => p in s.entered
    case Test => s.stage == Testing
    case Take => s.stage == Taking
    case Write(_, _) => s.stage == Writing
    case Drain => s.stage == Draining
    case FinalWrite(_, _) => s.stage == FinalWriting
    case Shutdown => true
  }

  function Without(stamps: seq<nat>, stamp: nat): seq<nat> {
    if stamps == [] then []
    else if stamps[0] == stamp then Without(stamps[1..], stamp)
    else [stamps[0]] + Without(stamps[1..], stamp)
  }

  /** rollFile: the current file, if there is one, becomes an archive, in the place of an
      earlier archive of the same name. */
  function Roll(d: Disk, stamp: nat, opens: bool): Disk {
    var archived :=
      if d.isOpen then d.(archives := d.archives[stamp := d.file], order := Without(d.order, stamp) + [stamp]) else d;
    archived.(file := [], fileSize := 0, isOpen := opens)
  }

  function RollIfNeeded(d: Disk, incoming: nat, stamp: nat, opens: bool): Disk {
    if d.fileSize + incoming >= MAX_FILE_SIZE then Roll(d, stamp, opens) else d
  }

  function LogStep(s: State, header: string, message: string): State {
    var record := RecordOf(header, message, s.size);
    var counted := s.(arrived := s.arrived + 1);
    if Size(s.current) + NeedOf(header, message, s.size) > s.size then
      if s.next == [] then
        counted.(current := [record], next := s.current, accepted := s.accepted + [record])
      else counted.(dropped := s.dropped + 1)
    else counted.(current := s.current + [record], accepted := s.accepted + [record])
  }

  function TakeStep(s: State): State {
    var taken :=
      if s.next != [] then s.(held := s.next, next := s.held)
      else if s.current != [] then s.(held := s.current, current := s.next, next := s.held)
      else s;
    taken.(stage := Writing)
  }

  /** One write to the file: a roll first if the limit would be reached, then the bytes,
      if a file is open. The exit drain does not count them in file_size_. */
  function FileAfter(d: Disk, records: seq<string>, stamp: nat, opens: bool, counted: bool): Disk {
    var r := RollIfNeeded(d, Size(records), stamp, opens);
    if r.isOpen then
      r.(file := r.file + records, fileSize := if counted then r.fileSize + Size(records) else r.fileSize)
    else r
  }

  /** With no file open the bytes go to stderr. */
  function WriteStep(s: State, stamp: nat, opens: bool): State {
    var done := s.(held := [], stage := Testing);
    if s.held == [] then done
    else done.(disk := FileAfter(s.disk, s.held, stamp, opens, true), written := s.written + s.held)
  }

  /** The last write does not fall back to stderr. */
  function FinalStep(s: State, stamp: nat, opens: bool): State {
    var done := s.(held := [], stage := Done);
    if s.held == [] then done
    else
      var disk := FileAfter(s.disk, s.held, stamp, opens, false);
      if disk.isOpen then done.(disk := disk, written := s.written + s.held)
      else done.(disk := disk, lost := s.held)
  }

  function Step(s: State, e: Event): State
    requires Enabled(s, e)
  {
    match e
    case Enter(p) => if s.running then s.(entered := s.entered + {p}) else s
    case Skip(p) => s.(entered := s.entered - {p})
    case Log(p, h, m) => LogStep(s, h, m).(entered := s.entered - {p})
    case Test => s.(stage := if s.running then Taking else Draining)
    case Take => TakeStep(s)
    case Write(stamp, opens) => WriteStep(s, stamp, opens)
    case Drain => s.(held := s.next + s.current, next := [], current := [], stage := FinalWriting,
                     drained := |s.accepted|)
    case FinalWrite(stamp, opens) => FinalStep(s, stamp, opens)
    case Shutdown => s.(running := false)
  }

  predicate IsRun(s: State, run: seq<Event>)
    decreases |run|
  {
    run == [] || (Enabled(s, run[0]) && IsRun(Step(s, run[0]), run[1..]))
  }

  function After(s: State, run: seq<Event>): State
    requires IsRun(s, run)
    decreases |run|
  {
    if run == [] then s else After(Step(s, run[0]), run[1..])
  }

  // ------------------------------------------------------------ conservation

  /** Everything accepted is somewhere, once, in order; the writer takes only with empty
      hands; and the exit drain splits the accepted records in two. */
  ghost predicate Conserved(s: State) {
    && s.written + s.lost + s.held + s.next + s.current == s.accepted
    && s.arrived == |s.accepted| + s.dropped
    && (s.stage == Testing || s.stage == Taking || s.stage == Draining || s.stage == Done ==> s.held == [])
    && (s.stage != Done ==> s.lost == [])
    && (s.running ==> s.stage == Testing || s.stage == Taking || s.stage == Writing)
    && (s.stage == FinalWriting || s.stage == Done ==>
          s.drained <= |s.accepted| && s.written + s.lost + s.held == s.accepted[..s.drained])
  }

  /** The three ways a record can go. */
  lemma LogGoes(s: State, header: string, message: string)
    ensures var n := LogStep(s, header, message);
            var record := RecordOf(header, message, s.size);
            var counted := s.(arrived := s.arrived + 1);
            || n == counted.(current := s.current + [record], accepted := s.accepted + [record])
            || (s.next == []
                && n == counted.(current := [record], next := s.current, accepted := s.accepted + [record]))
            || n == counted.(dropped := s.dropped + 1)
  {
    hide RecordOf, Size, NeedOf;
  }

  lemma LogConserves(s: State, header: string, message: string)
    requires Conserved(s)
    ensures Conserved(LogStep(s, header, message))
  {
    LogGoes(s, header, message);
    var record := RecordOf(header, message, s.size);
    hide RecordOf, LogStep;
    var before := s.written + s.lost + s.held;
    assert before + s.next + (s.current + [record]) == before + s.next + s.current + [record];
    assert s.next == [] ==> before + s.current + [record] == before + s.next + s.current + [record];
    assert s.drained <= |s.accepted| ==> (s.accepted + [record])[..s.drained] == s.accepted[..s.drained];
  }

  lemma TakeConserves(s: State)
    requires Conserved(s) && s.stage == Taking
    ensures Conserved(TakeStep(s))
  {
    assert s.written + s.lost + s.held == s.written;
    if s.next != [] {
      assert s.written + s.lost + s.next + s.held == s.written + s.next;
    } else if s.current != [] {
      assert s.written + s.lost + s.current + s.held + s.next == s.written + s.current;
      assert s.written + s.next + s.current == s.written + s.current;
    }
  }

  lemma WriteConserves(s: State, stamp: nat, opens: bool)
    requires Conserved(s) && s.stage == Writing
    ensures Conserved(WriteStep(s, stamp, opens))
  {
    hide FileAfter;
    assert s.written + s.lost + s.held == s.written + s.held + s.lost + [];
  }

  lemma DrainConserves(s: State)
    requires Conserved(s) && s.stage == Draining
    ensures Conserved(Step(s, Drain))
  {
    assert s.written + s.lost + s.held + s.next + s.current == s.written + s.lost + (s.next + s.current);
    assert s.accepted[..|s.accepted|] == s.accepted;
  }

  lemma FinalConserves(s: State, stamp: nat, opens: bool)
    requires Conserved(s) && s.stage == FinalWriting
    ensures Conserved(FinalStep(s, stamp, opens))
  {
    hide FileAfter;
    assert s.written + s.lost + s.held == s.written + s.held;
    assert s.written + s.held + s.lost + [] == s.written + s.held;
    assert s.written + s.held + [] == s.written + s.held;
  }

  lemma StepConserves(s: State, e: Event)
    requires Conserved(s) && Enabled(s, e)
    ensures Conserved(Step(s, e))
  {
    hide LogStep, TakeStep, WriteStep, FinalStep;
    match e
    case Log(_, h, m) => LogConserves(s, h, m);
    case Take => TakeConserves(s);
    case Write(stamp, opens) => WriteConserves(s, stamp, opens);
    case Drain => DrainConserves(s);
    case FinalWrite(stamp, opens) => FinalConserves(s, stamp, opens);
    case _ =>
  }

  lemma {:induction false} RunConserves(s: State, run: seq<Event>)
    requires Conserved(s) && IsRun(s, run)
    ensures Conserved(After(s, run))
    decreases |run|
  {
    if run == [] {
    } else {
      StepConserves(s, run[0]);
      RunConserves(Step(s, run[0]), run[1..]);
    }
  }

  /** Over every interleaving of producers, writer and shutdown: the records written, those
      lost at a closed file on exit, those the writer holds, and the two buffers, in this
      order, are the accepted records in the order of the lock. Every record that reached
      the lock was accepted or counted as dropped. While the logger runs, the writer does
      not leave its loop. */
  lemma NothingLostOrReordered(size: nat, opens: bool, run: seq<Event>)
    requires IsRun(Initial(size, opens), run)
    ensures var s := After(Initial(size, opens), run);
            && s.written + s.lost + s.held + s.next + s.current == s.accepted
            && s.arrived == |s.accepted| + s.dropped
            && (s.stage != Done ==> s.lost == [])
            && (s.running ==> s.stage == Testing || s.stage == Taking || s.stage == Writing)
  {
    RunConserves(Initial(size, opens), run);
  }

  // ------------------------------------------------------------- shutting down

  /** When the writer is done, what had been accepted before its exit drain has been written,
      or lost to a closed file; what came later stays in the buffers. */
  lemma ShutdownSplitsTheRecords(size: nat, opens: bool, run: seq<Event>)
    requires IsRun(Initial(size, opens), run) && After(Initial(size, opens), run).stage == Done
    ensures var s := After(Initial(size, opens), run);
            && s.drained <= |s.accepted|
            && s.written + s.lost == s.accepted[..s.drained]
            && s.next + s.current == s.accepted[s.drained..]
  {
    RunConserves(Initial(size, opens), run);
    hide IsRun, After, Conserved;
    SplitAtDrain(After(Initial(size, opens), run));
  }

  lemma SplitAtDrain(s: State)
    requires Conserved(s) && s.stage == Done
    ensures s.drained <= |s.accepted|
    ensures s.written + s.lost == s.accepted[..s.drained] && s.next + s.current == s.accepted[s.drained..]
  {
    assert s.written + s.lost + s.held == s.written + s.lost;
    assert s.accepted == s.accepted[..s.drained] + (s.next + s.current);
  }

  predicate Opens(e: Event) { (e.Write? || e.FinalWrite?) ==> e.opens }

  predicate AlwaysOpens(run: seq<Event>) { forall i :: 0 <= i < |run| ==> Opens(run[i]) }

  lemma LogLeavesDisk(s: State, e: Event)
    ensures e.Log? ==> var n := LogStep(s, e.header, e.message);
              n.disk == s.disk && n.written == s.written && n.lost == s.lost && n.stage == s.stage && n.size == s.size
  {
  }

  lemma {:induction false} StaysOpen(s: State, run: seq<Event>)
    requires s.disk.isOpen && s.lost == [] && IsRun(s, run) && AlwaysOpens(run)
    ensures After(s, run).disk.isOpen && After(s, run).lost == []
    decreases |run|
  {
    if run == [] {
    } else {
      hide LogStep;
      LogLeavesDisk(s, run[0]);
      assert Opens(run[0]);
      StaysOpen(Step(s, run[0]), run[1..]);
    }
  }

  /** While the file can be opened, whenever that is tried, everything accepted before the
      exit drain is in the file when the writer is done: no record is lost. */
  lemma ShutdownWritesWhatCameBefore(size: nat, run: seq<Event>)
    requires IsRun(Initial(size, true), run) && AlwaysOpens(run) && After(Initial(size, true), run).stage == Done
    ensures var s := After(Initial(size, true), run);
            s.drained <= |s.accepted| && s.written == s.accepted[..s.drained]
  {
    StaysOpen(Initial(size, true), run);
    ShutdownSplitsTheRecords(size, true, run);
    hide IsRun, After;
    assert After(Initial(size, true), run).written + [] == After(Initial(size, true), run).written;
  }

  /** Whether a file is open for the last write, after the roll that may come first. */
  predicate OpenAtExit(s: State, opens: bool) {
    if s.disk.fileSize + Size(s.held) >= MAX_FILE_SIZE then opens else s.disk.isOpen
  }

  lemma FinalWriteLosesNothingIff(s: State, stamp: nat, opens: bool)
    requires Conserved(s) && s.stage == FinalWriting
    ensures Step(s, FinalWrite(stamp, opens)).lost == [] <==> s.held == [] || OpenAtExit(s, opens)
  {
    hide Without, Size;
  }

  lemma AllWrittenIff(s: State)
    requires Conserved(s) && s.stage == Done
    ensures s.drained <= |s.accepted| && (s.written == s.accepted[..s.drained] <==> s.lost == [])
  {
    assert s.written + s.lost + s.held == s.written + s.lost;
    assert s.lost == [] <==> s.written == s.written + s.lost;
  }

  /** Exactly then is what the exit drain took written, in every reachable state. */
  lemma ExitDrainIsWrittenIff(size: nat, opens: bool, run: seq<Event>, stamp: nat, reopens: bool)
    requires IsRun(Initial(size, opens), run) && After(Initial(size, opens), run).stage == FinalWriting
    ensures var s := After(Initial(size, opens), run);
            var n := Step(s, FinalWrite(stamp, reopens));
            && n.drained <= |n.accepted|
            && (n.written == n.accepted[..n.drained] <==> s.held == [] || OpenAtExit(s, reopens))
  {
    RunConserves(Initial(size, opens), run);
    var s := After(Initial(size, opens), run);
    hide IsRun, After, Conserved, OpenAtExit;
    StepConserves(s, FinalWrite(stamp, reopens));
    FinalWriteLosesNothingIff(s, stamp, reopens);
    assert Step(s, FinalWrite(stamp, reopens)).stage == Done;
    hide Step;
    AllWrittenIff(Step(s, FinalWrite(stamp, reopens)));
  }

  /** One event after the other. */
  lemma RunOf(s: State, run: seq<Event>)
    requires run == [] || (Enabled(s, run[0]) && IsRun(Step(s, run[0]), run[1..]))
    ensures IsRun(s, run)
    ensures After(s, run) == if run == [] then s else After(Step(s, run[0]), run[1..])
  {
  }

  ghost predicate Leads(s: State, run: seq<Event>, n: State) { IsRun(s, run) && After(s, run) == n }

  lemma {:induction false} LeadsOn(s: State, a: seq<Event>, m: State, b: seq<Event>, n: State)
    requires Leads(s, a, m) && Leads(m, b, n)
    ensures Leads(s, a + b, n)
    decreases |a|
  {
    if a == [] {
      assert a + b == b;
    } else {
      LeadsOn(Step(s, a[0]), a[1..], m, b, n);
      assert (a + b)[1..] == a[1..] + b;
    }
  }

  lemma OneStep(s: State, e: Event)
    requires Enabled(s, e)
    ensures Leads(s, [e], Step(s, e))
  {
    hide Step, Enabled;
    assert [e][1..] == [];
    RunOf(Step(s, e), []);
    RunOf(s, [e]);
  }

  lemma TwoSteps(s: State, e: Event, f: Event)
    requires Enabled(s, e) && Enabled(Step(s, e), f)
    ensures Leads(s, [e, f], Step(Step(s, e), f))
  {
    hide Step, Enabled, Leads;
    OneStep(s, e);
    OneStep(Step(s, e), f);
    LeadsOn(s, [e], Step(s, e), [f], Step(Step(s, e), f));
    assert [e] + [f] == [e, f];
  }

  /** The writer leaves its loop and writes what the buffers hold, if a file is open. */
  const LAST_STEPS: seq<Event> := [Test, Drain] + [FinalWrite(0, true)]

  lemma LastSteps(s: State)
    requires !s.running && s.stage == Testing
    ensures Leads(s, LAST_STEPS, FinalStep(Step(Step(s, Test), Drain), 0, true))
  {
    hide FinalStep, Leads;
    var n := Step(Step(s, Test), Drain);
    TwoSteps(s, Test, Drain);
    OneStep(n, FinalWrite(0, true));
    LeadsOn(s, [Test, Drain], n, [FinalWrite(0, true)], FinalStep(n, 0, true));
  }

  /** The first record of an empty logger. */
  lemma FirstRecord(s: State, p: int, header: string, message: string)
    requires s.running && s.entered == {} && s.current == s.next == []
    ensures var record := RecordOf(header, message, s.size);
            Leads(s, [Enter(p), Log(p, header, message)],
                  s.(current := [record], arrived := s.arrived + 1, accepted := s.accepted + [record]))
  {
    hide RecordOf, Leads;
    TwoSteps(s, Enter(p), Log(p, header, message));
    assert s.entered + {p} - {p} == s.entered;
    assert s.current + [RecordOf(header, message, s.size)] == [RecordOf(header, message, s.size)];
  }

  lemma ExitAtClosedFile(s: State, record: string)
    requires !s.running && s.stage == Testing && s.next == [] && s.current == [record]
    requires !s.disk.isOpen && s.disk.fileSize == 0 && |record| < MAX_FILE_SIZE
    ensures Leads(s, LAST_STEPS,
                  s.(stage := Done, current := [], held := [], lost := [record], drained := |s.accepted|))
  {
    LastSteps(s);
    hide Leads;
    FlattenOne(record);
    assert [] + [record] == [record];
  }

  lemma ExitWithNothing(s: State)
    requires !s.running && s.stage == Testing && s.next == [] && s.current == []
    ensures Leads(s, LAST_STEPS, s.(stage := Done, held := [], drained := |s.accepted|))
  {
    LastSteps(s);
    hide Leads;
  }

  /** A run that loses a record: init could not open the file, and the exit drain does not
      fall back to stderr. */
  lemma ClosedFileLosesTheDrain(size: nat, p: int, header: string, message: string)
    requires |header| + |message| + 1 < MAX_FILE_SIZE
    ensures var run := [Enter(p), Log(p, header, message)] + [Shutdown] + LAST_STEPS;
            && IsRun(Initial(size, false), run)
            && var s := After(Initial(size, false), run);
               s.stage == Done && s.accepted == [RecordOf(header, message, size)] == s.lost && s.written == []
  {
    ClosedFileRun(size, p, header, message, RecordOf(header, message, size));
    hide IsRun, After, RecordOf;
  }

  lemma ClosedFileRun(size: nat, p: int, header: string, message: string, record: string)
    requires |header| + |message| + 1 < MAX_FILE_SIZE && record == RecordOf(header, message, size)
    ensures Leads(Initial(size, false), [Enter(p), Log(p, header, message)] + [Shutdown] + LAST_STEPS,
                  Initial(size, false).(running := false, stage := Done, arrived := 1, accepted := [record],
                                        lost := [record], drained := 1))
  {
    assert |record| < MAX_FILE_SIZE;
    hide RecordOf, Leads;
    var s0 := Initial(size, false);
    var s1 := s0.(current := [record], arrived := 1, accepted := [record]);
    var s2 := s1.(running := false);
    var s3 := s2.(stage := Done, current := [], lost := [record], drained := 1);
    FirstRecord(s0, p, header, message);
    assert [] + [record] == [record];
    OneStep(s1, Shutdown);
    ExitAtClosedFile(s2, record);
    LeadsOn(s0, [Enter(p), Log(p, header, message)], s1, [Shutdown], s2);
    LeadsOn(s0, [Enter(p), Log(p, header, message)] + [Shutdown], s2, LAST_STEPS, s3);
  }

  /** A record that comes too late: its producer had passed the test before shutdown cleared
      the flag, and took the lock after the exit drain. It stays in a buffer. */
  lemma LateRecordStaysInTheBuffer(size: nat, p: int, header: string, message: string)
    ensures var run := [Enter(p), Shutdown] + LAST_STEPS + [Log(p, header, message)];
            && IsRun(Initial(size, true), run)
            && var s := After(Initial(size, true), run);
               && s.stage == Done && s.written == s.lost == []
               && s.accepted == [RecordOf(header, message, size)] == s.current
  {
    LateRun(size, p, header, message, RecordOf(header, message, size));
    hide IsRun, After, RecordOf;
  }

  lemma LateRun(size: nat, p: int, header: string, message: string, record: string)
    requires record == RecordOf(header, message, size)
    ensures Leads(Initial(size, true), [Enter(p), Shutdown] + LAST_STEPS + [Log(p, header, message)],
                  Initial(size, true).(running := false, stage := Done, current := [record], arrived := 1,
                                       accepted := [record]))
  {
    hide RecordOf, Leads;
    var s0 := Initial(size, true);
    var s1 := s0.(entered := {p}, running := false);
    var s2 := s1.(stage := Done);
    TwoSteps(s0, Enter(p), Shutdown);
    ExitWithNothing(s1);
    OneStep(s2, Log(p, header, message));
    assert {} + {p} == {p} && {p} - {p} == {} && [] + [record] == [record];
    LeadsOn(s0, [Enter(p), Shutdown], s1, LAST_STEPS, s2);
    LeadsOn(s0, [Enter(p), Shutdown] + LAST_STEPS, s2, [Log(p, header, message)], Step(s2, Log(p, header, message)));
  }

  lemma LateStep(s: State, e: Event)
    requires !s.running && Enabled(s, e)
    ensures var n := Step(s, e);
            && !n.running && n.entered <= s.entered
            && n.arrived + |n.entered| <= s.arrived + |s.entered|
            && (e.Log? ==> e.producer in s.entered && e.producer !in n.entered)
  {
    hide RecordOf, Size, NeedOf, FileAfter;
  }

  /** And these are the only ones: once the flag is cleared, only producers that had passed the
      test by then reach the lock; a later call adds nothing. */
  lemma {:induction false} LateCallsAddNothing(s: State, run: seq<Event>)
    requires !s.running && IsRun(s, run)
    ensures var n := After(s, run);
            && !n.running && n.entered <= s.entered
            && n.arrived + |n.entered| <= s.arrived + |s.entered|
    ensures forall i :: 0 <= i < |run| && run[i].Log? ==> run[i].producer in s.entered
    decreases |run|
  {
    if run == [] {
    } else {
      LateStep(s, run[0]);
      hide Step;
      LateCallsAddNothing(Step(s, run[0]), run[1..]);
      var rest := run[1..];
      forall i | 0 <= i < |run| && run[i].Log?
        ensures run[i].producer in s.entered
      {
        if i > 0 {
          assert rest[i - 1] == run[i];
        }
      }
    }
  }

  /** Each of them once. */
  lemma {:induction false} LateCallsComeOnce(s: State, run: seq<Event>)
    requires !s.running && IsRun(s, run)
    ensures forall i, j :: 0 <= i < j < |run| && run[i].Log? && run[j].Log? ==> run[i].producer != run[j].producer
    decreases |run|
  {
    if run == [] {
    } else {
      LateStep(s, run[0]);
      hide Step;
      var rest := run[1..];
      LateCallsAddNothing(Step(s, run[0]), rest);
      LateCallsComeOnce(Step(s, run[0]), rest);
      hide IsRun, After;
      forall i, j | 0 <= i < j < |run| && run[i].Log? && run[j].Log?
        ensures run[i].producer != run[j].producer
      {
        assert rest[j - 1] == run[j];
        if i > 0 {
          assert rest[i - 1] == run[i];
        }
      }
    }
  }

  /** Once is_running_ is false the writer cannot go round again: from any of its stages
      at most five of its own steps finish it. */
  function StepsToDone(s: State): nat {
    match s.stage
    case Taking => 5
    case Writing => 4
    case Testing => 3
    case Draining => 2
    case FinalWriting => 1
    case Done => 0
  }

  predicate IsWriters(e: Event) { e.Test? || e.Take? || e.Write? || e.Drain? || e.FinalWrite? }

  lemma WriterFinishes(s: State, e: Event)
    requires !s.running && Enabled(s, e)
    ensures !Step(s, e).running
    ensures StepsToDone(Step(s, e)) == StepsToDone(s) - if IsWriters(e) then 1 else 0
    ensures s.stage != Done ==> exists f :: IsWriters(f) && Enabled(s, f)
  {
    assert match s.stage
      case Taking => Enabled(s, Take)
      case Writing => Enabled(s, Write(0, true))
      case Testing => Enabled(s, Test)
      case Draining => Enabled(s, Drain)
      case FinalWriting => Enabled(s, FinalWrite(0, true))
      case Done => true;
  }

  // --------------------------------------------------------------- capacity

  /** A record is as long as the space reserved for it, exactly when the header and the
      newline fit into a buffer. */
  lemma RecordFits(header: string, message: string, size: nat)
    ensures |RecordOf(header, message, size)| == NeedOf(header, message, size) <==> |header| + 1 <= size
  {
  }

  ghost predicate Bounded(s: State) {
    && Size(s.current) <= s.size && Size(s.next) <= s.size
    && Size(s.held) <= if s.stage == FinalWriting then 2 * s.size else s.size
  }

  predicate HeaderFits(e: Event, size: nat) { e.Log? ==> |e.header| + 1 <= size }

  lemma LogKeepsBounds(s: State, header: string, message: string)
    requires Bounded(s) && |header| + 1 <= s.size
    ensures Bounded(LogStep(s, header, message)) && LogStep(s, header, message).size == s.size
  {
    var record := RecordOf(header, message, s.size);
    RecordFits(header, message, s.size);
    FlattenSnoc(s.current, record);
    FlattenOne(record);
    hide RecordOf, Flatten;
  }

  lemma StepKeepsBounds(s: State, e: Event)
    requires Bounded(s) && Enabled(s, e) && HeaderFits(e, s.size) && Conserved(s)
    ensures Bounded(Step(s, e)) && Step(s, e).size == s.size
  {
    hide FileAfter, Conserved, LogStep, Flatten;
    match e
    case Log(_, h, m) => LogKeepsBounds(s, h, m);
    case Drain => FlattenAppend(s.next, s.current); NoneHeld();
    case Take => HandsEmpty(s); NoneHeld();
    case _ => NoneHeld();
  }

  lemma NoneHeld()
    ensures Size([]) == 0
  {
  }

  lemma {:induction false} RunKeepsBounds(s: State, run: seq<Event>)
    requires Bounded(s) && Conserved(s) && IsRun(s, run)
    requires forall i :: 0 <= i < |run| ==> HeaderFits(run[i], s.size)
    ensures Bounded(After(s, run)) && After(s, run).size == s.size
    decreases |run|
  {
    if run == [] {
    } else {
      hide Step, Bounded, Conserved, HeaderFits;
      assert HeaderFits(run[0], s.size);
      StepKeepsBounds(s, run[0]);
      StepConserves(s, run[0]);
      RunKeepsBounds(Step(s, run[0]), run[1..]);
    }
  }

  /** No buffer ever outgrows its size, whatever the interleaving, when every header fits. */
  lemma BuffersKeepTheirSize(size: nat, opens: bool, run: seq<Event>)
    requires IsRun(Initial(size, opens), run)
    requires forall i :: 0 <= i < |run| ==> HeaderFits(run[i], size)
    ensures var s := After(Initial(size, opens), run);
            Size(s.current) <= size && Size(s.next) <= size && (s.stage != FinalWriting ==> Size(s.held) <= size)
  {
    RunKeepsBounds(Initial(size, opens), run);
  }

  lemma HandsEmpty(s: State)
    requires Conserved(s) && s.stage == Taking
    ensures s.held == []
  {
  }

  // ------------------------------------------------------------ the logger

  predicate NoneEmpty(records: seq<string>) { forall i :: 0 <= i < |records| ==> records[i] != "" }

  /** A buffer of bytes that holds these records. */
  ghost predicate Bytes(buffer: string, records: seq<string>) { buffer == Flatten(records) && NoneEmpty(records) }

  /** The bytes of a buffer tell whether it holds a record. */
  lemma EmptyBytes(buffer: string, records: seq<string>)
    requires Bytes(buffer, records)
    ensures buffer == "" <==> records == []
    ensures |buffer| == Size(records)
  {
  }

  lemma BytesAre(buffer: string, records: seq<string>)
    requires Bytes(buffer, records)
    ensures buffer == Flatten(records)
  {
  }

  lemma NoBytes()
    ensures Bytes("", [])
  {
  }

  lemma MoreBytes(buffer: string, records: seq<string>, record: string)
    requires Bytes(buffer, records) && record != ""
    ensures Bytes(buffer + record, records + [record])
  {
    FlattenSnoc(records, record);
  }

  lemma JoinedBytes(a: string, left: seq<string>, b: string, right: seq<string>)
    requires Bytes(a, left) && Bytes(b, right)
    ensures Bytes(a + b, left + right)
  {
    FlattenAppend(left, right);
  }

  /** One call of log by a producer that has passed the test. */
  datatype Entry = Entry(producer: int, header: string, message: string)

  ghost predicate MayLog(entered: set<int>, entries: seq<Entry>)
    decreases |entries|
  {
    entries == [] || (entries[0].producer in entered && MayLog(entered - {entries[0].producer}, entries[1..]))
  }

  /** What producers change and what they leave alone. */
  ghost predicate OnlyLogged(s: State, n: State) {
    && s.accepted <= n.accepted && n.written == s.written && n.lost == s.lost && n.held == s.held
    && n.stage == s.stage && n.running == s.running && n.drained == s.drained && n.disk == s.disk
  }

  lemma LogOnlyLogs(s: State, e: Entry)
    requires Enabled(s, Log(e.producer, e.header, e.message))
    ensures var n := Step(s, Log(e.producer, e.header, e.message));
            OnlyLogged(s, n) && n.arrived == s.arrived + 1 && n.entered == s.entered - {e.producer}
  {
    hide RecordOf, Size, NeedOf;
  }

  lemma StaysOpenAtExit(s: State, stamp: nat, opens: bool)
    requires s.stage == FinalWriting && Conserved(s) && s.disk.isOpen && opens
    ensures Step(s, FinalWrite(stamp, opens)).lost == []
  {
  }

  lemma WhatIsLeft(s: State)
    requires Conserved(s) && s.stage == Done
    ensures s.drained <= |s.accepted| && s.written + s.lost == s.accepted[..s.drained]
    ensures Flatten(s.next) + Flatten(s.current) == Flatten(s.accepted[s.drained..])
  {
    SplitAtDrain(s);
    FlattenAppend(s.next, s.current);
  }

  class AsyncLogger {
    var bufferSize: nat
    var currentBuffer: string
    var nextBuffer: string
    var writeBuffer: string
    var isRunning: bool
    var droppedCount: nat
    var logFile: string
    var fileSize: nat
    var isOpen: bool
    var archives: map<nat, string>
    ghost var model: State

    /** The bytes are those of the model's records. */
    ghost predicate Valid()
      reads this
    {
      && BuffersMatch()
      && model.size == bufferSize && model.running == isRunning && model.dropped == droppedCount
      && DiskMatches(model.disk)
    }

    ghost predicate BuffersMatch()
      reads `currentBuffer, `nextBuffer, `writeBuffer, `model
    {
      Bytes(currentBuffer, model.current) && Bytes(nextBuffer, model.next) && Bytes(writeBuffer, model.held)
    }

    ghost predicate DiskMatches(d: Disk)
      reads `logFile, `fileSize, `isOpen, `archives
    {
      logFile == Flatten(d.file) && fileSize == d.fileSize && isOpen == d.isOpen && ArchivesMatch(d.archives)
    }

    ghost predicate ArchivesMatch(files: map<nat, seq<string>>)
      reads `archives
    {
      archives.Keys == files.Keys && forall k :: k in archives ==> archives[k] == Flatten(files[k])
    }

    /** init in an empty directory. */
    constructor (buffSize: nat, opens: bool)
      ensures Valid() && model == Initial(buffSize, opens)
    {
      bufferSize, currentBuffer, nextBuffer, writeBuffer := buffSize, "", "", "";
      isRunning, droppedCount, logFile, fileSize, isOpen, archives := true, 0, "", 0, opens, map[];
      model := Initial(buffSize, opens);
    }

    /** The first lines of log: the test of the flag. */
    method EnterLog(ghost producer: int) returns (goesOn: bool)
      requires Valid() && Enabled(model, Enter(producer))
      modifies `model
      ensures Valid() && model == Step(old(model), Enter(producer))
      ensures (goesOn <==> producer in model.entered) && goesOn == isRunning
    {
      model := Step(model, Enter(producer));
      return isRunning;
    }

    /** The lock region of log. */
    method Append(ghost producer: int, header: string, message: string) returns (accepted: bool)
      requires Valid() && Enabled(model, Log(producer, header, message))
      modifies this
      ensures Valid() && model == Step(old(model), Log(producer, header, message))
      ensures droppedCount == old(droppedCount) + if accepted then 0 else 1
      ensures var room := |old(currentBuffer)| + Min(|header| + |message| + 1, bufferSize) <= bufferSize;
              && (accepted <==> room || old(nextBuffer) == "")
              && nextBuffer == if !room && old(nextBuffer) == "" then old(currentBuffer) else old(nextBuffer)
    {
      hide RecordOf, DiskMatches, Size, Bytes;
      ghost var record := RecordOf(header, message, bufferSize);
      RecordBytes(header, message, bufferSize);
      EmptyBytes(nextBuffer, model.next);
      EmptyBytes(currentBuffer, model.current);
      MoreBytes(currentBuffer, model.current, record);
      ghost var next := Step(model, Log(producer, header, message));
      var msgLen, needLen := CutToFit(header, message, bufferSize);
      if |currentBuffer| + needLen > bufferSize {
        if nextBuffer == "" {
          MoreBytes(nextBuffer, model.next, record);
          currentBuffer, nextBuffer := nextBuffer, currentBuffer;
          assert [] + [record] == [record];
        } else {
          droppedCount := droppedCount + 1;
          model := next;
          return false;
        }
      }
      currentBuffer := currentBuffer + (header + message[..msgLen] + "\n");
      model := next;
      return true;
    }

    /** The truncation of a record that is too long for a buffer. */
    static method CutToFit(header: string, message: string, size: nat) returns (msgLen: int, needLen: nat)
      ensures 0 <= msgLen <= |message| && needLen == NeedOf(header, message, size)
      ensures RecordOf(header, message, size) == header + message[..msgLen] + "\n"
    {
      RecordBytes(header, message, size);
      hide RecordOf;
      msgLen := |message|;
      needLen := |header| + msgLen + 1;
      if needLen > size {
        msgLen := size - |header| - 1;
        if msgLen < 0 {
          msgLen := 0;
        }
        needLen := size;
      }
    }

    /** The lock region of the writer's loop: take the full buffer, or else what there is. */
    method Exchange()
      requires Valid() && Enabled(model, Take)
      modifies this
      ensures Valid() && model == Step(old(model), Take)
      ensures old(writeBuffer) == "" ==>
                writeBuffer == (if old(nextBuffer) != "" then old(nextBuffer) else old(currentBuffer))
                && nextBuffer == "" && currentBuffer == if old(nextBuffer) != "" then old(currentBuffer) else ""
    {
      hide DiskMatches, Bytes;
      EmptyBytes(nextBuffer, model.next);
      EmptyBytes(currentBuffer, model.current);
      if nextBuffer != "" {
        writeBuffer, nextBuffer := nextBuffer, writeBuffer;
      } else if currentBuffer != "" {
        currentBuffer, nextBuffer := nextBuffer, currentBuffer;
        writeBuffer, nextBuffer := nextBuffer, writeBuffer;
      }
      model := TakeStep(model);
    }

    method RollFile(stamp: nat, opens: bool, ghost d: Disk)
      requires DiskMatches(d)
      modifies `logFile, `fileSize, `isOpen, `archives
      ensures DiskMatches(Roll(d, stamp, opens))
    {
      if isOpen {
        archives := archives[stamp := logFile];
      }
      logFile, fileSize, isOpen := "", 0, opens;
    }

    method RollWhenFull(incoming: nat, stamp: nat, opens: bool, ghost d: Disk)
      requires DiskMatches(d)
      modifies `logFile, `fileSize, `isOpen, `archives
      ensures DiskMatches(RollIfNeeded(d, incoming, stamp, opens))
    {
      hide Roll, ArchivesMatch;
      if fileSize + incoming >= MAX_FILE_SIZE {
        RollFile(stamp, opens, d);
      }
    }

    method AppendToFile(bytes: string, counted: bool, stamp: nat, opens: bool,
                        ghost d: Disk, ghost records: seq<string>)
      requires DiskMatches(d) && Bytes(bytes, records)
      modifies `logFile, `fileSize, `isOpen, `archives
      ensures DiskMatches(FileAfter(d, records, stamp, opens, counted))
    {
      hide RollIfNeeded, ArchivesMatch, NoneEmpty;
      RollWhenFull(|bytes|, stamp, opens, d);
      FlattenAppend(RollIfNeeded(d, Size(records), stamp, opens).file, records);
      hide Flatten;
      if isOpen {
        logFile := logFile + bytes;
        if counted {
          fileSize := fileSize + |bytes|;
        }
      }
    }

    /** The writer's file region, and the clearing of its buffer. */
    method WriteOut(stamp: nat, opens: bool)
      requires Valid() && Enabled(model, Write(stamp, opens))
      modifies this
      ensures Valid() && model == Step(old(model), Write(stamp, opens))
    {
      hide FileAfter, DiskMatches, Bytes;
      EmptyBytes(writeBuffer, model.held);
      NoBytes();
      if writeBuffer != "" {
        AppendToFile(writeBuffer, true, stamp, opens, model.disk, model.held);
        writeBuffer := "";
      }
      model := WriteStep(model, stamp, opens);
    }

    /** writeWhenExit: first both buffers under one lock, then the file under the other. */
    method DrainBuffers()
      requires Valid() && Enabled(model, Drain)
      modifies this
      ensures Valid() && model == Step(old(model), Drain)
    {
      hide DiskMatches, Bytes;
      EmptyBytes(nextBuffer, model.next);
      EmptyBytes(currentBuffer, model.current);
      NoBytes();
      JoinedBytes(nextBuffer, model.next, currentBuffer, model.current);
      assert nextBuffer == "" ==> "" + currentBuffer == nextBuffer + currentBuffer;
      assert currentBuffer == "" ==> nextBuffer + currentBuffer == nextBuffer;
      assert "" + nextBuffer == nextBuffer;
      var finalBuf := "";
      if nextBuffer != "" {
        finalBuf := finalBuf + nextBuffer;
        nextBuffer := "";
      }
      if currentBuffer != "" {
        finalBuf := finalBuf + currentBuffer;
        currentBuffer := "";
      }
      writeBuffer := finalBuf;
      model := Step(model, Drain);
    }

    method WriteRemainder(stamp: nat, opens: bool)
      requires Valid() && Enabled(model, FinalWrite(stamp, opens))
      modifies this
      ensures Valid() && model == Step(old(model), FinalWrite(stamp, opens))
    {
      hide FileAfter, DiskMatches, Bytes;
      EmptyBytes(writeBuffer, model.held);
      NoBytes();
      if writeBuffer != "" {
        AppendToFile(writeBuffer, false, stamp, opens, model.disk, model.held);
        writeBuffer := "";
      }
      model := FinalStep(model, stamp, opens);
    }

    /** Calls of log by producers that had passed the test, one after the other. */
    method AppendAll(entries: seq<Entry>, ghost later: seq<Entry>)
      requires Valid() && Conserved(model) && MayLog(model.entered, entries + later)
      modifies this
      ensures Valid() && Conserved(model) && MayLog(model.entered, later)
      ensures OnlyLogged(old(model), model) && model.arrived == old(model.arrived) + |entries|
    {
      hide Conserved, DiskMatches, BuffersMatch, LogStep;
      assert entries + later == entries[0..] + later;
      for k := 0 to |entries|
        invariant Valid() && Conserved(model) && MayLog(model.entered, entries[k..] + later)
        invariant OnlyLogged(old(model), model) && model.arrived == old(model.arrived) + k
      {
        var e := entries[k];
        assert (entries[k..] + later)[0] == e && (entries[k..] + later)[1..] == entries[k + 1..] + later;
        StepConserves(model, Log(e.producer, e.header, e.message));
        LogOnlyLogs(model, e);
        var accepted := Append(e.producer, e.header, e.message);
      }
      assert entries[|entries|..] + later == later;
    }

    /** What the writer thread does from its last test of the flag to its end, with producers
        that had passed the test coming in before the drain, before the last write and after
        it: everything accepted before the drain is written, unless no file is open; the rest
        is in the buffers. */
    method ExitWriter(stamp: nat, opens: bool, first: seq<Entry>, second: seq<Entry>, third: seq<Entry>)
      requires Valid() && Conserved(model) && !isRunning && model.stage == Testing
      requires MayLog(model.entered, first + (second + third))
      modifies this
      ensures Valid() && Conserved(model) && model.stage == Done
      ensures old(model.accepted) <= model.accepted && |old(model.accepted)| <= model.drained <= |model.accepted|
      ensures model.written + model.lost == model.accepted[..model.drained]
      ensures nextBuffer + currentBuffer == Flatten(model.accepted[model.drained..])
      ensures old(model.disk).isOpen && opens ==> model.lost == []
      ensures model.arrived == old(model.arrived) + |first| + |second| + |third|
    {
      hide Conserved, DiskMatches, MayLog, FileAfter, Bytes;
      StepConserves(model, Test);
      model := Step(model, Test);
      AppendAll(first, second + third);
      StepConserves(model, Drain);
      DrainBuffers();
      AppendAll(second, third);
      StepConserves(model, FinalWrite(stamp, opens));
      if model.disk.isOpen && opens {
        StaysOpenAtExit(model, stamp, opens);
      }
      WriteRemainder(stamp, opens);
      assert third + [] == third;
      AppendAll(third, []);
      WhatIsLeft(model);
      BytesAre(nextBuffer, model.next);
      BytesAre(currentBuffer, model.current);
    }

    method ShutDown()
      requires Valid()
      modifies this
      ensures Valid() && model == Step(old(model), Shutdown)
    {
      isRunning := false;
      model := Step(model, Shutdown);
    }
  }

  lemma RecordBytes(header: string, message: string, size: nat)
    ensures RecordOf(header, message, size) != ""
    ensures |header| + |message| + 1 <= size ==> RecordOf(header, message, size) == header + message[..|message|] + "\n"
    ensures |header| + |message| + 1 > size ==>
              var room := Max(0, size - |header| - 1);
              room <= |message| && RecordOf(header, message, size) == header + message[..room] + "\n"
  {
    assert message[..|message|] == message;
  }
}
