/** What becomes of a record between a call of log and the file: when it is dropped, when the
    buffers change places, what the writer takes, and how soon a record is written. */
module LogDelivery {
  import opened Basics
  import opened Loggers

  // ------------------------------------------------------- dropping and swapping

  /** Whether the current buffer has room for a record, cut to the size of a buffer if need be. */
  predicate HasRoom(s: State, header: string, message: string) {
    Size(s.current) + Min(|header| + |message| + 1, s.size) <= s.size
  }

  /** What becomes of a record: it is dropped if and only if the current buffer has no room for
      it and the other one still waits for the writer; the buffers change places if and only if
      it has no room and the other is free. */
  lemma DroppedIff(s: State, header: string, message: string)
    ensures var n := LogStep(s, header, message);
            var record := RecordOf(header, message, s.size);
            && n.dropped == s.dropped + (if !HasRoom(s, header, message) && s.next != [] then 1 else 0)
            && (n.accepted == s.accepted <==> !HasRoom(s, header, message) && s.next != [])
            && (HasRoom(s, header, message) ==> n.current == s.current + [record] && n.next == s.next)
            && (!HasRoom(s, header, message) && s.next == [] ==> n.current == [record] && n.next == s.current)
            && (!HasRoom(s, header, message) && s.next != [] ==> n.current == s.current && n.next == s.next)
  {
    hide RecordOf, Size;
    assert |s.accepted + [RecordOf(header, message, s.size)]| == |s.accepted| + 1;
  }

  /** How many records of a run came when the current buffer had no room for them and the other
      one waited for the writer. */
  function Misfits(s: State, run: seq<Event>): nat
    requires IsRun(s, run)
    decreases |run|
  {
    if run == [] then 0
    else if run[0].Log? && !HasRoom(s, run[0].header, run[0].message) && s.next != [] then
      1 + Misfits(Step(s, run[0]), run[1..])
    else Misfits(Step(s, run[0]), run[1..])
  }

  lemma OnlyLogDrops(s: State, e: Event)
    requires Enabled(s, e) && !e.Log?
    ensures Step(s, e).dropped == s.dropped
  {
    hide Size, FileAfter;
  }

  /** Over every interleaving, those and no others are dropped. */
  lemma {:induction false} DroppedAreTheMisfits(s: State, run: seq<Event>)
    requires IsRun(s, run)
    ensures After(s, run).dropped == s.dropped + Misfits(s, run)
    decreases |run|
  {
    if run == [] {
    } else {
      hide LogStep, HasRoom, TakeStep, WriteStep, FinalStep;
      if run[0].Log? {
        DroppedIff(s, run[0].header, run[0].message);
      } else {
        OnlyLogDrops(s, run[0]);
      }
      DroppedAreTheMisfits(Step(s, run[0]), run[1..]);
    }
  }

  /** The buffer that waits is full: the record after it, the first of the current buffer, did
      not fit into it. */
  ghost predicate NextIsFull(s: State) {
    s.next != [] ==> s.current != [] && Size(s.next) + |s.current[0]| > s.size
  }

  lemma LogKeepsFull(s: State, header: string, message: string)
    requires NextIsFull(s) && |header| + 1 <= s.size
    ensures NextIsFull(LogStep(s, header, message)) && LogStep(s, header, message).size == s.size
  {
    RecordFits(header, message, s.size);
    hide RecordOf, Size;
  }

  lemma StepKeepsFull(s: State, e: Event)
    requires NextIsFull(s) && Conserved(s) && Enabled(s, e) && HeaderFits(e, s.size)
    ensures NextIsFull(Step(s, e)) && Step(s, e).size == s.size
  {
    hide LogStep, Size, FileAfter, Conserved;
    if e.Log? {
      LogKeepsFull(s, e.header, e.message);
    } else if e.Take? {
      HandsEmpty(s);
    }
  }

  /** In every reachable state, when headers fit. */
  lemma {:induction false} WaitingBufferIsFull(s: State, run: seq<Event>)
    requires NextIsFull(s) && Conserved(s) && IsRun(s, run)
    requires forall i :: 0 <= i < |run| ==> HeaderFits(run[i], s.size)
    ensures NextIsFull(After(s, run))
    decreases |run|
  {
    if run == [] {
    } else {
      hide Step, NextIsFull, Conserved, HeaderFits;
      assert HeaderFits(run[0], s.size);
      StepKeepsFull(s, run[0]);
      StepConserves(s, run[0]);
      WaitingBufferIsFull(Step(s, run[0]), run[1..]);
    }
  }

  // -------------------------------------------------------------- two rounds

  /** The writer takes the buffer that waits, or else the current one, and leaves the other. */
  lemma TakesTheOlder(s: State)
    requires Conserved(s) && s.stage == Taking
    ensures var n := Step(s, Take);
            && n.stage == Writing && n.next == []
            && (s.next != [] ==> n.held == s.next && n.current == s.current)
            && (s.next == [] ==> n.held == s.current && n.current == [])
  {
  }

  /** How many writes it takes at most until the first k accepted records are written. */
  function WritesToGo(s: State, k: nat): nat {
    var done := |s.written| + |s.lost|;
    var taken := done + |s.held|;
    var older := taken + |if s.next != [] then s.next else s.current|;
    if k <= done then 0
    else if k <= taken then 1
    else if k <= older then if s.stage == Writing then 2 else 1
    else if s.stage == Writing then 3 else 2
  }

  lemma LogDelaysNothing(s: State, header: string, message: string, k: nat)
    requires k <= |s.accepted|
    ensures WritesToGo(LogStep(s, header, message), k) <= WritesToGo(s, k)
    ensures k <= |LogStep(s, header, message).accepted|
  {
    LogGoes(s, header, message);
    hide LogStep, RecordOf;
  }

  lemma StepBringsNearer(s: State, e: Event, k: nat)
    requires Conserved(s) && Enabled(s, e) && k <= |s.accepted|
    ensures k <= |Step(s, e).accepted|
    ensures WritesToGo(Step(s, e), k) <= WritesToGo(s, k)
    ensures e.Write? && WritesToGo(s, k) > 0 ==> WritesToGo(Step(s, e), k) < WritesToGo(s, k)
  {
    hide LogStep, FileAfter;
    if e.Log? {
      LogDelaysNothing(s, e.header, e.message, k);
    } else if e.Take? {
      TakesTheOlder(s);
    }
  }

  function WritesIn(run: seq<Event>): nat {
    if run == [] then 0 else if run[0].Write? then 1 + WritesIn(run[1..]) else WritesIn(run[1..])
  }

  lemma {:induction false} WritesBringNearer(s: State, run: seq<Event>, k: nat)
    requires Conserved(s) && IsRun(s, run) && k <= |s.accepted|
    ensures WritesIn(run) >= WritesToGo(s, k) ==> WritesToGo(After(s, run), k) == 0
    decreases |run|
  {
    hide Step, Conserved, WritesToGo, Enabled;
    if run == [] {
    } else {
      StepBringsNearer(s, run[0], k);
      StepConserves(s, run[0]);
      WritesBringNearer(Step(s, run[0]), run[1..], k);
    }
  }

  lemma {:induction false} AcceptedGrows(s: State, run: seq<Event>)
    requires IsRun(s, run)
    ensures s.accepted <= After(s, run).accepted
    decreases |run|
  {
    if run == [] {
    } else {
      AcceptOnlyAdds(s, run[0]);
      hide Step;
      AcceptedGrows(Step(s, run[0]), run[1..]);
    }
  }

  lemma AcceptOnlyAdds(s: State, e: Event)
    requires Enabled(s, e)
    ensures s.accepted <= Step(s, e).accepted
  {
    hide RecordOf, Size, NeedOf, FileAfter;
  }

  /** A record does not stay behind: whatever producers do meanwhile, two rounds of the writer
      write everything that had been accepted when they began. */
  lemma TwoRoundsWriteEverything(s: State, run: seq<Event>)
    requires Conserved(s) && s.stage == Testing && IsRun(s, run) && WritesIn(run) >= 2
    ensures s.accepted <= After(s, run).written + After(s, run).lost
    ensures After(s, run).stage != Done ==> s.accepted <= After(s, run).written
  {
    WritesBringNearer(s, run, |s.accepted|);
    RunConserves(s, run);
    AcceptedGrows(s, run);
    TwoRoundsAtMost(s);
    hide IsRun, After, Conserved, WritesToGo, WritesIn;
    WrittenSoFar(After(s, run), s.accepted);
  }

  lemma TwoRoundsAtMost(s: State)
    requires Conserved(s) && s.stage == Testing
    ensures WritesToGo(s, |s.accepted|) <= 2
  {
  }

  lemma WrittenSoFar(n: State, first: seq<string>)
    requires Conserved(n) && first <= n.accepted && WritesToGo(n, |first|) == 0
    ensures first <= n.written + n.lost
    ensures n.stage != Done ==> first <= n.written
  {
    var rest := n.held + n.next + n.current;
    assert n.accepted == n.written + n.lost + rest;
    assert n.lost == [] ==> n.written + n.lost == n.written;
  }
}
