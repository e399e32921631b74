/** Where the logger's records end up on disk: the current file and its archives, over
    whole runs, with rolls that may take the name of an earlier archive. */
module LogRotation {
  import opened Basics
  import opened Loggers

  // ------------------------------------------------------------------ files

  predicate Distinct(stamps: seq<nat>) { forall i, j :: 0 <= i < j < |stamps| ==> stamps[i] != stamps[j] }

  predicate Indexed(order: seq<nat>, archives: map<nat, seq<string>>) { forall k :: k in order ==> k in archives }

  /** The archives one after the other, in the order of the renames. */
  ghost function Archived(order: seq<nat>, archives: map<nat, seq<string>>): seq<string>
    requires Indexed(order, archives)
  {
    if order == [] then []
    else
      assert order[0] in order;
      archives[order[0]] + Archived(order[1..], archives)
  }

  /** The order lists every archive once. */
  ghost predicate Listed(d: Disk) {
    Distinct(d.order) && forall k :: k in d.archives <==> k in d.order
  }

  /** Everything the log directory holds. */
  ghost function OnDisk(d: Disk): seq<string>
    requires Listed(d)
  {
    Archived(d.order, d.archives) + d.file
  }

  lemma {:induction false} WithoutMembers(stamps: seq<nat>, stamp: nat)
    ensures forall k :: k in Without(stamps, stamp) <==> k in stamps && k != stamp
  {
    if stamps == [] {
    } else {
      WithoutMembers(stamps[1..], stamp);
    }
  }

  lemma DistinctTail(stamps: seq<nat>)
    requires Distinct(stamps) && stamps != []
    ensures Distinct(stamps[1..]) && stamps[0] !in stamps[1..]
  {
  }

  lemma DistinctMore(stamps: seq<nat>, stamp: nat)
    requires Distinct(stamps) && stamp !in stamps
    ensures Distinct([stamp] + stamps) && Distinct(stamps + [stamp])
  {
  }

  lemma {:induction false} WithoutDistinct(stamps: seq<nat>, stamp: nat)
    requires Distinct(stamps)
    ensures Distinct(Without(stamps, stamp))
  {
    if stamps == [] {
    } else {
      DistinctTail(stamps);
      WithoutDistinct(stamps[1..], stamp);
      WithoutMembers(stamps[1..], stamp);
      if stamps[0] != stamp {
        hide Distinct;
        DistinctMore(Without(stamps[1..], stamp), stamps[0]);
      }
    }
  }

  lemma {:induction false} ArchivedSnoc(order: seq<nat>, archives: map<nat, seq<string>>, last: nat)
    requires Indexed(order, archives) && last in archives
    ensures Archived(order + [last], archives) == Archived(order, archives) + archives[last]
  {
    var all := order + [last];
    if order == [] {
      assert all == [last] && all[1..] == [];
      assert Archived(all[1..], archives) == [];
    } else {
      assert all[1..] == order[1..] + [last];
      ArchivedSnoc(order[1..], archives, last);
      assert archives[order[0]] + (Archived(order[1..], archives) + archives[last])
          == archives[order[0]] + Archived(order[1..], archives) + archives[last];
    }
  }

  lemma {:induction false} ArchivedSame(order: seq<nat>, m: map<nat, seq<string>>, n: map<nat, seq<string>>)
    requires Indexed(order, m) && Indexed(order, n) && forall k :: k in order ==> m[k] == n[k]
    ensures Archived(order, m) == Archived(order, n)
  {
    if order == [] {
    } else {
      ArchivedSame(order[1..], m, n);
    }
  }

  /** How many records an archive holds, none if there is no such archive. */
  function Held(archives: map<nat, seq<string>>, stamp: nat): nat {
    if stamp in archives then |archives[stamp]| else 0
  }

  /** Taking one archive away takes exactly its records away. */
  lemma {:induction false} ArchivedWithout(order: seq<nat>, archives: map<nat, seq<string>>, stamp: nat)
    requires Indexed(order, archives) && Distinct(order)
    ensures Indexed(Without(order, stamp), archives)
    ensures |Archived(order, archives)|
            == |Archived(Without(order, stamp), archives)| + if stamp in order then Held(archives, stamp) else 0
    ensures stamp !in order || Held(archives, stamp) == 0 ==>
              Archived(Without(order, stamp), archives) == Archived(order, archives)
  {
    WithoutMembers(order, stamp);
    if order == [] {
    } else {
      DistinctTail(order);
      ArchivedWithout(order[1..], archives, stamp);
      if order[0] != stamp {
        assert ([order[0]] + Without(order[1..], stamp))[1..] == Without(order[1..], stamp);
      }
    }
  }

  /** A roll keeps the archives listed, and takes from the directory the archive it replaces. */
  lemma RollKeepsFiles(d: Disk, stamp: nat, opens: bool)
    requires d.isOpen && Listed(d)
    ensures var n := Roll(d, stamp, opens);
            && Listed(n)
            && |OnDisk(n)| + Held(d.archives, stamp) == |OnDisk(d)|
            && (Held(d.archives, stamp) == 0 ==> OnDisk(n) == OnDisk(d))
  {
    hide Archived;
    var n := Roll(d, stamp, opens);
    var rest := Without(d.order, stamp);
    WithoutMembers(d.order, stamp);
    WithoutDistinct(d.order, stamp);
    DistinctMore(rest, stamp);
    ArchivedWithout(d.order, d.archives, stamp);
    ArchivedSame(rest, d.archives, n.archives);
    ArchivedSnoc(rest, n.archives, stamp);
    assert OnDisk(n) == Archived(rest, d.archives) + d.file;
  }

  // ------------------------------------------------------- one event, one write

  /** The events that write something. */
  predicate Writes(s: State, e: Event) { (e.Write? || e.FinalWrite?) && s.held != [] }

  predicate Rolls(s: State, e: Event) { Writes(s, e) && s.disk.fileSize + Size(s.held) >= MAX_FILE_SIZE }

  /** Whether a file is open for the write of an event, after its roll. */
  predicate OpenFor(s: State, e: Event)
    requires Writes(s, e)
  {
    if Rolls(s, e) then e.opens else s.disk.isOpen
  }

  /** How many records the roll of an event takes from the directory. */
  function Replaced(s: State, e: Event): nat {
    if Rolls(s, e) && s.disk.isOpen then Held(s.disk.archives, e.stamp) else 0
  }

  /** What an event writes to a file. */
  function FiledBy(s: State, e: Event): seq<string> {
    if Writes(s, e) && OpenFor(s, e) then s.held else []
  }

  /** What an event writes to stderr, because no file is open. */
  function SpilledBy(s: State, e: Event): seq<string> {
    if e.Write? && Writes(s, e) && !OpenFor(s, e) then s.held else []
  }

  function ReplacedIn(s: State, run: seq<Event>): nat
    requires IsRun(s, run)
    decreases |run|
  {
    if run == [] then 0 else Replaced(s, run[0]) + ReplacedIn(Step(s, run[0]), run[1..])
  }

  function FiledIn(s: State, run: seq<Event>): seq<string>
    requires IsRun(s, run)
    decreases |run|
  {
    if run == [] then [] else FiledBy(s, run[0]) + FiledIn(Step(s, run[0]), run[1..])
  }

  function SpilledIn(s: State, run: seq<Event>): seq<string>
    requires IsRun(s, run)
    decreases |run|
  {
    if run == [] then [] else SpilledBy(s, run[0]) + SpilledIn(Step(s, run[0]), run[1..])
  }

  /** What was written went to a file or to stderr, in order. */
  lemma StepWrites(s: State, e: Event)
    requires Enabled(s, e)
    ensures Step(s, e).written == s.written + (FiledBy(s, e) + SpilledBy(s, e))
    ensures FiledBy(s, e) == [] || SpilledBy(s, e) == []
  {
    hide LogStep, Without, Size;
    LogLeavesDisk(s, e);
    assert s.written + [] == s.written;
  }

  lemma InCons(s: State, run: seq<Event>)
    requires run != [] && IsRun(s, run)
    ensures var n := Step(s, run[0]);
            && FiledIn(s, run) == FiledBy(s, run[0]) + FiledIn(n, run[1..])
            && SpilledIn(s, run) == SpilledBy(s, run[0]) + SpilledIn(n, run[1..])
            && ReplacedIn(s, run) == Replaced(s, run[0]) + ReplacedIn(n, run[1..])
            && After(s, run) == After(n, run[1..])
  {
    hide Step, FiledBy, SpilledBy, Replaced;
  }

  lemma Regroup<T>(a: seq<T>, b: seq<T>, c: seq<T>)
    ensures a + b + c == a + (b + c)
  {
  }

  /** One write, then more: nothing gets lost in the counting. */
  lemma WritesAdd(written: seq<string>, filed: seq<string>, spilled: seq<string>,
                  moreFiled: seq<string>, moreSpilled: seq<string>, after: seq<string>)
    requires filed == [] || spilled == []
    requires |after| == |written + (filed + spilled)| + |moreFiled| + |moreSpilled|
    requires multiset(after) == multiset(written + (filed + spilled)) + multiset(moreFiled) + multiset(moreSpilled)
    requires moreSpilled == [] ==> after == written + (filed + spilled) + moreFiled
    ensures |after| == |written| + |filed + moreFiled| + |spilled + moreSpilled|
    ensures multiset(after) == multiset(written) + multiset(filed + moreFiled) + multiset(spilled + moreSpilled)
    ensures spilled + moreSpilled == [] ==> after == written + (filed + moreFiled)
  {
    if spilled + moreSpilled == [] {
      assert |spilled + moreSpilled| == |spilled| + |moreSpilled|;
      assert filed + spilled == filed;
      Regroup(written, filed, moreFiled);
    }
  }

  lemma {:induction false} RunWrites(s: State, run: seq<Event>)
    requires IsRun(s, run)
    ensures |After(s, run).written| == |s.written| + |FiledIn(s, run)| + |SpilledIn(s, run)|
    ensures multiset(After(s, run).written)
            == multiset(s.written) + multiset(FiledIn(s, run)) + multiset(SpilledIn(s, run))
    ensures SpilledIn(s, run) == [] ==> After(s, run).written == s.written + FiledIn(s, run)
    decreases |run|
  {
    if run == [] {
      assert s.written + [] == s.written;
    } else {
      var n := Step(s, run[0]);
      StepWrites(s, run[0]);
      InCons(s, run);
      RunWrites(n, run[1..]);
      hide Step, FiledBy, SpilledBy, FiledIn, SpilledIn, After, Replaced, ReplacedIn;
      WritesAdd(s.written, FiledBy(s, run[0]), SpilledBy(s, run[0]), FiledIn(n, run[1..]), SpilledIn(n, run[1..]),
                After(n, run[1..]).written);
    }
  }

  /** The directory holds what went to a file, but for what rolls have replaced. */
  ghost predicate Filed(s: State, filed: seq<string>, replaced: nat) {
    && Listed(s.disk) && (!s.disk.isOpen ==> s.disk.file == [])
    && |OnDisk(s.disk)| + replaced == |filed|
    && (replaced == 0 ==> OnDisk(s.disk) == filed)
  }

  /** One roll, if it is due. */
  lemma RollFiles(d: Disk, incoming: nat, stamp: nat, opens: bool)
    requires Listed(d) && (!d.isOpen ==> d.file == [])
    ensures var n := RollIfNeeded(d, incoming, stamp, opens);
            var gone := if d.fileSize + incoming >= MAX_FILE_SIZE && d.isOpen then Held(d.archives, stamp) else 0;
            && Listed(n) && (!n.isOpen ==> n.file == [])
            && |OnDisk(n)| + gone == |OnDisk(d)|
            && (gone == 0 ==> OnDisk(n) == OnDisk(d))
  {
    if d.isOpen {
      RollKeepsFiles(d, stamp, opens);
    }
    hide Archived, Held, Without, Distinct;
  }

  /** One append, after a roll when the limit would be reached. */
  lemma FileAppend(d: Disk, incoming: seq<string>, stamp: nat, opens: bool, counted: bool)
    requires Listed(d) && (!d.isOpen ==> d.file == [])
    ensures var n := FileAfter(d, incoming, stamp, opens, counted);
            var rolls := d.fileSize + Size(incoming) >= MAX_FILE_SIZE;
            var gone := if rolls && d.isOpen then Held(d.archives, stamp) else 0;
            var more := if (if rolls then opens else d.isOpen) then incoming else [];
            && Listed(n) && (!n.isOpen ==> n.file == [])
            && |OnDisk(n)| + gone == |OnDisk(d) + more|
            && (gone == 0 ==> OnDisk(n) == OnDisk(d) + more)
  {
    hide Archived, Listed, OnDisk, Held, Size, Roll;
    RollFiles(d, Size(incoming), stamp, opens);
    var r := RollIfNeeded(d, Size(incoming), stamp, opens);
    RollOpens(d, Size(incoming), stamp, opens);
    hide RollIfNeeded;
    if r.isOpen {
      MoreOnDisk(r, incoming, if counted then r.fileSize + Size(incoming) else r.fileSize);
    }
    assert OnDisk(d) + [] == OnDisk(d);
  }

  lemma RollOpens(d: Disk, incoming: nat, stamp: nat, opens: bool)
    ensures RollIfNeeded(d, incoming, stamp, opens).isOpen
            == if d.fileSize + incoming >= MAX_FILE_SIZE then opens else d.isOpen
  {
    hide Without;
  }

  lemma MoreOnDisk(d: Disk, incoming: seq<string>, fileSize: nat)
    requires Listed(d)
    ensures var n := d.(file := d.file + incoming, fileSize := fileSize);
            Listed(n) && OnDisk(n) == OnDisk(d) + incoming
  {
    hide Archived, Distinct;
  }

  lemma StepFiles(s: State, e: Event, filed: seq<string>, replaced: nat)
    requires Filed(s, filed, replaced) && Enabled(s, e)
    ensures Filed(Step(s, e), filed + FiledBy(s, e), replaced + Replaced(s, e))
  {
    hide LogStep, Listed, OnDisk, FileAfter, Held, Size;
    LogLeavesDisk(s, e);
    if Writes(s, e) {
      FileAppend(s.disk, s.held, e.stamp, e.opens, e.Write?);
    } else {
      assert filed + [] == filed;
    }
  }

  lemma {:induction false} RunFiles(s: State, run: seq<Event>, filed: seq<string>, replaced: nat)
    requires Filed(s, filed, replaced) && IsRun(s, run)
    ensures Filed(After(s, run), filed + FiledIn(s, run), replaced + ReplacedIn(s, run))
    decreases |run|
  {
    if run == [] {
      assert filed + [] == filed;
    } else {
      hide Step, Filed, Replaced, FiledBy, FiledIn, ReplacedIn, After, SpilledIn, SpilledBy;
      var n := Step(s, run[0]);
      StepFiles(s, run[0], filed, replaced);
      RunFiles(n, run[1..], filed + FiledBy(s, run[0]), replaced + Replaced(s, run[0]));
      InCons(s, run);
      Regroup(filed, FiledBy(s, run[0]), FiledIn(n, run[1..]));
    }
  }

  /** No roll of the run replaces an archive that holds something. */
  predicate KeepsArchives(s: State, run: seq<Event>)
    requires IsRun(s, run)
    decreases |run|
  {
    run == [] || (Replaced(s, run[0]) == 0 && KeepsArchives(Step(s, run[0]), run[1..]))
  }

  lemma {:induction false} KeepsArchivesIff(s: State, run: seq<Event>)
    requires IsRun(s, run)
    ensures KeepsArchives(s, run) <==> ReplacedIn(s, run) == 0
    decreases |run|
  {
    if run == [] {
    } else {
      hide Step, Replaced;
      KeepsArchivesIff(Step(s, run[0]), run[1..]);
    }
  }

  /** Over every run, whether the file opens or not: what was written went to a file or to
      stderr; archives in order followed by the current file are what went to a file if and
      only if no roll took the name of an archive that held something, and all that was
      written if and only if nothing went to stderr either. What is missing is exactly what
      those rolls replaced and what went to stderr. */
  lemma FilesHoldTheStreamIff(size: nat, opens: bool, run: seq<Event>)
    requires IsRun(Initial(size, opens), run)
    ensures var s := After(Initial(size, opens), run);
            var (filed, spilled) := (FiledIn(Initial(size, opens), run), SpilledIn(Initial(size, opens), run));
            && multiset(s.written) == multiset(filed) + multiset(spilled)
            && Listed(s.disk)
            && |OnDisk(s.disk)| + ReplacedIn(Initial(size, opens), run) + |spilled| == |s.written|
            && (OnDisk(s.disk) == filed <==> KeepsArchives(Initial(size, opens), run))
            && (OnDisk(s.disk) == s.written <==> KeepsArchives(Initial(size, opens), run) && spilled == [])
  {
    hide IsRun, After, ReplacedIn, KeepsArchives, FiledIn, SpilledIn, Archived, Distinct, Listed;
    var s0 := Initial(size, opens);
    NothingFiled(s0);
    RunFiles(s0, run, [], 0);
    RunWrites(s0, run);
    KeepsArchivesIff(s0, run);
    HoldsIff(After(s0, run), FiledIn(s0, run), SpilledIn(s0, run), ReplacedIn(s0, run));
  }

  lemma NothingFiled(s: State)
    requires s.disk.file == [] && s.disk.order == [] && s.disk.archives == map[]
    ensures Filed(s, [], 0)
  {
  }

  lemma HoldsIff(s: State, filed: seq<string>, spilled: seq<string>, replaced: nat)
    requires Filed(s, [] + filed, 0 + replaced) && |s.written| == |filed| + |spilled|
    requires spilled == [] ==> s.written == filed
    ensures Listed(s.disk) && |OnDisk(s.disk)| + replaced + |spilled| == |s.written|
    ensures OnDisk(s.disk) == filed <==> replaced == 0
    ensures OnDisk(s.disk) == s.written <==> replaced == 0 && spilled == []
  {
    assert [] + filed == filed;
    hide Archived, Listed, Distinct;
  }

  // ------------------------------------------------------------- file sizes

  /** Files hold whole records, fewer bytes than the limit of 100 MiB; an archive is at most
      one write short of it, the last write being of up to two buffers. */
  ghost predicate SmallFiles(s: State) {
    && Size(s.disk.file) < 104857600
    && (!s.disk.isOpen ==> s.disk.file == [])
    && (s.stage != Done ==> s.disk.fileSize == Size(s.disk.file))
    && (forall k :: k in s.disk.archives ==> FullArchive(s.disk.archives[k], s.size))
  }

  predicate FullArchive(records: seq<string>, size: nat) {
    records != [] && Size(records) < 104857600 <= Size(records) + 2 * size
  }

  /** A write rolls first exactly when the file with it would reach the limit of 100 MiB: then
      the old file is the archive of that stamp and the new one starts with this write. */
  lemma WriteRollsIff(s: State, stamp: nat, opens: bool)
    requires s.stage == Writing && s.held != [] && s.disk.isOpen && stamp !in s.disk.archives
    ensures var n := Step(s, Write(stamp, opens));
            && (stamp in n.disk.archives <==> s.disk.fileSize + Size(s.held) >= 104857600)
            && n.disk.archives == (if s.disk.fileSize + Size(s.held) >= 104857600
                                   then s.disk.archives[stamp := s.disk.file] else s.disk.archives)
            && (s.disk.fileSize + Size(s.held) < 104857600 ==>
                  n.disk.file == s.disk.file + s.held && n.disk.fileSize == s.disk.fileSize + Size(s.held))
            && (s.disk.fileSize + Size(s.held) >= 104857600 ==>
                  n.disk.isOpen == opens && n.disk.file == if opens then s.held else [])
  {
    hide Size, Without;
  }

  lemma AppendKeepsFileSmall(d: Disk, incoming: seq<string>, stamp: nat, opens: bool, counted: bool)
    requires d.fileSize == Size(d.file) < MAX_FILE_SIZE && Size(incoming) < MAX_FILE_SIZE
    requires !d.isOpen ==> d.file == []
    ensures var n := FileAfter(d, incoming, stamp, opens, counted);
            && Size(n.file) < MAX_FILE_SIZE && (!n.isOpen ==> n.file == [])
            && (counted ==> n.fileSize == Size(n.file))
            && (n.archives == d.archives
                || (d.isOpen && d.file != [] && n.archives == d.archives[stamp := d.file]
                    && Size(d.file) + Size(incoming) >= 104857600))
  {
    hide Without;
    FlattenAppend(RollIfNeeded(d, Size(incoming), stamp, opens).file, incoming);
  }

  lemma StepKeepsFilesSmall(s: State, e: Event)
    requires SmallFiles(s) && Bounded(s) && Enabled(s, e) && 2 * s.size < MAX_FILE_SIZE
    ensures SmallFiles(Step(s, e)) && Step(s, e).size == s.size
    ensures Replaced(s, e) == 0 <==> TakesFreshStamp(s, e)
  {
    hide LogStep, Without;
    LogLeavesDisk(s, e);
    if Rolls(s, e) {
      assert s.disk.file != [];
    }
    hide FileAfter, Size;
    if Writes(s, e) {
      AppendKeepsFileSmall(s.disk, s.held, e.stamp, e.opens, e.Write?);
    }
  }

  /** The guard of a roll: its stamp is not taken. */
  predicate TakesFreshStamp(s: State, e: Event) { Rolls(s, e) ==> e.stamp !in s.disk.archives }

  predicate FreshStamps(s: State, run: seq<Event>)
    requires IsRun(s, run)
    decreases |run|
  {
    run == [] || (TakesFreshStamp(s, run[0]) && FreshStamps(Step(s, run[0]), run[1..]))
  }

  lemma {:induction false} RunKeepsFilesSmall(s: State, run: seq<Event>)
    requires SmallFiles(s) && Bounded(s) && Conserved(s) && IsRun(s, run) && 2 * s.size < MAX_FILE_SIZE
    requires forall i :: 0 <= i < |run| ==> HeaderFits(run[i], s.size)
    ensures SmallFiles(After(s, run))
    ensures KeepsArchives(s, run) <==> FreshStamps(s, run)
    decreases |run|
  {
    if run == [] {
    } else {
      hide Step, SmallFiles, Bounded, Conserved, HeaderFits, Replaced, TakesFreshStamp;
      assert HeaderFits(run[0], s.size);
      StepKeepsFilesSmall(s, run[0]);
      StepKeepsBounds(s, run[0]);
      StepConserves(s, run[0]);
      RunKeepsFilesSmall(Step(s, run[0]), run[1..]);
    }
  }

  /** Rotation: with buffers under half the limit and headers that fit, every file ever made
      holds whole records and stays below the limit of 100 MiB, and an archive falls short of it
      by at most two buffers; the files are exactly what was written, the exit drain included,
      if and only if every roll found its stamp free and a file was open for every write. */
  lemma RotationLosesNothingIff(size: nat, opens: bool, run: seq<Event>)
    requires IsRun(Initial(size, opens), run) && 2 * size < MAX_FILE_SIZE
    requires forall i :: 0 <= i < |run| ==> HeaderFits(run[i], size)
    ensures var s := After(Initial(size, opens), run);
            && SmallFiles(s) && s.size == size && Listed(s.disk)
            && (OnDisk(s.disk) == s.written
                <==> FreshStamps(Initial(size, opens), run) && SpilledIn(Initial(size, opens), run) == [])
  {
    RunKeepsFilesSmall(Initial(size, opens), run);
    RunKeepsBounds(Initial(size, opens), run);
    FilesHoldTheStreamIff(size, opens, run);
  }

  // ------------------------------------------------------- a stamp taken twice

  /** One record on its way from a call of log to the file. */
  function Journey(p: int, header: string, message: string, stamp: nat): seq<Event> {
    [Enter(p), Log(p, header, message)] + [Test, Take] + [Write(stamp, true)]
  }

  ghost predicate Idle(s: State) {
    s.running && s.stage == Testing && s.entered == {} && s.current == s.next == s.held == []
  }

  function Arrived(s: State, record: string, stamp: nat): State {
    s.(disk := FileAfter(s.disk, [record], stamp, true, true), arrived := s.arrived + 1,
       accepted := s.accepted + [record], written := s.written + [record])
  }

  lemma JourneyOfARecord(s: State, p: int, header: string, message: string, stamp: nat)
    requires Idle(s)
    ensures var n := Arrived(s, RecordOf(header, message, s.size), stamp);
            Leads(s, Journey(p, header, message, stamp), n) && Idle(n)
  {
    hide RecordOf, FileAfter, Leads;
    var record := RecordOf(header, message, s.size);
    var s1 := s.(current := [record], arrived := s.arrived + 1, accepted := s.accepted + [record]);
    var s2 := s1.(current := [], held := [record], stage := Writing);
    FirstRecord(s, p, header, message);
    TwoSteps(s1, Test, Take);
    OneStep(s2, Write(stamp, true));
    LeadsOn(s, [Enter(p), Log(p, header, message)], s1, [Test, Take], s2);
    LeadsOn(s, [Enter(p), Log(p, header, message)] + [Test, Take], s2, [Write(stamp, true)],
            Arrived(s, record, stamp));
  }

  /** Records on their way one after the other, all under one stamp. */
  function Journeys(p: int, header: string, messages: seq<string>, stamp: nat): seq<Event> {
    if messages == [] then []
    else Journey(p, header, messages[0], stamp) + Journeys(p, header, messages[1..], stamp)
  }

  function Records(header: string, messages: seq<string>, size: nat): (r: seq<string>)
    ensures |r| == |messages|
  {
    seq(|messages|, i requires 0 <= i < |messages| => RecordOf(header, messages[i], size))
  }

  ghost function DiskAfterAll(d: Disk, records: seq<string>, stamp: nat): Disk
    decreases |records|
  {
    if records == [] then d else DiskAfterAll(FileAfter(d, [records[0]], stamp, true, true), records[1..], stamp)
  }

  lemma {:induction false} JourneysOfRecords(s: State, p: int, header: string, messages: seq<string>, stamp: nat)
    returns (n: State)
    requires Idle(s)
    ensures var records := Records(header, messages, s.size);
            && Leads(s, Journeys(p, header, messages, stamp), n)
            && n.disk == DiskAfterAll(s.disk, records, stamp) && n.written == s.written + records
    decreases |messages|
  {
    if messages == [] {
      n := s;
      RunOf(s, []);
    } else {
      hide Leads, Journey, FileAfter, RecordOf;
      var record := RecordOf(header, messages[0], s.size);
      var records := Records(header, messages, s.size);
      var next := Arrived(s, record, stamp);
      JourneyOfARecord(s, p, header, messages[0], stamp);
      n := JourneysOfRecords(next, p, header, messages[1..], stamp);
      LeadsOn(s, Journey(p, header, messages[0], stamp), next, Journeys(p, header, messages[1..], stamp), n);
      assert records[0] == record && records[1..] == Records(header, messages[1..], s.size);
      assert s.written + [record] + records[1..] == s.written + records;
    }
  }

  lemma FileGrows(d: Disk, record: string, stamp: nat)
    requires d.isOpen && d.fileSize + |record| < MAX_FILE_SIZE
    ensures FileAfter(d, [record], stamp, true, true)
            == d.(file := d.file + [record], fileSize := d.fileSize + |record|)
  {
    FlattenOne(record);
  }

  lemma FileRolls(d: Disk, record: string, stamp: nat)
    requires d.isOpen && d.fileSize + |record| >= MAX_FILE_SIZE
    ensures FileAfter(d, [record], stamp, true, true)
            == Disk([record], |record|, true, d.archives[stamp := d.file], Without(d.order, stamp) + [stamp])
  {
    FlattenOne(record);
    assert [] + [record] == [record];
  }

  function Copies<T>(n: nat, x: T): (r: seq<T>)
    ensures |r| == n && forall i :: 0 <= i < n ==> r[i] == x
  {
    seq(n, _ => x)
  }

  lemma CopiesCons<T>(n: nat, x: T)
    requires n > 0
    ensures Copies(n, x) == [x] + Copies(n - 1, x)
  {
  }

  /** Equal records go into one file, as long as they fit. */
  lemma {:induction false} FileOfMany(d: Disk, n: nat, record: string, stamp: nat)
    requires d.isOpen && d.fileSize + n * |record| < MAX_FILE_SIZE
    ensures DiskAfterAll(d, Copies(n, record), stamp)
            == d.(file := d.file + Copies(n, record), fileSize := d.fileSize + n * |record|)
    decreases n
  {
    if n == 0 {
      assert Copies(n, record) == [] && d.file + Copies(n, record) == d.file;
    } else {
      var rest := (n - 1) * |record|;
      assert n * |record| == rest + |record| && rest >= 0;
      CopiesCons(n, record);
      FileGrows(d, record, stamp);
      DiskNext(d, record, Copies(n - 1, record), stamp);
      hide FileAfter, DiskAfterAll;
      var next := d.(file := d.file + [record], fileSize := d.fileSize + |record|);
      FileOfMany(next, n - 1, record, stamp);
      assert d.file + [record] + Copies(n - 1, record) == d.file + Copies(n, record);
    }
  }

  /** A full file is rolled by the next record. */
  lemma NextFile(d: Disk, record: string, stamp: nat)
    requires d.isOpen && d.fileSize + |record| >= MAX_FILE_SIZE && (d.order == [] || d.order == [stamp])
    ensures DiskAfterAll(d, [record], stamp)
            == Disk([record], |record|, true, d.archives[stamp := d.file], [stamp])
  {
    FileRolls(d, record, stamp);
    assert Without(d.order, stamp) == [] by {
      assert d.order != [] ==> d.order[1..] == [];
    }
    hide FileAfter, Without;
    assert [record] + [] == [record] && [] + [stamp] == [stamp];
    DiskNext(d, record, [], stamp);
    DiskDone(FileAfter(d, [record], stamp, true, true), stamp);
  }

  /** Two files' worth of records and one more, every roll under one stamp. */
  lemma DiskOfTwoFiles(ra: string, rb: string, k: nat, stamp: nat)
    requires |ra| == |rb| && k > 0 && k * |ra| < MAX_FILE_SIZE <= (k + 1) * |ra|
    ensures DiskAfterAll(Disk([], 0, true, map[], []), Copies(k, ra) + Copies(k, rb) + [rb], stamp)
            == Disk([rb], |rb|, true, map[stamp := Copies(k, rb)], [stamp])
  {
    hide DiskAfterAll;
    var z := |ra|;
    assert (k + 1) * z == k * z + z && k * z == (k - 1) * z + z;
    var d0 := Disk([], 0, true, map[], []);
    var d1 := Disk(Copies(k, ra), k * z, true, map[], []);
    var d2 := Disk([rb], z, true, map[stamp := Copies(k, ra)], [stamp]);
    var d3 := Disk(Copies(k, rb), k * z, true, map[stamp := Copies(k, ra)], [stamp]);
    FileOfMany(d0, k, ra, stamp);
    assert [] + Copies(k, ra) == Copies(k, ra);
    NextFile(d1, rb, stamp);
    FileOfMany(d2, k - 1, rb, stamp);
    CopiesCons(k, rb);
    NextFile(d3, rb, stamp);
    assert map[stamp := Copies(k, ra)][stamp := Copies(k, rb)] == map[stamp := Copies(k, rb)];
    DiskAfterTwo(d0, Copies(k, ra), [rb], stamp);
    DiskAfterTwo(d0, Copies(k, ra) + [rb], Copies(k - 1, rb), stamp);
    DiskAfterTwo(d0, Copies(k, ra) + [rb] + Copies(k - 1, rb), [rb], stamp);
    assert Copies(k, ra) + [rb] + Copies(k - 1, rb) == Copies(k, ra) + Copies(k, rb);
  }

  lemma {:induction false} DiskAfterTwo(d: Disk, a: seq<string>, b: seq<string>, stamp: nat)
    ensures DiskAfterAll(d, a + b, stamp) == DiskAfterAll(DiskAfterAll(d, a, stamp), b, stamp)
    decreases |a|
  {
    if a == [] {
      assert a + b == b;
    } else {
      hide FileAfter;
      assert (a + b)[1..] == a[1..] + b;
      DiskAfterTwo(FileAfter(d, [a[0]], stamp, true, true), a[1..], b, stamp);
    }
  }

  lemma DiskNext(d: Disk, record: string, rest: seq<string>, stamp: nat)
    ensures DiskAfterAll(d, [record] + rest, stamp)
            == DiskAfterAll(FileAfter(d, [record], stamp, true, true), rest, stamp)
  {
    assert ([record] + rest)[1..] == rest;
  }

  lemma DiskDone(d: Disk, stamp: nat)
    ensures DiskAfterAll(d, [], stamp) == d
  {
  }

  lemma RecordsOfTwo(header: string, a: string, b: string, k: nat, size: nat)
    requires |header| + |a| + 1 <= size && |header| + |b| + 1 <= size
    ensures Records(header, Copies(k, a) + Copies(k, b) + [b], size)
            == Copies(k, header + a + "\n") + Copies(k, header + b + "\n") + [header + b + "\n"]
  {
    RecordBytes(header, a, size);
    RecordBytes(header, b, size);
    assert a[..|a|] == a && b[..|b|] == b;
    hide RecordOf;
  }

  lemma OneArchive(stamp: nat, records: seq<string>, file: seq<string>, fileSize: nat)
    ensures var d := Disk(file, fileSize, true, map[stamp := records], [stamp]);
            Listed(d) && OnDisk(d) == records + file
  {
    var m := map[stamp := records];
    assert [stamp][1..] == [] && Archived([], m) == [];
    assert records + [] == records;
  }

  /** How many records of a size fit below the limit. */
  lemma FullFile(z: nat) returns (k: nat)
    requires 0 < z < MAX_FILE_SIZE
    ensures k > 0 && k * z < MAX_FILE_SIZE <= (k + 1) * z
  {
    k := (MAX_FILE_SIZE - 1) / z;
    var rest := (MAX_FILE_SIZE - 1) % z;
    assert MAX_FILE_SIZE - 1 == z * k + rest;
    assert z * k == k * z && (k + 1) * z == k * z + z;
    assert k == 0 ==> k * z == 0;
  }

  /** A run as log can make it, with messages of at most 1023 bytes and headers of at most 255:
      two files fill up, and every roll takes the same stamp. The second roll replaces what
      the first has archived; all records of the first file were written, and are in no file. */
  lemma SameStampLosesRecords(p: int, header: string, a: string, b: string, size: nat, stamp: nat) returns (k: nat)
    requires |a| == |b| <= 1023 && |header| <= 255
    requires |header| + |a| + 1 <= size && 2 * size < MAX_FILE_SIZE
    ensures k > 0
    ensures var run := Journeys(p, header, Copies(k, a) + Copies(k, b) + [b], stamp);
            var (ra, rb) := (header + a + "\n", header + b + "\n");
            && IsRun(Initial(size, true), run)
            && var s := After(Initial(size, true), run);
               && s.written == Copies(k, ra) + Copies(k, rb) + [rb]
               && Listed(s.disk) && OnDisk(s.disk) == Copies(k, rb) + [rb]
  {
    hide IsRun, After, Journeys, Records, Archived, DiskAfterAll, RecordOf, Copies, Distinct;
    var (ra, rb) := (header + a + "\n", header + b + "\n");
    k := FullFile(|ra|);
    RecordsOfTwo(header, a, b, k, size);
    var n := JourneysOfRecords(Initial(size, true), p, header, Copies(k, a) + Copies(k, b) + [b], stamp);
    DiskOfTwoFiles(ra, rb, k, stamp);
    OneArchive(stamp, Copies(k, rb), [rb], |rb|);
    assert [] + (Copies(k, ra) + Copies(k, rb) + [rb]) == Copies(k, ra) + Copies(k, rb) + [rb];
  }
}
