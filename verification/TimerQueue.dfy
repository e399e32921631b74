/** The timer queue: a heap of absolute deadlines, a sweep that runs what is due and
    renews periodic timers without drift, and one kernel timer armed at the earliest
    deadline. Times are nanoseconds of the steady clock; a timer is known by the number
    of its callback. */
module TimerQueues {
  import opened Basics

  const NANOS_PER_MILLI: int := 1_000_000
  const NANOS_PER_SECOND: int := 1_000_000_000

  datatype Timer = Timer(expire: int, intervalMs: int, callback: nat)

  function Period(intervalMs: int): int { intervalMs * NANOS_PER_MILLI }

  /** addTimerInLoop's node; a repeating timer of zero or negative interval runs once. */
  function NewTimer(now: int, milliseconds: int, callback: nat, repeat: bool): Timer {
    Timer(now + Period(milliseconds), if repeat then milliseconds else 0, callback)
  }

  predicate IsDue(t: Timer, now: int) { t.expire <= now }

  predicate Repeats(t: Timer) { t.intervalMs > 0 }

  /** The deadline after a sweep at `now`: as many periods on as were missed, and one. */
  function Renewed(t: Timer, now: int): Timer
    requires Repeats(t)
  {
    t.(expire := t.expire + ((now - t.expire) / Period(t.intervalMs) + 1) * Period(t.intervalMs))
  }

  lemma DivisionBounds(a: int, p: int)
    requires p > 0
    ensures a / p * p <= a < (a / p + 1) * p
  {
    assert a == a / p * p + a % p;
    assert (a / p + 1) * p == a / p * p + p;
  }

  /** Renewal keeps the phase and lands in (now, now + period]. */
  lemma RenewedOnSchedule(t: Timer, now: int) returns (steps: int)
    requires t.intervalMs > 0 && t.expire <= now
    ensures steps >= 1 && Renewed(t, now).expire == t.expire + steps * Period(t.intervalMs)
    ensures Period(t.intervalMs) == t.intervalMs * 1_000_000
    ensures now < Renewed(t, now).expire <= now + Period(t.intervalMs)
  {
    var p := Period(t.intervalMs);
    DivisionBounds(now - t.expire, p);
    steps := (now - t.expire) / p + 1;
    assert steps * p == (now - t.expire) / p * p + p;
  }

  // ------------------------------------------------------------- the sweep

  function Due(ts: seq<Timer>, now: int): seq<Timer> {
    if ts == [] then []
    else if IsDue(ts[0], now) then [ts[0]] + Due(ts[1..], now)
    else Due(ts[1..], now)
  }

  function NotDue(ts: seq<Timer>, now: int): seq<Timer> {
    if ts == [] then []
    else if IsDue(ts[0], now) then NotDue(ts[1..], now)
    else [ts[0]] + NotDue(ts[1..], now)
  }

  /** What is put back for the timers that ran: the periodic ones, renewed. */
  function PutBack(ran: seq<Timer>, now: int): seq<Timer> {
    if ran == [] then [] else Back(ran[0], now) + PutBack(ran[1..], now)
  }

  function Back(t: Timer, now: int): seq<Timer> { if Repeats(t) then [Renewed(t, now)] else [] }

  predicate InOrder(ran: seq<Timer>) { forall i, j :: 0 <= i < j < |ran| ==> ran[i].expire <= ran[j].expire }

  /** A sweep at `now`: every due timer ran exactly once, earliest deadline first; of the
      due ones the periodic are back with their next deadline; the others are untouched. */
  ghost predicate IsSweep(before: seq<Timer>, now: int, after: seq<Timer>, ran: seq<Timer>) {
    && multiset(ran) == multiset(Due(before, now))
    && InOrder(ran)
    && multiset(after) == multiset(NotDue(before, now)) + multiset(PutBack(ran, now))
  }

  lemma {:induction false} DueSplits(ts: seq<Timer>, now: int)
    ensures multiset(ts) == multiset(Due(ts, now)) + multiset(NotDue(ts, now))
    ensures forall t :: t in Due(ts, now) ==> IsDue(t, now)
    ensures forall t :: t in NotDue(ts, now) ==> !IsDue(t, now)
  {
    if ts == [] {
    } else {
      DueSplits(ts[1..], now);
      assert ts == [ts[0]] + ts[1..];
    }
  }

  lemma {:induction false} PutBackSnoc(ran: seq<Timer>, t: Timer, now: int)
    ensures PutBack(ran + [t], now) == PutBack(ran, now) + Back(t, now)
  {
    hide Back;
    if ran == [] {
      assert ([] + [t])[1..] == [];
    } else {
      assert (ran + [t])[1..] == ran[1..] + [t];
      PutBackSnoc(ran[1..], t, now);
    }
  }

  lemma {:induction false} PutBackIsLater(ran: seq<Timer>, now: int)
    requires forall i :: 0 <= i < |ran| ==> IsDue(ran[i], now)
    ensures forall t :: t in PutBack(ran, now) ==> !IsDue(t, now)
  {
    if ran == [] {
    } else {
      PutBackIsLater(ran[1..], now);
      if Repeats(ran[0]) {
        var steps := RenewedOnSchedule(ran[0], now);
      }
    }
  }

  lemma {:induction false} DueCount(ts: seq<Timer>, now: int, t: Timer)
    ensures multiset(Due(ts, now))[t] == if t.expire <= now then multiset(ts)[t] else 0
  {
    if ts == [] {
    } else {
      DueCount(ts[1..], now, t);
      assert ts == [ts[0]] + ts[1..];
    }
  }

  /** A sweep runs exactly the timers whose deadline has come, as often as they are there, the
      earlier before the later. */
  lemma SweepRunsTheDue(before: seq<Timer>, now: int, after: seq<Timer>, ran: seq<Timer>, t: Timer)
    requires IsSweep(before, now, after, ran)
    ensures multiset(ran)[t] == if t.expire <= now then multiset(before)[t] else 0
    ensures forall i, j :: 0 <= i < j < |ran| ==> ran[i].expire <= ran[j].expire
  {
    DueCount(before, now, t);
  }

  /** After a sweep every deadline is still to come. */
  lemma SweepLeavesNothingDue(before: seq<Timer>, now: int, after: seq<Timer>, ran: seq<Timer>)
    requires IsSweep(before, now, after, ran)
    ensures forall t :: t in after ==> now < t.expire
  {
    DueSplits(before, now);
    RanWereDue(before, now, ran);
    PutBackIsLater(ran, now);
    hide Due, NotDue, PutBack, Repeats, Back;
    forall t | t in after
      ensures now < t.expire
    {
      assert t in multiset(after);
      assert t in NotDue(before, now) || t in PutBack(ran, now);
      assert !IsDue(t, now);
    }
  }

  lemma RanWereDue(before: seq<Timer>, now: int, ran: seq<Timer>)
    requires multiset(ran) == multiset(Due(before, now))
    ensures forall i :: 0 <= i < |ran| ==> IsDue(ran[i], now)
  {
    DueSplits(before, now);
    hide Due, NotDue, IsDue;
    forall i | 0 <= i < |ran|
      ensures IsDue(ran[i], now)
    {
      assert ran[i] in multiset(ran);
      assert ran[i] in Due(before, now);
    }
  }

  // ------------------------------------------------------- the kernel timer

  datatype Kernel = Disarmed | Armed(sec: int, nsec: int) | Refused

  /** C++ integer division truncates toward zero. */
  function Truncated(a: int, b: int): int
    requires b > 0
  {
    if a >= 0 then a / b else -((-a) / b)
  }

  /** timerfd_settime: an all-zero value disarms, a part out of range is refused. */
  function SetTime(sec: int, nsec: int): Kernel {
    if sec < 0 || nsec < 0 || nsec >= NANOS_PER_SECOND then Refused
    else if sec == 0 && nsec == 0 then Disarmed
    else Armed(sec, nsec)
  }

  function KernelFor(deadline: int): Kernel {
    var sec := Truncated(deadline, NANOS_PER_SECOND);
    SetTime(sec, deadline - sec * NANOS_PER_SECOND)
  }

  /** The split recombines exactly, and arms the timer at the deadline if and only if the
      deadline is after the clock's epoch; at the epoch it would disarm it. */
  lemma SplitRecombines(deadline: int)
    ensures deadline > 0 <==> KernelFor(deadline).Armed?
    ensures deadline == 0 <==> KernelFor(deadline) == Disarmed
    ensures var k := KernelFor(deadline);
            k.Armed? ==> k.sec * 1_000_000_000 + k.nsec == deadline && 0 <= k.nsec < 1_000_000_000
  {
  }

  predicate IsTop(ts: seq<Timer>, i: nat) {
    i < |ts| && forall j :: 0 <= j < |ts| ==> ts[i].expire <= ts[j].expire
  }

  /** What the kernel timer must show for a heap. */
  ghost predicate ArmedFor(ts: seq<Timer>, kernel: Kernel) {
    if ts == [] then kernel == Disarmed
    else exists i: nat :: IsTop(ts, i) && kernel == KernelFor(ts[i].expire)
  }

  /** So a queue's kernel timer is armed at the earliest deadline if and only if that is after
      the clock's epoch; at the epoch the timer is disarmed, before it refused. */
  lemma ArmedAtTheTop(ts: seq<Timer>, kernel: Kernel, i: nat)
    requires ArmedFor(ts, kernel) && IsTop(ts, i)
    ensures kernel.Armed? <==> ts[i].expire > 0
    ensures kernel == Disarmed <==> ts[i].expire == 0
    ensures kernel.Armed? ==>
              kernel.sec * 1_000_000_000 + kernel.nsec == ts[i].expire && 0 <= kernel.nsec < 1_000_000_000
  {
    var j: nat :| IsTop(ts, j) && kernel == KernelFor(ts[j].expire);
    assert ts[i].expire <= ts[j].expire <= ts[i].expire;
    SplitRecombines(ts[i].expire);
    hide KernelFor;
  }

  /** A timer added with a negative delay that reaches back to the epoch, alone in its queue:
      it is due, and the kernel timer is disarmed. */
  lemma EpochTimerIsNotArmed(milliseconds: int, callback: nat, kernel: Kernel)
    requires milliseconds <= 0 && ArmedFor([NewTimer(-Period(milliseconds), milliseconds, callback, false)], kernel)
    ensures kernel == Disarmed && IsDue(NewTimer(-Period(milliseconds), milliseconds, callback, false), 0)
  {
    var ts := [NewTimer(-Period(milliseconds), milliseconds, callback, false)];
    assert ts[0].expire == 0;
    ArmedAtTheTop(ts, kernel, 0);
  }

  lemma {:induction false} TopExists(ts: seq<Timer>) returns (i: nat)
    requires ts != []
    ensures IsTop(ts, i)
  {
    if |ts| == 1 {
      i := 0;
    } else {
      var j := TopExists(ts[1..]);
      i := if ts[0].expire <= ts[1..][j].expire then 0 else j + 1;
      assert forall k :: 1 <= k < |ts| ==> ts[k] == ts[1..][k - 1];
    }
  }

  // -------------------------------------------------------------- the queue

  class TimerQueue {
    var timers: seq<Timer>     // the heap, in no particular order
    var kernel: Kernel

    constructor ()
      ensures timers == [] && kernel == Disarmed
    {
      timers, kernel := [], Disarmed;
    }

    /** top(): one of the earliest, whichever the heap holds on top. */
    method Top() returns (i: nat)
      requires timers != []
      ensures IsTop(timers, i)
    {
      ghost var witness' := TopExists(timers);
      i :| 0 <= i < |timers| && IsTop(timers, i);
    }

    method Pop(i: nat)
      requires i < |timers|
      modifies `timers
      ensures timers == old(timers[..i] + timers[i + 1..])
    {
      timers := timers[..i] + timers[i + 1..];
    }

    method Push(node: Timer)
      modifies `timers
      ensures timers == old(timers) + [node]
    {
      timers := timers + [node];
    }

    method ResetTimerFd()
      modifies `kernel
      ensures ArmedFor(timers, kernel)
    {
      if timers == [] {
        kernel := Disarmed;
        return;
      }
      var top := Top();
      var expireTime := timers[top].expire;
      var sec := Truncated(expireTime, NANOS_PER_SECOND);
      var nsec := expireTime - sec * NANOS_PER_SECOND;
      kernel := SetTime(sec, nsec);
      assert kernel == KernelFor(timers[top].expire);
    }

    method AddTimerInLoop(now: int, milliseconds: int, callback: nat, repeat: bool)
      modifies this
      ensures timers == old(timers) + [NewTimer(now, milliseconds, callback, repeat)]
      ensures timers[|timers| - 1].expire == now + milliseconds * 1_000_000
      ensures ArmedFor(timers, kernel)
    {
      var expire := now + Period(milliseconds);
      Push(Timer(expire, if repeat then milliseconds else 0, callback));
      ResetTimerFd();
    }

    /** handleRead up to the callbacks; `ran` lists the nodes popped, `toRun` their callbacks. */
    method HandleRead(now: int, readOk: bool) returns (toRun: seq<nat>, ghost ran: seq<Timer>)
      modifies this
      ensures !readOk ==> timers == old(timers) && kernel == old(kernel) && toRun == []
      ensures readOk ==> IsSweep(old(timers), now, timers, ran) && ArmedFor(timers, kernel)
      ensures |toRun| == |ran| && forall i :: 0 <= i < |ran| ==> toRun[i] == ran[i].callback
    {
      toRun, ran := [], [];
      assert toRun == Callbacks(ran);
      if !readOk {
        return;
      }
      hide *;
      ghost var rest := multiset(Due(timers, now));
      SweepBegins(timers, now);
      while timers != []
        invariant Swept(old(timers), now, timers, ran, rest)
        invariant toRun == Callbacks(ran)
        invariant kernel == old(kernel)
        decreases |rest|
      {
        var more, node := SweepOne(now, old(timers), ran, rest);
        if !more {
          break;
        }
        CallbacksSnoc(ran, node);
        rest := rest - multiset{node};
        ran := ran + [node];
        toRun := toRun + [node.callback];
      }
      if timers == [] {
        SweepEnds(old(timers), now, timers, ran, rest);
      }
      CallbacksAre(ran);
      ResetTimerFd();
    }

    /** One turn of the sweep: the top of the heap, when it is due, is popped, and pushed
        back with its next deadline when it repeats. */
    method SweepOne(now: int, ghost before: seq<Timer>, ghost ran: seq<Timer>, ghost rest: multiset<Timer>)
      returns (more: bool, popped: Timer)
      requires timers != [] && Swept(before, now, timers, ran, rest)
      modifies `timers
      ensures more ==> |rest - multiset{popped}| < |rest|
      ensures more ==> Swept(before, now, timers, ran + [popped], rest - multiset{popped})
      ensures !more ==> timers == old(timers) && IsSweep(before, now, timers, ran)
    {
      hide Swept, IsSweep, IsTop;
      var top := Top();
      TopIsIndex(timers, top);
      popped := timers[top];
      if popped.expire > now {
        SweepEnds(before, now, timers, ran, rest);
        return false, popped;
      }
      SweepGoesOn(before, now, timers, ran, rest, top);
      Pop(top);
      if popped.intervalMs > 0 {
        var missed := (now - popped.expire) / Period(popped.intervalMs);
        var node := popped.(expire := popped.expire + (missed + 1) * Period(popped.intervalMs));
        Push(node);
      }
      more := true;
    }
  }

  function Callbacks(ran: seq<Timer>): (r: seq<nat>)
    ensures |r| == |ran|
  {
    seq(|ran|, i requires 0 <= i < |ran| => ran[i].callback)
  }

  lemma CallbacksAre(ran: seq<Timer>)
    ensures |Callbacks(ran)| == |ran| && forall i :: 0 <= i < |ran| ==> Callbacks(ran)[i] == ran[i].callback
  {
  }

  lemma CallbacksSnoc(ran: seq<Timer>, t: Timer)
    ensures Callbacks(ran + [t]) == Callbacks(ran) + [t.callback]
  {
  }

  lemma TopIsIndex(ts: seq<Timer>, i: nat)
    requires IsTop(ts, i)
    ensures i < |ts|
  {
  }

  /** A sweep in progress: `ran` have run, `rest` are due and still in the heap. */
  ghost predicate Swept(before: seq<Timer>, now: int, ts: seq<Timer>, ran: seq<Timer>, rest: multiset<Timer>) {
    && multiset(ran) + rest == multiset(Due(before, now))
    && multiset(ts) == multiset(NotDue(before, now)) + rest + multiset(PutBack(ran, now))
    && SweptInOrder(now, ran, rest)
  }

  ghost predicate SweptInOrder(now: int, ran: seq<Timer>, rest: multiset<Timer>) {
    && InOrder(ran)
    && (forall i, t :: 0 <= i < |ran| && t in rest ==> ran[i].expire <= t.expire)
    && (forall i :: 0 <= i < |ran| ==> IsDue(ran[i], now))
    && (forall t :: t in rest ==> IsDue(t, now))
  }

  lemma SweepBegins(ts: seq<Timer>, now: int)
    ensures Swept(ts, now, ts, [], multiset(Due(ts, now)))
  {
    DueSplits(ts, now);
  }

  /** The top of the heap, if it is due, is one of the timers still to run. */
  lemma DueTopIsNext(before: seq<Timer>, now: int, ts: seq<Timer>, ran: seq<Timer>, rest: multiset<Timer>, top: nat)
    requires Swept(before, now, ts, ran, rest) && IsTop(ts, top) && IsDue(ts[top], now)
    ensures ts[top] in rest && forall t :: t in rest ==> ts[top].expire <= t.expire
  {
    DueSplits(before, now);
    PutBackIsLater(ran, now);
    assert ts[top] in multiset(ts);
    forall t | t in rest
      ensures ts[top].expire <= t.expire
    {
      assert t in multiset(ts);
      assert t in ts;
    }
  }

  lemma OrderGoesOn(now: int, ran: seq<Timer>, rest: multiset<Timer>, node: Timer)
    requires SweptInOrder(now, ran, rest) && node in rest && forall t :: t in rest ==> node.expire <= t.expire
    ensures SweptInOrder(now, ran + [node], rest - multiset{node})
  {
  }

  lemma SweepGoesOn(before: seq<Timer>, now: int, ts: seq<Timer>, ran: seq<Timer>, rest: multiset<Timer>, top: nat)
    requires Swept(before, now, ts, ran, rest) && top < |ts| && IsTop(ts, top) && IsDue(ts[top], now)
    ensures var node := ts[top];
            var popped := ts[..top] + ts[top + 1..];
            && |rest - multiset{node}| < |rest|
            && Swept(before, now, if Repeats(node) then popped + [Renewed(node, now)] else popped,
                     ran + [node], rest - multiset{node})
  {
    hide Renewed, IsTop, Due, NotDue, PutBack, SweptInOrder, IsDue;
    DueTopIsNext(before, now, ts, ran, rest, top);
    OrderGoesOn(now, ran, rest, ts[top]);
    RanGoesOn(ran, rest, ts[top]);
    HeapGoesOn(ts, top, now, ran, rest, multiset(NotDue(before, now)));
  }

  lemma RanGoesOn(ran: seq<Timer>, rest: multiset<Timer>, node: Timer)
    requires node in rest
    ensures multiset(ran + [node]) + (rest - multiset{node}) == multiset(ran) + rest
    ensures |rest - multiset{node}| < |rest|
  {
  }

  lemma HeapGoesOn(ts: seq<Timer>, top: nat, now: int, ran: seq<Timer>, rest: multiset<Timer>, others: multiset<Timer>)
    requires top < |ts| && ts[top] in rest
    requires multiset(ts) == others + rest + multiset(PutBack(ran, now))
    ensures var node := ts[top];
            var popped := ts[..top] + ts[top + 1..];
            multiset(if Repeats(node) then popped + [Renewed(node, now)] else popped)
            == others + (rest - multiset{node}) + multiset(PutBack(ran + [node], now))
  {
    hide Renewed, PutBack;
    var node := ts[top];
    var popped := ts[..top] + ts[top + 1..];
    PopTop(ts, top);
    Cancel(multiset(popped), multiset{node}, others, rest, multiset(PutBack(ran, now)));
    PutBackSnoc(ran, node, now);
    var back := PutBack(ran, now);
    assert PutBack(ran + [node], now) == back + (if Repeats(node) then [Renewed(node, now)] else []);
    if Repeats(node) {
      assert multiset(popped + [Renewed(node, now)]) == multiset(popped) + multiset{Renewed(node, now)};
      assert multiset(back + [Renewed(node, now)]) == multiset(back) + multiset{Renewed(node, now)};
    } else {
      assert back + [] == back;
    }
  }

  lemma Cancel(a: multiset<Timer>, x: multiset<Timer>, b: multiset<Timer>, c: multiset<Timer>, d: multiset<Timer>)
    requires a + x == b + c + d && x <= c
    ensures a == b + (c - x) + d
  {
    forall t
      ensures a[t] == (b + (c - x) + d)[t]
    {
      assert (a + x)[t] == (b + c + d)[t];
    }
  }

  lemma PopTop(ts: seq<Timer>, i: nat)
    requires i < |ts|
    ensures multiset(ts) == multiset(ts[..i] + ts[i + 1..]) + multiset{ts[i]}
  {
    assert ts == ts[..i] + [ts[i]] + ts[i + 1..];
  }

  lemma RestIsLater(ts: seq<Timer>, i: nat, rest: multiset<Timer>, now: int)
    requires IsTop(ts, i) && !IsDue(ts[i], now) && rest <= multiset(ts)
    ensures forall t :: t in rest ==> !IsDue(t, now)
  {
    forall t | t in rest
      ensures !IsDue(t, now)
    {
      assert t in multiset(ts);
      assert t in ts;
    }
  }

  lemma SweepEnds(before: seq<Timer>, now: int, ts: seq<Timer>, ran: seq<Timer>, rest: multiset<Timer>)
    requires Swept(before, now, ts, ran, rest)
    requires ts == [] || exists i: nat :: IsTop(ts, i) && !IsDue(ts[i], now)
    ensures IsSweep(before, now, ts, ran)
  {
    if ts != [] {
      var i: nat :| IsTop(ts, i) && !IsDue(ts[i], now);
      RestIsLater(ts, i, rest, now);
    } else {
      assert |multiset(ts)| == 0;
    }
    assert rest == multiset{};
  }
}
