/** Whole runs of the timer queue: any sequence of adds and sweeps under a clock that
    does not go back, with callbacks numbered as they are added. */
module TimerRuns {
  import opened Basics
  import opened TimerQueues

  /** One callback run: which, for which deadline, and when. */
  datatype Fire = Fire(callback: nat, slot: int, at: int)

  datatype State = State(timers: seq<Timer>, clock: int, fires: seq<Fire>, used: set<nat>)

  datatype Event =
    | Add(now: int, milliseconds: int, callback: nat, repeat: bool)
    | Sweep(now: int, after: seq<Timer>, ran: seq<Timer>)   // a sweep, as HandleRead guarantees it

  ghost predicate Possible(s: State, e: Event) {
    match e
    case Add(now, ms, c, repeat) => s.clock <= now && c !in s.used
    case Sweep(now, after, ran) => s.clock <= now && IsSweep(s.timers, now, after, ran)
  }

  function FiresFrom(ran: seq<Timer>, now: int): seq<Fire> {
    if ran == [] then [] else [Fire(ran[0].callback, ran[0].expire, now)] + FiresFrom(ran[1..], now)
  }

  ghost function Step(s: State, e: Event): State
    requires Possible(s, e)
  {
    match e
    case Add(now, ms, c, repeat) =>
      State(s.timers + [NewTimer(now, ms, c, repeat)], now, s.fires, s.used + {c})
    case Sweep(now, after, ran) =>
      State(after, now, s.fires + FiresFrom(ran, now), s.used)
  }

  ghost predicate IsRun(s: State, run: seq<Event>)
    decreases |run|
  {
    run == [] || (Possible(s, run[0]) && IsRun(Step(s, run[0]), run[1..]))
  }

  ghost function After(s: State, run: seq<Event>): State
    requires IsRun(s, run)
    decreases |run|
  {
    if run == [] then s else After(Step(s, run[0]), run[1..])
  }

  // --------------------------------------------------- one callback at a time

  function Of(ts: seq<Timer>, c: nat): seq<Timer> {
    if ts == [] then []
    else if ts[0].callback == c then [ts[0]] + Of(ts[1..], c)
    else Of(ts[1..], c)
  }

  function FiresOf(fires: seq<Fire>, c: nat): seq<Fire> {
    if fires == [] then []
    else if fires[0].callback == c then [fires[0]] + FiresOf(fires[1..], c)
    else FiresOf(fires[1..], c)
  }

  lemma {:induction false} OfAppend(a: seq<Timer>, b: seq<Timer>, c: nat)
    ensures Of(a + b, c) == Of(a, c) + Of(b, c)
  {
    if a == [] {
      assert a + b == b;
    } else {
      assert (a + b)[1..] == a[1..] + b;
      OfAppend(a[1..], b, c);
    }
  }

  lemma {:induction false} FiresOfAppend(a: seq<Fire>, b: seq<Fire>, c: nat)
    ensures FiresOf(a + b, c) == FiresOf(a, c) + FiresOf(b, c)
  {
    if a == [] {
      assert a + b == b;
    } else {
      assert (a + b)[1..] == a[1..] + b;
      FiresOfAppend(a[1..], b, c);
    }
  }

  lemma {:induction false} OfCount(ts: seq<Timer>, c: nat, t: Timer)
    ensures multiset(Of(ts, c))[t] == if t.callback == c then multiset(ts)[t] else 0
  {
    if ts == [] {
    } else {
      OfCount(ts[1..], c, t);
      assert ts == [ts[0]] + ts[1..];
    }
  }

  lemma OfSameMultiset(a: seq<Timer>, b: seq<Timer>, c: nat)
    requires multiset(a) == multiset(b)
    ensures multiset(Of(a, c)) == multiset(Of(b, c))
  {
    forall t: Timer
      ensures multiset(Of(a, c))[t] == multiset(Of(b, c))[t]
    {
      OfCount(a, c, t);
      OfCount(b, c, t);
    }
  }

  /** The three list functions, one element at a time. */
  lemma Cons(t: Timer, rest: seq<Timer>, now: int, c: nat)
    ensures Of([t] + rest, c) == if t.callback == c then [t] + Of(rest, c) else Of(rest, c)
    ensures Due([t] + rest, now) == if IsDue(t, now) then [t] + Due(rest, now) else Due(rest, now)
    ensures NotDue([t] + rest, now) == if IsDue(t, now) then NotDue(rest, now) else [t] + NotDue(rest, now)
    ensures PutBack([t] + rest, now) == Back(t, now) + PutBack(rest, now)
  {
    assert ([t] + rest)[1..] == rest;
  }

  lemma {:induction false} OfDue(ts: seq<Timer>, now: int, c: nat)
    ensures Of(Due(ts, now), c) == Due(Of(ts, c), now)
    ensures Of(NotDue(ts, now), c) == NotDue(Of(ts, c), now)
  {
    if ts == [] {
    } else {
      OfDue(ts[1..], now, c);
      Cons(ts[0], Of(ts[1..], c), now, c);
      Cons(ts[0], Due(ts[1..], now), now, c);
      Cons(ts[0], NotDue(ts[1..], now), now, c);
    }
  }

  lemma {:induction false} OfPutBack(ran: seq<Timer>, now: int, c: nat)
    ensures Of(PutBack(ran, now), c) == PutBack(Of(ran, c), now)
  {
    if ran == [] {
    } else {
      hide Back;
      OfPutBack(ran[1..], now, c);
      OfAppend(Back(ran[0], now), PutBack(ran[1..], now), c);
      OfBack(ran[0], now, c);
      Cons(ran[0], Of(ran[1..], c), now, c);
    }
  }

  lemma OfBack(t: Timer, now: int, c: nat)
    ensures Of(Back(t, now), c) == if t.callback == c then Back(t, now) else []
  {
    if Repeats(t) {
      assert Back(t, now)[1..] == [];
    }
  }

  lemma RenewedKeepsCallback(t: Timer, now: int)
    ensures Repeats(t) ==> Renewed(t, now).callback == t.callback && Renewed(t, now).intervalMs == t.intervalMs
  {
  }

  lemma {:induction false} OfFires(ran: seq<Timer>, now: int, c: nat)
    ensures FiresOf(FiresFrom(ran, now), c) == FiresFrom(Of(ran, c), now)
  {
    if ran == [] {
    } else {
      OfFires(ran[1..], now, c);
      assert FiresFrom(ran, now)[1..] == FiresFrom(ran[1..], now);
      if ran[0].callback == c {
        assert Of(ran, c)[1..] == Of(ran[1..], c);
      }
    }
  }

  lemma OneElement(ts: seq<Timer>, t: Timer)
    requires multiset(ts) == multiset{t}
    ensures ts == [t]
  {
    assert |multiset(ts)| == 1;
    assert ts[0] in multiset(ts);
  }

  lemma NoElement(ts: seq<Timer>)
    requires multiset(ts) == multiset{}
    ensures ts == []
  {
    assert |multiset(ts)| == 0;
  }

  /** What a sweep does to the one timer of a callback. */
  lemma SweepOf(before: seq<Timer>, now: int, after: seq<Timer>, ran: seq<Timer>, c: nat)
    requires IsSweep(before, now, after, ran)
    ensures multiset(Of(ran, c)) == multiset(Due(Of(before, c), now))
    ensures multiset(Of(after, c)) == multiset(NotDue(Of(before, c), now)) + multiset(PutBack(Of(ran, c), now))
  {
    OfSameMultiset(ran, Due(before, now), c);
    OfDue(before, now, c);
    OfSameMultiset(after, NotDue(before, now) + PutBack(ran, now), c);
    OfAppend(NotDue(before, now), PutBack(ran, now), c);
    OfPutBack(ran, now, c);
  }

  lemma SweepOfOne(before: seq<Timer>, now: int, after: seq<Timer>, ran: seq<Timer>, t: Timer)
    requires IsSweep(before, now, after, ran) && Of(before, t.callback) == [t]
    ensures t.expire <= now ==> Of(ran, t.callback) == [t] && Of(after, t.callback) == Back(t, now)
    ensures now < t.expire ==> Of(ran, t.callback) == [] && Of(after, t.callback) == [t]
  {
    hide IsSweep, Of, Renewed;
    var c := t.callback;
    SweepOf(before, now, after, ran, c);
    assert [t][1..] == [];
    assert Due([t], now) == if IsDue(t, now) then [t] else [];
    assert NotDue([t], now) == if IsDue(t, now) then [] else [t];
    if IsDue(t, now) {
      OneElement(Of(ran, c), t);
      assert PutBack([t], now) == Back(t, now);
      if Repeats(t) {
        OneElement(Of(after, c), Renewed(t, now));
      } else {
        NoElement(Of(after, c));
      }
    } else {
      NoElement(Of(ran, c));
      OneElement(Of(after, c), t);
    }
  }

  // --------------------------------------------------------- periodic timers

  function SlotAt(start: int, period: int, turn: int): int { start + turn * period }

  /** Deadlines of a timer added at `start` with this period. */
  ghost predicate IsSlot(slot: int, start: int, period: int) {
    exists turn :: turn >= 1 && slot == SlotAt(start, period, turn)
  }

  /** One callback per slot, in order, none before its slot, all before `limit`. */
  ghost predicate OnSchedule(fires: seq<Fire>, start: int, period: int, limit: int) {
    && (forall i :: 0 <= i < |fires| ==>
          IsSlot(fires[i].slot, start, period) && fires[i].slot <= fires[i].at && fires[i].slot < limit)
    && (forall i, j :: 0 <= i < j < |fires| ==> fires[i].slot < fires[j].slot)
  }

  /** A periodic timer in mid-run: it waits for its `turn`-th slot. */
  ghost predicate PeriodicLaw(s: State, c: nat, start: int, intervalMs: int, turn: int) {
    && intervalMs > 0 && turn >= 1 && c in s.used
    && Of(s.timers, c) == [Timer(SlotAt(start, Period(intervalMs), turn), intervalMs, c)]
    && SlotAt(start, Period(intervalMs), turn - 1) <= s.clock
    && OnSchedule(FiresOf(s.fires, c), start, Period(intervalMs), SlotAt(start, Period(intervalMs), turn))
    && |FiresOf(s.fires, c)| <= turn - 1
  }

  lemma ScheduleGrows(fires: seq<Fire>, start: int, period: int, limit: int, slot: int, now: int, limit': int)
    requires OnSchedule(fires, start, period, limit)
    requires IsSlot(slot, start, period) && slot == limit && slot <= now && slot < limit'
    ensures OnSchedule(fires + [Fire(0, slot, now)], start, period, limit')
  {
  }

  lemma ScheduleIgnoresCallback(fires: seq<Fire>, last: Fire, start: int, period: int, limit: int)
    requires OnSchedule(fires + [last.(callback := 0)], start, period, limit)
    ensures OnSchedule(fires + [last], start, period, limit)
  {
    var a := fires + [last.(callback := 0)];
    var b := fires + [last];
    assert forall i :: 0 <= i < |b| ==> b[i].slot == a[i].slot && b[i].at == a[i].at;
  }

  lemma PeriodicSweep(s: State, now: int, after: seq<Timer>, ran: seq<Timer>,
                      c: nat, start: int, intervalMs: int, turn: int) returns (turn': int)
    requires PeriodicLaw(s, c, start, intervalMs, turn) && Possible(s, Sweep(now, after, ran))
    ensures PeriodicLaw(Step(s, Sweep(now, after, ran)), c, start, intervalMs, turn')
    ensures turn' >= turn && now < SlotAt(start, Period(intervalMs), turn')
  {
    hide IsSweep, OnSchedule, Renewed;
    var p := Period(intervalMs);
    var t := Timer(SlotAt(start, p, turn), intervalMs, c);
    SweepOfOne(s.timers, now, after, ran, t);
    FiresOfAppend(s.fires, FiresFrom(ran, now), c);
    OfFires(ran, now, c);
    if IsDue(t, now) {
      var steps := RenewedOnSchedule(t, now);
      RenewedKeepsCallback(t, now);
      turn' := turn + steps;
      TurnsAdd(start, p, turn, steps);
      assert Renewed(t, now) == Timer(SlotAt(start, p, turn'), intervalMs, c);
      assert [t][1..] == [];
      assert FiresFrom([t], now) == [Fire(c, t.expire, now)];
      ScheduleGrows(FiresOf(s.fires, c), start, p, t.expire, t.expire, now, SlotAt(start, p, turn'));
      ScheduleIgnoresCallback(FiresOf(s.fires, c), Fire(c, t.expire, now), start, p, SlotAt(start, p, turn'));
    } else {
      turn' := turn;
      assert FiresOf(s.fires, c) + [] == FiresOf(s.fires, c);
    }
  }

  lemma TurnsAdd(start: int, period: int, turn: int, steps: int)
    ensures SlotAt(start, period, turn) + steps * period == SlotAt(start, period, turn + steps)
    ensures SlotAt(start, period, turn + steps - 1) == SlotAt(start, period, turn + steps) - period
  {
  }

  lemma PeriodicStep(s: State, e: Event, c: nat, start: int, intervalMs: int, turn: int) returns (turn': int)
    requires PeriodicLaw(s, c, start, intervalMs, turn) && Possible(s, e)
    ensures PeriodicLaw(Step(s, e), c, start, intervalMs, turn') && turn' >= turn
    ensures e.Sweep? ==> e.now < SlotAt(start, Period(intervalMs), turn')
  {
    match e
    case Add(now, ms, other, repeat) =>
      turn' := turn;
      OfAppend(s.timers, [NewTimer(now, ms, other, repeat)], c);
      assert [NewTimer(now, ms, other, repeat)][1..] == [];
    case Sweep(now, after, ran) =>
      turn' := PeriodicSweep(s, now, after, ran, c, start, intervalMs, turn);
  }

  lemma {:induction false} PeriodicRun(s: State, run: seq<Event>, c: nat, start: int, intervalMs: int, turn: int)
    returns (turn': int)
    requires PeriodicLaw(s, c, start, intervalMs, turn) && IsRun(s, run)
    ensures PeriodicLaw(After(s, run), c, start, intervalMs, turn') && turn' >= turn
    ensures intervalMs > 0 ==> SweptBefore(run, SlotAt(start, Period(intervalMs), turn'))
    decreases |run|
  {
    turn' := turn;
    if run == [] {
    } else {
      hide PeriodicLaw, SweptBefore;
      var next := PeriodicStep(s, run[0], c, start, intervalMs, turn);
      turn' := PeriodicRun(Step(s, run[0]), run[1..], c, start, intervalMs, next);
      if intervalMs > 0 {
        MultiplesOrdered(next, turn', Period(intervalMs));
        SweptBeforeFirst(run, SlotAt(start, Period(intervalMs), turn'));
      }
    }
  }

  /** Every sweep of the run came before this time. */
  predicate SweptBefore(run: seq<Event>, time: int) {
    forall i :: 0 <= i < |run| && run[i].Sweep? ==> run[i].now < time
  }

  lemma SweptBeforeFirst(run: seq<Event>, time: int)
    requires run != []
    ensures SweptBefore(run, time) <==> (run[0].Sweep? ==> run[0].now < time) && SweptBefore(run[1..], time)
  {
    assert forall i :: 1 <= i < |run| ==> run[i] == run[1..][i - 1];
    assert forall i :: 0 <= i < |run[1..]| ==> run[1..][i] == run[i + 1];
  }

  lemma MultiplesOrdered(a: int, b: int, p: int)
    requires a <= b && p > 0
    ensures a * p <= b * p
  {
  }

  lemma QuotientBound(k: int, a: int, p: int)
    requires p > 0 && k * p <= a
    ensures k <= a / p
  {
    DivisionBounds(a, p);
    if a / p + 1 <= k {
      MultiplesOrdered(a / p + 1, k, p);
    }
  }

  /** A callback nothing has been added for: neither waiting nor run. */
  ghost predicate Unused(s: State, c: nat) { Of(s.timers, c) == [] && FiresOf(s.fires, c) == [] }

  /** A periodic timer added at `start`: whatever is added and swept afterwards, it has run
      only for deadlines start + k * period, for each at most once and in order, never
      before the deadline; it has run at most floor((now - start) / period) times; and it
      waits, once, for a later deadline of the same form, which lies beyond every sweep made
      and at most one period ahead. */
  lemma PeriodicTimerLaw(s: State, start: int, intervalMs: int, c: nat, run: seq<Event>)
    requires intervalMs > 0 && Unused(s, c) && Possible(s, Add(start, intervalMs, c, true))
    requires IsRun(Step(s, Add(start, intervalMs, c, true)), run)
    ensures var n := After(Step(s, Add(start, intervalMs, c, true)), run);
            var p := intervalMs * 1_000_000;
            && |Of(n.timers, c)| == 1 && IsSlot(Of(n.timers, c)[0].expire, start, p)
            && Of(n.timers, c)[0].expire <= n.clock + p && SweptBefore(run, Of(n.timers, c)[0].expire)
            && OnSchedule(FiresOf(n.fires, c), start, p, Of(n.timers, c)[0].expire)
            && |FiresOf(n.fires, c)| <= (n.clock - start) / p
  {
    var added := Step(s, Add(start, intervalMs, c, true));
    PeriodicBegins(s, start, intervalMs, c);
    var turn := PeriodicRun(added, run, c, start, intervalMs, 1);
    PeriodicMeans(After(added, run), c, start, intervalMs, turn);
  }

  lemma PeriodicBegins(s: State, start: int, intervalMs: int, c: nat)
    requires intervalMs > 0 && Unused(s, c) && Possible(s, Add(start, intervalMs, c, true))
    ensures PeriodicLaw(Step(s, Add(start, intervalMs, c, true)), c, start, intervalMs, 1)
  {
    OfAppend(s.timers, [NewTimer(start, intervalMs, c, true)], c);
    assert [NewTimer(start, intervalMs, c, true)][1..] == [];
  }

  lemma PeriodicMeans(n: State, c: nat, start: int, intervalMs: int, turn: int)
    requires PeriodicLaw(n, c, start, intervalMs, turn)
    ensures var p := intervalMs * 1_000_000;
            && |Of(n.timers, c)| == 1 && IsSlot(Of(n.timers, c)[0].expire, start, p)
            && Of(n.timers, c)[0].expire == SlotAt(start, p, turn) <= n.clock + p
            && OnSchedule(FiresOf(n.fires, c), start, p, Of(n.timers, c)[0].expire)
            && |FiresOf(n.fires, c)| <= (n.clock - start) / p
  {
    hide Of, FiresOf, OnSchedule;
    QuotientBound(turn - 1, n.clock - start, Period(intervalMs));
  }

  // --------------------------------------------------------- one-shot timers

  /** Waiting and not run, or run once, in time, and gone. */
  ghost predicate OneShotLaw(s: State, t: Timer) {
    && t.callback in s.used && !Repeats(t)
    && ( || (Of(s.timers, t.callback) == [t] && FiresOf(s.fires, t.callback) == [])
         || (Of(s.timers, t.callback) == [] && |FiresOf(s.fires, t.callback)| == 1
             && FiresOf(s.fires, t.callback)[0].slot == t.expire <= FiresOf(s.fires, t.callback)[0].at))
  }

  lemma OneShotSweep(s: State, now: int, after: seq<Timer>, ran: seq<Timer>, t: Timer)
    requires OneShotLaw(s, t) && Possible(s, Sweep(now, after, ran))
    ensures OneShotLaw(Step(s, Sweep(now, after, ran)), t)
  {
    hide IsSweep, Of, FiresOf;
    var c := t.callback;
    FiresOfAppend(s.fires, FiresFrom(ran, now), c);
    OfFires(ran, now, c);
    if Of(s.timers, c) == [t] {
      SweepOfOne(s.timers, now, after, ran, t);
      assert FiresFrom([t], now) == [Fire(c, t.expire, now)] + FiresFrom([t][1..], now);
    } else {
      SweepOf(s.timers, now, after, ran, c);
      NoElement(Of(ran, c));
      NoElement(Of(after, c));
    }
  }

  lemma OneShotSweepRuns(s: State, now: int, after: seq<Timer>, ran: seq<Timer>, t: Timer)
    requires OneShotLaw(s, t) && Possible(s, Sweep(now, after, ran))
    ensures Of(Step(s, Sweep(now, after, ran)).timers, t.callback) == [t]
            <==> Of(s.timers, t.callback) == [t] && now < t.expire
  {
    hide IsSweep, Of, FiresOf;
    if Of(s.timers, t.callback) == [t] {
      SweepOfOne(s.timers, now, after, ran, t);
    } else {
      SweepOf(s.timers, now, after, ran, t.callback);
      NoElement(Of(ran, t.callback));
      NoElement(Of(after, t.callback));
    }
  }

  lemma OneShotStep(s: State, e: Event, t: Timer)
    requires OneShotLaw(s, t) && Possible(s, e)
    ensures OneShotLaw(Step(s, e), t)
    ensures Of(Step(s, e).timers, t.callback) == [t]
            <==> Of(s.timers, t.callback) == [t] && (e.Sweep? ==> e.now < t.expire)
  {
    match e
    case Add(now, ms, other, repeat) =>
      OfAppend(s.timers, [NewTimer(now, ms, other, repeat)], t.callback);
      assert [NewTimer(now, ms, other, repeat)][1..] == [];
    case Sweep(now, after, ran) =>
      OneShotSweep(s, now, after, ran, t);
      OneShotSweepRuns(s, now, after, ran, t);
  }

  /** A timer that does not repeat runs at most once, never early, and exactly while it
      has not run is it waiting. */
  lemma {:induction false} OneShotRun(s: State, t: Timer, run: seq<Event>)
    requires OneShotLaw(s, t) && IsRun(s, run)
    ensures OneShotLaw(After(s, run), t)
    ensures Of(After(s, run).timers, t.callback) == [t]
            <==> Of(s.timers, t.callback) == [t] && SweptBefore(run, t.expire)
    decreases |run|
  {
    if run == [] {
    } else {
      hide OneShotLaw, Of, SweptBefore;
      OneShotStep(s, run[0], t);
      OneShotRun(Step(s, run[0]), t, run[1..]);
      SweptBeforeFirst(run, t.expire);
    }
  }

  /** It runs once, at the first sweep that is not before its deadline. */
  lemma OneShotTimerLaw(s: State, now: int, milliseconds: int, c: nat, repeat: bool, run: seq<Event>)
    requires (!repeat || milliseconds <= 0) && Unused(s, c) && Possible(s, Add(now, milliseconds, c, repeat))
    requires IsRun(Step(s, Add(now, milliseconds, c, repeat)), run)
    ensures var n := After(Step(s, Add(now, milliseconds, c, repeat)), run);
            var deadline := now + milliseconds * 1_000_000;
            && |FiresOf(n.fires, c)| + |Of(n.timers, c)| == 1
            && (FiresOf(n.fires, c) == [] <==> SweptBefore(run, deadline))
            && (FiresOf(n.fires, c) != [] ==> FiresOf(n.fires, c)[0].slot == deadline <= FiresOf(n.fires, c)[0].at)
  {
    var t := NewTimer(now, milliseconds, c, repeat);
    OfAppend(s.timers, [t], c);
    assert [t][1..] == [];
    OneShotRun(Step(s, Add(now, milliseconds, c, repeat)), t, run);
  }
}
