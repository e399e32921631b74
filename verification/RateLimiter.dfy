/** The fixed-window rate limiter over Redis counters. Calls are taken one at a time
    against a working Redis, under a clock that does not go back. */
module RateLimiters {
  import opened Basics
  import opened RedisStore

  function CountKey(key: string): string { "rate_limit:" + key }

  /** isAllowed: count the request; the first one of a window sets its end. */
  function Request<J>(s: Store<J>, key: string, limit: int, period: int, now: int): (Store<J>, bool) {
    var (counted, count) := Incr(s, CountKey(key), now);
    (if count == 1 then Expire(counted, CountKey(key), period, now) else counted, count <= limit)
  }

  // ------------------------------------------------------- one key's window

  /** The open window of a key: how many requests it has counted, and its end. */
  datatype Window = Window(count: int, end: int)

  function WindowOf<J>(s: Store<J>, key: string, now: int): Option<Window> {
    if Live(s, CountKey(key), now) && s[CountKey(key)].value.Count? && s[CountKey(key)].deadline.Some?
    then Some(Window(s[CountKey(key)].value.count, s[CountKey(key)].deadline.value))
    else None
  }

  /** Every stored counter has counted something and has an end. */
  ghost predicate Counters<J>(s: Store<J>) {
    forall key :: CountKey(key) in s ==>
      s[CountKey(key)].value.Count? && s[CountKey(key)].value.count >= 1 && s[CountKey(key)].deadline.Some?
  }

  lemma CountKeysApart(a: string, b: string)
    requires CountKey(a) == CountKey(b)
    ensures a == b
  {
    assert CountKey(a)[11..] == a && CountKey(b)[11..] == b;
  }

  /** What a request does to the window of its key, and to every other. */
  lemma RequestActs<J>(s: Store<J>, key: string, limit: int, period: int, now: int)
    requires Counters(s) && period > 0
    ensures var (n, allowed) := Request(s, key, limit, period, now);
            var w := WindowOf(s, key, now);
            && Counters(n)
            && WindowOf(n, key, now) == Some(if w.Some? then Window(w.value.count + 1, w.value.end)
                                             else Window(1, now + period))
            && (allowed <==> WindowOf(n, key, now).value.count <= limit)
            && (forall other, later :: other != key ==> WindowOf(n, other, later) == WindowOf(s, other, later))
  {
    forall other | CountKey(other) == CountKey(key)
      ensures other == key
    {
      CountKeysApart(other, key);
    }
    hide CountKey;
  }

  // ------------------------------------------------------------- whole runs

  datatype Call = Call(key: string, at: int)

  ghost predicate InTime(calls: seq<Call>, from: int) {
    && (forall i :: 0 <= i < |calls| ==> from <= calls[i].at)
    && (forall i, j :: 0 <= i < j < |calls| ==> calls[i].at <= calls[j].at)
  }

  lemma InTimeStep(calls: seq<Call>, from: int)
    requires InTime(calls, from) && calls != []
    ensures from <= calls[0].at && InTime(calls, calls[0].at) && InTime(calls[1..], calls[0].at)
  {
  }

  /** The times at which a run lets a request of this key through. */
  function LetThrough<J>(s: Store<J>, calls: seq<Call>, limit: int, period: int, key: string): seq<int>
    decreases |calls|
  {
    if calls == [] then []
    else
      var (n, allowed) := Request(s, calls[0].key, limit, period, calls[0].at);
      var rest := LetThrough(n, calls[1..], limit, period, key);
      if allowed && calls[0].key == key then [calls[0].at] + rest else rest
  }

  /** How many of these times lie in [from, until). */
  function Within(times: seq<int>, from: int, until: int): nat {
    if times == [] then 0
    else if from <= times[0] < until then Within(times[1..], from, until) + 1
    else Within(times[1..], from, until)
  }

  /** How many requests of a key with from <= time < until are let through, over a whole run. */
  function Admitted<J>(s: Store<J>, calls: seq<Call>, limit: int, period: int,
                       key: string, from: int, until: int): nat
  {
    Within(LetThrough(s, calls, limit, period, key), from, until)
  }

  lemma AdmittedStep<J>(s: Store<J>, calls: seq<Call>, limit: int, period: int, key: string, from: int, until: int)
    requires calls != []
    ensures var (n, allowed) := Request(s, calls[0].key, limit, period, calls[0].at);
            var rest := Admitted(n, calls[1..], limit, period, key, from, until);
            Admitted(s, calls, limit, period, key, from, until)
            == if allowed && calls[0].key == key && from <= calls[0].at < until then rest + 1 else rest
  {
    hide Request;
    var (n, allowed) := Request(s, calls[0].key, limit, period, calls[0].at);
    var rest := LetThrough(n, calls[1..], limit, period, key);
    if allowed && calls[0].key == key {
      assert ([calls[0].at] + rest)[1..] == rest;
    }
  }

  // ---------------------------------------------- what a fixed window promises

  /** How many of these times, from the first on, come before the end of a window. */
  function Leading(times: seq<int>, end: int): (n: nat)
    ensures n <= |times| && (forall i :: 0 <= i < n ==> times[i] < end) && (n < |times| ==> times[n] >= end)
  {
    if times == [] || times[0] >= end then 0 else 1 + Leading(times[1..], end)
  }

  /** The promise, without a store: a window opens at the first request, lasts one period,
      and lets its first `limit` requests through; the next request after it opens the next. */
  function FixedWindows(times: seq<int>, limit: int, period: int): seq<int>
    requires period > 0
    decreases |times|
  {
    if times == [] then []
    else
      var n := Leading(times, times[0] + period);
      times[..Min(n, Max(0, limit))] + FixedWindows(times[n..], limit, period)
  }

  /** The same when a window is open that has already counted some requests. */
  function FromWindow(w: Option<Window>, times: seq<int>, limit: int, period: int): seq<int>
    requires period > 0
  {
    if w.None? then FixedWindows(times, limit, period)
    else
      var n := Leading(times, w.value.end);
      times[..Min(n, Max(0, limit - w.value.count))] + FixedWindows(times[n..], limit, period)
  }

  /** The times of the requests for one key. */
  function TimesOf(calls: seq<Call>, key: string): seq<int> {
    if calls == [] then []
    else if calls[0].key == key then [calls[0].at] + TimesOf(calls[1..], key)
    else TimesOf(calls[1..], key)
  }

  lemma {:induction false} TimesAreCalls(calls: seq<Call>, key: string, from: int)
    requires InTime(calls, from)
    ensures forall t :: t in TimesOf(calls, key) ==> from <= t
  {
    if calls == [] {
    } else {
      TimesAreCalls(calls[1..], key, from);
    }
  }

  lemma DropOneMore(t: int, rest: seq<int>, n: nat)
    requires n <= |rest|
    ensures ([t] + rest)[n + 1..] == rest[n..]
  {
  }

  lemma TakeOneMore(t: int, rest: seq<int>, k: nat, later: seq<int>)
    requires k <= |rest|
    ensures ([t] + rest)[..k + 1] + later == [t] + (rest[..k] + later)
  {
    assert ([t] + rest)[..k + 1] == [t] + rest[..k];
  }

  lemma LeadingOneMore(t: int, rest: seq<int>, end: int)
    requires t < end
    ensures Leading([t] + rest, end) == Leading(rest, end) + 1
  {
    assert ([t] + rest)[1..] == rest;
  }

  lemma WindowSplits(w: Window, times: seq<int>, limit: int, period: int, n: nat, k: nat)
    requires period > 0 && n == Leading(times, w.end) && k == Min(n, Max(0, limit - w.count))
    ensures FromWindow(Some(w), times, limit, period) == times[..k] + FixedWindows(times[n..], limit, period)
  {
  }

  /** One more request, in an open window that still lets requests through. */
  lemma JoinsWindow(w: Window, t: int, rest: seq<int>, limit: int, period: int)
    requires period > 0 && t < w.end && w.count < limit
    ensures FromWindow(Some(w), [t] + rest, limit, period)
            == [t] + FromWindow(Some(Window(w.count + 1, w.end)), rest, limit, period)
  {
    hide FromWindow, FixedWindows, Leading;
    var n := Leading(rest, w.end);
    var k := Min(n, limit - w.count - 1);
    LeadingOneMore(t, rest, w.end);
    WindowSplits(w, [t] + rest, limit, period, n + 1, k + 1);
    WindowSplits(Window(w.count + 1, w.end), rest, limit, period, n, k);
    DropOneMore(t, rest, n);
    TakeOneMore(t, rest, k, FixedWindows(rest[n..], limit, period));
  }

  /** One more request, in an open window that has reached its limit. */
  lemma FullWindow(w: Window, t: int, rest: seq<int>, limit: int, period: int)
    requires period > 0 && t < w.end && w.count >= limit
    ensures FromWindow(Some(w), [t] + rest, limit, period)
            == FromWindow(Some(Window(w.count + 1, w.end)), rest, limit, period)
  {
    var n := Leading(rest, w.end);
    LeadingOneMore(t, rest, w.end);
    DropOneMore(t, rest, n);
    hide FixedWindows, Leading;
    assert ([t] + rest)[..0] == rest[..0];
  }

  /** The first request after a window, or the first of all, opens one. */
  lemma OpensWindow(w: Option<Window>, t: int, rest: seq<int>, limit: int, period: int)
    requires period > 0 && (w.Some? ==> w.value.end <= t)
    ensures FromWindow(w, [t] + rest, limit, period)
            == FromWindow(Some(Window(0, t + period)), [t] + rest, limit, period)
  {
    hide Leading, FromWindow, FixedWindows;
    var times := [t] + rest;
    FirstWindow(times, limit, period);
    if w.Some? {
      LateRequests(w.value, times, limit, period);
    } else {
      NoWindow(times, limit, period);
    }
  }

  lemma FirstWindow(times: seq<int>, limit: int, period: int)
    requires period > 0 && times != []
    ensures FixedWindows(times, limit, period) == FromWindow(Some(Window(0, times[0] + period)), times, limit, period)
  {
    hide Leading, FromWindow;
    var n := Leading(times, times[0] + period);
    WindowSplits(Window(0, times[0] + period), times, limit, period, n, Min(n, Max(0, limit)));
  }

  lemma NoWindow(times: seq<int>, limit: int, period: int)
    requires period > 0
    ensures FromWindow(None, times, limit, period) == FixedWindows(times, limit, period)
  {
  }

  lemma LateRequests(w: Window, times: seq<int>, limit: int, period: int)
    requires period > 0 && (times == [] || w.end <= times[0])
    ensures FromWindow(Some(w), times, limit, period) == FixedWindows(times, limit, period)
  {
    NoneLeading(times, w.end);
    hide Leading, FromWindow, FixedWindows;
    WindowSplits(w, times, limit, period, 0, 0);
    assert times[..0] == [] && times[0..] == times;
  }

  lemma NoneLeading(times: seq<int>, end: int)
    requires times == [] || end <= times[0]
    ensures Leading(times, end) == 0
  {
  }

  /** The limiter keeps the promise for every key, on any run with any mix of keys: the
      requests let through are those the fixed windows of that key alone let through. */
  lemma {:induction false} KeepsFixedWindows<J>(s: Store<J>, calls: seq<Call>, limit: int, period: int,
                                                key: string, now: int)
    requires Counters(s) && period > 0 && InTime(calls, now)
    ensures LetThrough(s, calls, limit, period, key)
            == FromWindow(WindowOf(s, key, now), TimesOf(calls, key), limit, period)
    decreases |calls|
  {
    hide Request, WindowOf, Counters, FromWindow, InTime;
    if calls == [] {
      NoRequests(WindowOf(s, key, now), TimesOf(calls, key), limit, period);
    } else {
      var c := calls[0];
      InTimeStep(calls, now);
      var (n, allowed) := Request(s, c.key, limit, period, c.at);
      RequestActs(s, c.key, limit, period, c.at);
      TimesAreCalls(calls, key, c.at);
      WindowCloses(s, key, now, c.at, TimesOf(calls, key), limit, period);
      KeepsFixedWindows(n, calls[1..], limit, period, key, c.at);
      if c.key == key {
        WindowIsOpen(s, key, c.at);
        OneMoreRequest(WindowOf(s, key, c.at), WindowOf(n, key, c.at), c.at, TimesOf(calls[1..], key), limit, period);
      }
    }
  }

  /** One more request: it opens a window or joins the open one, and passes while that has room. */
  lemma OneMoreRequest(w: Option<Window>, later: Option<Window>, t: int, rest: seq<int>, limit: int, period: int)
    requires period > 0 && (w.Some? ==> t < w.value.end)
    requires later == Some(if w.Some? then Window(w.value.count + 1, w.value.end) else Window(1, t + period))
    ensures FromWindow(w, [t] + rest, limit, period)
            == if later.value.count <= limit then [t] + FromWindow(later, rest, limit, period)
               else FromWindow(later, rest, limit, period)
  {
    hide FromWindow, FixedWindows, Leading;
    var open := if w.Some? then w.value else Window(0, t + period);
    if w.None? {
      OpensWindow(w, t, rest, limit, period);
    }
    if open.count < limit {
      JoinsWindow(open, t, rest, limit, period);
    } else {
      FullWindow(open, t, rest, limit, period);
    }
  }

  lemma NoTimes(times: seq<int>, limit: int, period: int)
    requires period > 0 && times == []
    ensures FixedWindows(times, limit, period) == []
  {
    hide Leading;
  }

  lemma NoRequests(w: Option<Window>, times: seq<int>, limit: int, period: int)
    requires period > 0 && times == []
    ensures FromWindow(w, times, limit, period) == []
  {
    hide FixedWindows, Leading;
    NoTimes(times, limit, period);
    if w.Some? {
      NoTimes(times[Leading(times, w.value.end)..], limit, period);
    }
  }

  lemma WindowIsOpen<J>(s: Store<J>, key: string, now: int)
    ensures WindowOf(s, key, now).Some? ==> now < WindowOf(s, key, now).value.end
  {
  }

  /** Letting time pass may close the window; for requests that come later it was closed anyway. */
  lemma WindowCloses<J>(s: Store<J>, key: string, now: int, later: int, times: seq<int>, limit: int, period: int)
    requires Counters(s) && period > 0 && now <= later && forall t :: t in times ==> later <= t
    ensures FromWindow(WindowOf(s, key, now), times, limit, period)
            == FromWindow(WindowOf(s, key, later), times, limit, period)
  {
    var w := WindowOf(s, key, now);
    if WindowOf(s, key, later) != w {
      if times != [] {
        assert times[0] in times;
      }
      hide Leading, FixedWindows, FromWindow;
      LateRequests(w.value, times, limit, period);
      NoWindow(times, limit, period);
    }
  }

  // ------------------------------------------------------- how much that can be

  /** How many windows of this length can open one after the other in [from, until). */
  function Windows(from: int, until: int, period: int): nat
    requires period > 0
    decreases until - from
  {
    if from >= until then 0 else 1 + Windows(from + period, until, period)
  }

  lemma {:induction false} WindowsLater(from: int, later: int, until: int, period: int)
    requires period > 0 && from <= later
    ensures Windows(later, until, period) <= Windows(from, until, period)
    decreases until - from
  {
    if from >= until {
    } else {
      if later < until {
        WindowsLater(from + period, later + period, until, period);
      }
    }
  }

  lemma {:induction false} WindowsInSpan(from: int, k: nat, period: int, until: int)
    requires period > 0 && until <= from + k * period
    ensures Windows(from, until, period) <= k
    decreases k
  {
    if from >= until {
    } else {
      if k > 0 {
        assert from + k * period == from + period + (k - 1) * period;
        WindowsInSpan(from + period, k - 1, period, until);
      }
    }
  }

  /** The most that can still be let through before `until`: what is left of the open window,
      and a full limit for every window that can open after it. */
  function Room(w: Option<Window>, limit: int, period: int, now: int, until: int): nat
    requires period > 0
  {
    if w.Some? then Max(0, limit - w.value.count) + Max(0, limit) * Windows(w.value.end, until, period)
    else Max(0, limit) * Windows(now, until, period)
  }

  lemma Times(a: int, b: int, c: int)
    requires a >= 0 && b <= c
    ensures a * b <= a * c
  {
  }

  /** Waiting does not make room. */
  lemma RoomShrinks<J>(s: Store<J>, key: string, limit: int, period: int, now: int, later: int, until: int)
    requires Counters(s) && period > 0 && now <= later
    ensures Room(WindowOf(s, key, later), limit, period, later, until)
            <= Room(WindowOf(s, key, now), limit, period, now, until)
  {
    var w := WindowOf(s, key, now);
    if WindowOf(s, key, later).None? {
      var start := if w.Some? then w.value.end else now;
      WindowsLater(start, later, until, period);
      Times(Max(0, limit), Windows(later, until, period), Windows(start, until, period));
    }
  }

  /** A request that is let through uses room. */
  lemma RequestUsesRoom<J>(s: Store<J>, key: string, limit: int, period: int, now: int, until: int)
    requires Counters(s) && period > 0 && now < until
    ensures var (n, allowed) := Request(s, key, limit, period, now);
            Room(WindowOf(n, key, now), limit, period, now, until) + (if allowed then 1 else 0)
            <= Room(WindowOf(s, key, now), limit, period, now, until)
  {
    RequestActs(s, key, limit, period, now);
    hide Request, WindowOf;
    if WindowOf(s, key, now).None? {
      var most := Max(0, limit);
      var more := Windows(now + period, until, period);
      assert most * (1 + more) == most + most * more;
    }
  }

  lemma {:induction false} NothingAfter<J>(s: Store<J>, calls: seq<Call>, limit: int, period: int,
                                           key: string, from: int, until: int)
    requires InTime(calls, until)
    ensures Admitted(s, calls, limit, period, key, from, until) == 0
    decreases |calls|
  {
    if calls == [] {
    } else {
      AdmittedStep(s, calls, limit, period, key, from, until);
      NothingAfter(Request(s, calls[0].key, limit, period, calls[0].at).0, calls[1..], limit, period, key, from, until);
    }
  }

  lemma {:induction false} AdmittedFits<J>(s: Store<J>, calls: seq<Call>, limit: int, period: int,
                                           key: string, now: int, from: int, until: int)
    requires Counters(s) && period > 0 && InTime(calls, now)
    ensures Admitted(s, calls, limit, period, key, from, until)
            <= Room(WindowOf(s, key, now), limit, period, now, until)
    decreases |calls|
  {
    if calls == [] {
    } else {
      var c := calls[0];
      if c.at >= until {
        NothingAfter(s, calls, limit, period, key, from, until);
      } else {
        var n := Request(s, c.key, limit, period, c.at).0;
        RequestActs(s, c.key, limit, period, c.at);
        RoomShrinks(s, key, limit, period, now, c.at, until);
        if c.key == key {
          RequestUsesRoom(s, key, limit, period, c.at, until);
        }
        AdmittedStep(s, calls, limit, period, key, from, until);
        hide Request, Room, WindowOf, Counters, Admitted;
        AdmittedFits(n, calls[1..], limit, period, key, c.at, from, until);
      }
    }
  }

  /** Over any run, on any mix of keys, a half-open span of k periods lets at most k + 1
      limits through for a key, whatever was counted before it. */
  lemma {:induction false} SpanBound<J>(s: Store<J>, calls: seq<Call>, limit: int, period: int,
                                        key: string, now: int, from: int, k: nat)
    requires Counters(s) && period > 0 && InTime(calls, now)
    ensures Admitted(s, calls, limit, period, key, from, from + k * period) <= (k + 1) * Max(0, limit)
    decreases |calls|
  {
    var until := from + k * period;
    if calls == [] {
      assert (k + 1) * Max(0, limit) >= 0;
    } else if calls[0].at >= from {
      AdmittedFits(s, calls, limit, period, key, calls[0].at, from, until);
      RoomInSpan(s, key, limit, period, calls[0].at, from, k);
    } else {
      var c := calls[0];
      RequestActs(s, c.key, limit, period, c.at);
      AdmittedStep(s, calls, limit, period, key, from, until);
      hide Request, Counters, Admitted;
      SpanBound(Request(s, c.key, limit, period, c.at).0, calls[1..], limit, period, key, c.at, from, k);
    }
  }

  lemma RoomInSpan<J>(s: Store<J>, key: string, limit: int, period: int, now: int, from: int, k: nat)
    requires Counters(s) && period > 0 && from <= now
    ensures Room(WindowOf(s, key, now), limit, period, now, from + k * period) <= (k + 1) * Max(0, limit)
  {
    var until := from + k * period;
    var w := WindowOf(s, key, now);
    var start := if w.Some? then w.value.end else now;
    assert w.Some? ==> now < w.value.end;
    hide Counters, WindowOf;
    WindowsInSpan(start, k, period, until);
    var most := Max(0, limit);
    Times(most, Windows(start, until, period), k);
    assert (k + 1) * most == most * k + most;
  }

  /** A period that is not positive ends every window at once: then either every request
      passes or none does, however many there are. */
  lemma {:induction false} NoPeriodNoLimit<J>(s: Store<J>, calls: seq<Call>, limit: int, period: int, key: string)
    requires CountKey(key) !in s && period <= 0
    ensures LetThrough(s, calls, limit, period, key) == if limit >= 1 then TimesOf(calls, key) else []
    decreases |calls|
  {
    if calls == [] {
    } else {
      var (n, allowed) := Request(s, calls[0].key, limit, period, calls[0].at);
      assert CountKey(key) !in n && (calls[0].key == key ==> (allowed <==> 1 <= limit)) by {
        if CountKey(calls[0].key) == CountKey(key) {
          CountKeysApart(calls[0].key, key);
        }
      }
      hide Request;
      NoPeriodNoLimit(n, calls[1..], limit, period, key);
    }
  }

  // ------------------------------------------------------------ the limiter

  class RateLimiter<J> {
    var connected: bool
    var redis: Store<J>

    constructor (connect: bool)
      ensures connected == connect && redis == map[] && Counters(redis)
    {
      connected, redis := connect, map[];
    }

    /** isAllowed; without Redis everything passes. */
    method IsAllowed(key: string, limit: int, periodSeconds: int, now: int) returns (allowed: bool)
      modifies `redis
      ensures !connected ==> allowed && redis == old(redis)
      ensures connected ==> (redis, allowed) == Request(old(redis), key, limit, periodSeconds, now)
    {
      if !connected {
        return true;
      }
      var countKey := CountKey(key);
      var counted, count := Incr(redis, countKey, now).0, Incr(redis, countKey, now).1;
      redis := counted;
      if count == 1 {
        redis := Expire(redis, countKey, periodSeconds, now);
      }
      return count <= limit;
    }
  }
}
