/** The in-memory sliding-window rate limiter of common/rate-limit.go: a bounded queue of accept times for
    every key and a janitor that forgets idle keys, against the full log of everything ever accepted. */
module RateLimiter {
  import opened Basics
  type Store = map<string, seq<int>>

  datatype Limit = Limit(max: nat, duration: int)

  predicate Allows(store: Store, key: string, limit: Limit, now: int) {
    key in store && |store[key]| > 0 && |store[key]| >= limit.max ==> now - store[key][0] >= limit.duration
  }

  function AfterRequest(store: Store, key: string, limit: Limit, now: int): Store {
    if key !in store then store[key := [now]]
    else if |store[key]| < limit.max || store[key] == [] then store[key := store[key] + [now]]
    else if now - store[key][0] >= limit.duration then store[key := store[key][1..] + [now]]
    else store
  }

  /** An idle key: its newest entry is older than the whole seconds of the expiration, a duration in nanoseconds. */
  predicate Idle(queue: seq<int>, expiration: int, now: int) {
    queue == [] || now - queue[|queue| - 1] > WholeSeconds(expiration)
  }

  function AfterSweep(store: Store, expiration: int, now: int): Store {
    map key | key in store && !Idle(store[key], expiration, now) :: store[key]
  }

  class InMemoryRateLimiter {
    var store: Store
    const expiration: int

    ghost predicate Valid()
      reads this
    {
      forall key :: key in store ==> store[key] != []
    }

    constructor (expiration: int)
      ensures Valid() && store == map[] && this.expiration == expiration
    {
      store := map[];
      this.expiration := expiration;
    }

    /** One call, made under the mutex at time now. */
    method Request(key: string, maxRequestNum: nat, duration: int, now: int) returns (ok: bool)
      requires Valid()
      modifies this
      ensures Valid()
      ensures ok <==> Allows(old(store), key, Limit(maxRequestNum, duration), now)
      ensures store == AfterRequest(old(store), key, Limit(maxRequestNum, duration), now)
    {
      if key in store {
        var queue := store[key];
        if |queue| < maxRequestNum {
          store := store[key := queue + [now]];
          return true;
        } else {
          if now - queue[0] >= duration {
            store := store[key := queue[1..] + [now]];
            return true;
          } else {
            return false;
          }
        }
      } else {
        store := store[key := []];
        store := store[key := store[key] + [now]];
        assert store[key] == [now];
      }
      return true;
    }

    /** One round of the janitor. */
    method ClearExpiredItems(now: int)
      requires Valid()
      modifies this
      ensures Valid()
      ensures store == AfterSweep(old(store), expiration, now)
    {
      var todo := store.Keys;
      while todo != {}
        invariant todo <= store.Keys <= old(store).Keys
        invariant forall key :: key in store ==> store[key] == old(store)[key]
        invariant forall key :: key in old(store) && key !in todo ==>
          (key in store <==> !Idle(old(store)[key], expiration, now))
        decreases todo
      {
        var key :| key in todo;
        var queue := store[key];
        if |queue| == 0 || now - queue[|queue| - 1] > WholeSeconds(expiration) {
          store := store - {key};
        }
        todo := todo - {key};
      }
    }
  }

  // ---------------------------------------------------------------------------------------------------
  // Runs
  // ---------------------------------------------------------------------------------------------------

  datatype Event = Request(key: string, now: int) | Sweep(now: int)

  /** The store, the full log of accept times of one key, and the time of the last event. */
  datatype State = State(store: Store, log: seq<int>, clock: int)

  /** The settings of a run: every key keeps its own limit; the janitor runs only when the expiration is
      positive. */
  datatype Settings = Settings(limits: string -> Limit, expiration: int)

  function Next(s: State, e: Event, key: string, settings: Settings): State {
    match e
    case Request(k, now) =>
      var limit := settings.limits(k);
      State(AfterRequest(s.store, k, limit, now),
            if k == key && Allows(s.store, k, limit, now) then s.log + [now] else s.log, now)
    case Sweep(now) =>
      var swept := if settings.expiration > 0 then AfterSweep(s.store, settings.expiration, now) else s.store;
      s.(store := swept, clock := now)
  }

  /** The state after all events, with the log of the given key. */
  function Run(s: State, events: seq<Event>, key: string, settings: Settings): State {
    if events == [] then s
    else Next(Run(s, events[..|events| - 1], key, settings), events[|events| - 1], key, settings)
  }

  function Start(clock: int): State {
    State(map[], [], clock)
  }

  /** The clock never goes back. */
  predicate Monotone(start: int, events: seq<Event>) {
    && (forall i :: 0 <= i < |events| ==> start <= events[i].now)
    && (forall i, j :: 0 <= i < j < |events| ==> events[i].now <= events[j].now)
  }

  // ---------------------------------------------------------------------------------------------------
  // The reference: count the young entries of the full log
  // ---------------------------------------------------------------------------------------------------

  function Young(log: seq<int>, now: int, duration: int): nat {
    if log == [] then 0
    else Young(log[..|log| - 1], now, duration) + if now - log[|log| - 1] < duration then 1 else 0
  }

  /** A limit of zero lets one request through, exactly as a limit of one does. */
  function Effective(limit: Limit): nat {
    if limit.max == 0 then 1 else limit.max
  }

  predicate Sorted(log: seq<int>) {
    forall i, j :: 0 <= i < j < |log| ==> log[i] <= log[j]
  }

  lemma {:induction false} YoungAtMost(log: seq<int>, now: int, duration: int, oldest: nat)
    requires oldest <= |log| && forall i :: 0 <= i < oldest ==> now - log[i] >= duration
    ensures Young(log, now, duration) <= |log| - oldest
  {
    if log != [] {
      YoungAtMost(log[..|log| - 1], now, duration, if oldest == |log| then oldest - 1 else oldest);
    }
  }

  lemma {:induction false} YoungAtLeast(log: seq<int>, now: int, duration: int, from: nat)
    requires from <= |log| && forall i :: from <= i < |log| ==> now - log[i] < duration
    ensures Young(log, now, duration) >= |log| - from
  {
    if from < |log| {
      YoungAtLeast(log[..|log| - 1], now, duration, from);
    }
  }

  // ---------------------------------------------------------------------------------------------------
  // The invariant of one key
  // ---------------------------------------------------------------------------------------------------

  /** The janitor forgets a key only when everything it accepted is at least duration old. */
  predicate Fits(limit: Limit, expiration: int) {
    expiration > 0 ==> limit.duration <= WholeSeconds(expiration) + 1
  }

  predicate LogInv(s: State) {
    Sorted(s.log) && forall i :: 0 <= i < |s.log| ==> s.log[i] <= s.clock
  }

  predicate AllOld(s: State, n: int, limit: Limit)
    requires n <= |s.log|
  {
    forall i :: 0 <= i < n ==> s.clock - s.log[i] >= limit.duration
  }

  /** The queue is the newest part of the log; what it lacks below the limit is old. */
  predicate QueueInv(s: State, key: string, limit: Limit) {
    if key in s.store then
      var q := s.store[key];
      && 1 <= |q| <= Effective(limit) && |q| <= |s.log| && q == s.log[|s.log| - |q|..]
      && (|q| < Effective(limit) ==> AllOld(s, |s.log| - |q|, limit))
    else AllOld(s, |s.log|, limit)
  }

  /** Entries limit apart in the log are at least duration apart in time. */
  predicate GapInv(log: seq<int>, limit: Limit) {
    forall i :: 0 <= i < |log| - Effective(limit) ==> log[i + Effective(limit)] - log[i] >= limit.duration
  }

  predicate KeyInv(s: State, key: string, limit: Limit) {
    LogInv(s) && QueueInv(s, key, limit) && GapInv(s.log, limit)
  }

  /** The bounded queue decides as the full log would. */
  lemma {:induction false} DecisionIsExact(s: State, key: string, limit: Limit, now: int)
    requires KeyInv(s, key, limit) && s.clock <= now
    ensures Allows(s.store, key, limit, now) <==> Young(s.log, now, limit.duration) < Effective(limit)
  {
    var L, n := Effective(limit), |s.log|;
    if key !in s.store {
      YoungAtMost(s.log, now, limit.duration, n);
    } else {
      var q := s.store[key];
      var first := n - |q|;
      if |q| < L {
        YoungAtMost(s.log, now, limit.duration, first);
      } else if now - q[0] >= limit.duration {
        assert forall i :: 0 <= i <= first ==> s.log[i] <= s.log[first] == q[0];
        YoungAtMost(s.log, now, limit.duration, first + 1);
      } else {
        assert forall i :: first <= i < n ==> s.log[first] <= s.log[i];
        YoungAtLeast(s.log, now, limit.duration, first);
      }
    }
  }

  /** Accepting keeps the queue the newest part of the log. */
  lemma {:induction false} AcceptQueue(s: State, key: string, now: int, settings: Settings)
    requires LogInv(s) && QueueInv(s, key, settings.limits(key)) && s.clock <= now
    requires Allows(s.store, key, settings.limits(key), now)
    ensures QueueInv(Next(s, Request(key, now), key, settings), key, settings.limits(key))
  {
    var L, n := Effective(settings.limits(key)), |s.log|;
    var s' := Next(s, Request(key, now), key, settings);
    if key in s.store {
      var q := s.store[key];
      var q' := (if |q| < L then q else q[1..]) + [now];
      assert s'.store[key] == q';
      assert s'.log[n + 1 - |q'|..] == q';
    } else {
      assert s'.log[n..] == [now];
    }
  }

  /** Accepting keeps entries that are limit apart far apart. */
  lemma {:induction false} AcceptGap(s: State, key: string, now: int, limit: Limit)
    requires KeyInv(s, key, limit) && s.clock <= now && Allows(s.store, key, limit, now)
    ensures GapInv(s.log + [now], limit)
  {
    var L, n := Effective(limit), |s.log|;
    if n >= L {
      assert key in s.store && |s.store[key]| == L ==> s.store[key][0] == s.log[n - L];
      assert now - s.log[n - L] >= limit.duration;
    }
  }

  lemma {:induction false} RejectKeeps(s: State, key: string, now: int, limit: Limit)
    requires KeyInv(s, key, limit) && s.clock <= now
    ensures KeyInv(s.(clock := now), key, limit)
  {
  }

  lemma {:induction false} AcceptLog(log: seq<int>, clock: int, now: int)
    requires Sorted(log) && (forall i :: 0 <= i < |log| ==> log[i] <= clock) && clock <= now
    ensures Sorted(log + [now]) && forall i :: 0 <= i < |log + [now]| ==> (log + [now])[i] <= now
  {
  }

  lemma {:induction false} AcceptKeeps(s: State, key: string, now: int, settings: Settings)
    requires KeyInv(s, key, settings.limits(key)) && s.clock <= now && Allows(s.store, key, settings.limits(key), now)
    ensures KeyInv(Next(s, Request(key, now), key, settings), key, settings.limits(key))
  {
    var limit := settings.limits(key);
    var s' := Next(s, Request(key, now), key, settings);
    assert s'.log == s.log + [now] && s'.clock == now;
    assert LogInv(s') by {
      AcceptLog(s.log, s.clock, now);
    }
    assert GapInv(s'.log, limit) by {
      AcceptGap(s, key, now, limit);
    }
    assert QueueInv(s', key, limit) by {
      AcceptQueue(s, key, now, settings);
    }
  }

  lemma {:induction false} RequestKeeps(s: State, key: string, now: int, settings: Settings)
    requires KeyInv(s, key, settings.limits(key)) && s.clock <= now
    ensures KeyInv(Next(s, Request(key, now), key, settings), key, settings.limits(key))
  {
    var limit := settings.limits(key);
    if Allows(s.store, key, limit, now) {
      AcceptKeeps(s, key, now, settings);
    } else {
      var s' := Next(s, Request(key, now), key, settings);
      assert s' == s.(clock := now);
      assert KeyInv(s.(clock := now), key, limit) by {
        RejectKeeps(s, key, now, limit);
      }
    }
  }

  /** Time passes, and the key's queue is kept, or forgotten when its newest entry has reached the duration. */
  lemma {:induction false} QueueKeptOrForgotten(s: State, s': State, key: string, limit: Limit)
    requires KeyInv(s, key, limit) && s'.log == s.log && s.clock <= s'.clock
    requires key in s'.store ==> key in s.store && s'.store[key] == s.store[key]
    requires key in s.store && key !in s'.store ==> s'.clock - s.log[|s.log| - 1] >= limit.duration
    ensures KeyInv(s', key, limit)
  {
    if key in s'.store || key !in s.store {
      assert KeyInv(s.(clock := s'.clock), key, limit) by {
        RejectKeeps(s, key, s'.clock, limit);
      }
    } else {
      var last := |s.log| - 1;
      forall i | 0 <= i < |s.log| ensures s'.clock - s.log[i] >= limit.duration {
        assert s.log[i] <= s.log[last];
      }
    }
  }

  lemma {:induction false} OtherKeeps(s: State, e: Event, key: string, settings: Settings)
    requires KeyInv(s, key, settings.limits(key)) && s.clock <= e.now && Fits(settings.limits(key), settings.expiration)
    requires e.Sweep? || e.key != key
    ensures KeyInv(Next(s, e, key, settings), key, settings.limits(key))
  {
    QueueKeptOrForgotten(s, Next(s, e, key, settings), key, settings.limits(key));
  }

  lemma {:induction false} RunInv(start: int, events: seq<Event>, key: string, settings: Settings)
    requires Monotone(start, events) && Fits(settings.limits(key), settings.expiration)
    ensures var s := Run(Start(start), events, key, settings);
      && KeyInv(s, key, settings.limits(key))
      && s.clock == (if events == [] then start else events[|events| - 1].now)
  {
    if events != [] {
      var before, e := events[..|events| - 1], events[|events| - 1];
      RunInv(start, before, key, settings);
      var s := Run(Start(start), before, key, settings);
      if e.Request? && e.key == key {
        RequestKeeps(s, key, e.now, settings);
      } else {
        OtherKeeps(s, e, key, settings);
      }
    }
  }

  // ---------------------------------------------------------------------------------------------------
  // Results
  // ---------------------------------------------------------------------------------------------------

  /** After any run with a clock that never goes back, whatever the janitor deleted and whenever it ran, a
      request is accepted exactly when fewer than the limit of all accepted requests are younger than
      duration. */
  lemma {:induction false} LimiterIsExact(start: int, events: seq<Event>, key: string, settings: Settings, now: int)
    requires Monotone(start, events + [Request(key, now)])
    requires Fits(settings.limits(key), settings.expiration)
    ensures
      var s, limit := Run(Start(start), events, key, settings), settings.limits(key);
      Allows(s.store, key, limit, now) <==> Young(s.log, now, limit.duration) < Effective(limit)
  {
    var all := events + [Request(key, now)];
    assert all[|events|].now == now && forall i :: 0 <= i < |events| ==> all[i] == events[i];
    RunInv(start, events, key, settings);
    DecisionIsExact(Run(Start(start), events, key, settings), key, settings.limits(key), now);
  }

  /** The positions of the log whose time is in the window that begins at w. */
  function InWindow(log: seq<int>, w: int, duration: int): set<int> {
    set i | 0 <= i < |log| && w <= log[i] < w + duration
  }

  lemma {:induction false} IntervalSize(a: int, n: nat, s: set<int>)
    requires forall i :: i in s ==> a <= i < a + n
    ensures |s| <= n
  {
    if n == 0 {
      assert s == {} by {
        forall i ensures i !in s {
        }
      }
    } else {
      IntervalSize(a, n - 1, s - {a + n - 1});
    }
  }

  /** No window of length duration ever contains more accepted requests than the limit. */
  lemma {:induction false} WindowHoldsAtMostLimit(start: int, events: seq<Event>, key: string, settings: Settings,
    w: int)
    requires Monotone(start, events) && Fits(settings.limits(key), settings.expiration)
    ensures var s, limit := Run(Start(start), events, key, settings), settings.limits(key);
      |InWindow(s.log, w, limit.duration)| <= Effective(limit)
  {
    RunInv(start, events, key, settings);
    var s, limit := Run(Start(start), events, key, settings), settings.limits(key);
    var inside, L := InWindow(s.log, w, limit.duration), Effective(limit);
    if inside != {} {
      var first := FirstInside(s.log, w, limit.duration);
      forall i | i in inside ensures first <= i < first + L {
        FarApart(s.log, limit, first, i);
      }
      IntervalSize(first, L, inside);
    }
  }

  lemma {:induction false} FarApart(log: seq<int>, limit: Limit, a: nat, b: nat)
    requires Sorted(log) && GapInv(log, limit) && a < |log| && b < |log|
    ensures b >= a + Effective(limit) ==> log[b] - log[a] >= limit.duration
  {
    var c := a + Effective(limit);
    assert c < |log| ==> log[c] - log[a] >= limit.duration;
    assert c < b ==> log[c] <= log[b];
  }

  lemma {:induction false} FirstInside(log: seq<int>, w: int, duration: int) returns (first: nat)
    requires InWindow(log, w, duration) != {}
    ensures first in InWindow(log, w, duration) && forall i :: i in InWindow(log, w, duration) ==> first <= i
  {
    var i: nat :| i in InWindow(log, w, duration);
    first := i;
    for j := 0 to i
      invariant forall m :: 0 <= m < j ==> m !in InWindow(log, w, duration)
    {
      if j in InWindow(log, w, duration) {
        return j;
      }
    }
  }

  function Repeat(e: Event, n: nat): seq<Event> {
    if n == 0 then [] else Repeat(e, n - 1) + [e]
  }

  lemma {:induction false} FillQueue(key: string, settings: Settings, n: nat)
    requires n <= Effective(settings.limits(key))
    ensures var s := Run(Start(0), Repeat(Request(key, 0), n), key, settings);
      && |s.log| == n && (forall i :: 0 <= i < n ==> s.log[i] == 0) && s.clock == 0
      && (n > 0 ==> key in s.store && s.store[key] == s.log) && (n == 0 ==> s.store == map[])
  {
    if n > 0 {
      FillQueue(key, settings, n - 1);
      var events := Repeat(Request(key, 0), n);
      assert events[..|events| - 1] == Repeat(Request(key, 0), n - 1);
    }
  }

  /** The condition on the expiration is exact: with any longer duration there is a run, janitor included,
      after which the limiter accepts one request too many. */
  lemma {:induction false} LongDurationOverflows(key: string, settings: Settings)
    requires settings.expiration > 0 && !Fits(settings.limits(key), settings.expiration)
    ensures
      var limit, now := settings.limits(key), WholeSeconds(settings.expiration) + 1;
      var events := Repeat(Request(key, 0), Effective(limit)) + [Sweep(now)];
      var s := Run(Start(0), events, key, settings);
      && Monotone(0, events + [Request(key, now)])
      && Allows(s.store, key, limit, now) && Young(s.log, now, limit.duration) == Effective(limit)
  {
    var limit, now := settings.limits(key), WholeSeconds(settings.expiration) + 1;
    FilledThenSwept(key, settings, now);
    FilledMonotone(key, Effective(limit), now);
  }

  /** The limit is used up at time 0, and then the janitor comes when the key has become idle. */
  lemma {:induction false} FilledThenSwept(key: string, settings: Settings, now: int)
    requires settings.expiration > 0 && now > WholeSeconds(settings.expiration)
    requires now < settings.limits(key).duration
    ensures
      var limit := settings.limits(key);
      var s := Run(Start(0), Repeat(Request(key, 0), Effective(limit)) + [Sweep(now)], key, settings);
      Allows(s.store, key, limit, now) && Young(s.log, now, limit.duration) == Effective(limit)
  {
    var limit := settings.limits(key);
    var fill := Repeat(Request(key, 0), Effective(limit));
    FillQueue(key, settings, Effective(limit));
    var events := fill + [Sweep(now)];
    assert events[..|events| - 1] == fill;
    var s, full := Run(Start(0), events, key, settings), Run(Start(0), fill, key, settings);
    assert s == Next(full, Sweep(now), key, settings);
    assert s.log == full.log;
    assert Idle(full.store[key], settings.expiration, now);
    YoungAtLeast(s.log, now, limit.duration, 0);
    YoungAtMost(s.log, now, limit.duration, 0);
  }

  lemma {:induction false} FilledMonotone(key: string, n: nat, now: int)
    requires now >= 0
    ensures Monotone(0, Repeat(Request(key, 0), n) + [Sweep(now)] + [Request(key, now)])
  {
    RepeatNow(Request(key, 0), n);
  }

  lemma {:induction false} RepeatNow(e: Event, n: nat)
    ensures |Repeat(e, n)| == n && forall i :: 0 <= i < n ==> Repeat(e, n)[i] == e
  {
    if n > 0 {
      RepeatNow(e, n - 1);
    }
  }
}
