/** The verification codes of common/verification.go: a map that is swept of expired entries whenever it has grown
    too large, against one that never forgets. Times are in nanoseconds. */
module VerificationCodes {
  import opened Basics

  datatype Entry = Entry(code: string, time: int)

  type Store = map<string, Entry>

  /** The number of entries that triggers a sweep, and the minutes a code stays valid. */
  datatype Limits = Limits(maxSize: nat, validMinutes: int)

  predicate Expired(e: Entry, limits: Limits, now: int) {
    WholeSeconds(now - e.time) >= limits.validMinutes * 60
  }

  function Swept(store: Store, limits: Limits, now: int): Store {
    map key | key in store && !Expired(store[key], limits, now) :: store[key]
  }

  /** Registering at time now; the sweep, if there is one, reads the clock again. */
  function Registered(store: Store, id: string, code: string, now: int, sweepTime: int, limits: Limits): Store {
    var grown := store[id := Entry(code, now)];
    if |grown| > limits.maxSize then Swept(grown, limits, sweepTime) else grown
  }

  predicate Verifies(store: Store, id: string, code: string, now: int, limits: Limits) {
    id in store && !Expired(store[id], limits, now) && code == store[id].code
  }

  class VerificationMap {
    var store: Store
    const limits: Limits

    constructor (limits: Limits)
      ensures store == map[] && this.limits == limits
    {
      store := map[];
      this.limits := limits;
    }

    method RegisterVerificationCodeWithKey(key: string, code: string, purpose: string, now: int, sweepTime: int)
      modifies this
      ensures store == Registered(old(store), purpose + key, code, now, sweepTime, limits)
    {
      store := store[purpose + key := Entry(code, now)];
      if |store| > limits.maxSize {
        RemoveExpiredPairs(sweepTime);
      }
    }

    method VerifyCodeWithKey(key: string, code: string, purpose: string, now: int) returns (ok: bool)
      ensures ok <==> Verifies(store, purpose + key, code, now, limits)
    {
      if purpose + key !in store || WholeSeconds(now - store[purpose + key].time) >= limits.validMinutes * 60 {
        return false;
      }
      return code == store[purpose + key].code;
    }

    method DeleteKey(key: string, purpose: string)
      modifies this
      ensures store == old(store) - {purpose + key}
    {
      store := store - {purpose + key};
    }

    method RemoveExpiredPairs(now: int)
      modifies this
      ensures store == Swept(old(store), limits, now)
    {
      var todo := store.Keys;
      while todo != {}
        invariant todo <= store.Keys <= old(store).Keys
        invariant forall key :: key in store ==> store[key] == old(store)[key]
        invariant forall key :: key in old(store) && key !in todo ==>
          (key in store <==> !Expired(old(store)[key], limits, now))
        decreases todo
      {
        var key :| key in todo;
        if WholeSeconds(now - store[key].time) >= limits.validMinutes * 60 {
          store := store - {key};
        }
        todo := todo - {key};
      }
    }
  }

  // ---------------------------------------------------------------------------------------------------
  // Runs
  // ---------------------------------------------------------------------------------------------------

  datatype Event =
    | Register(id: string, code: string, now: int, sweepTime: int)
    | Verify(id: string, code: string, now: int)
    | Delete(id: string, now: int)

  /** The last clock reading of an event. */
  function End(e: Event): int {
    if e.Register? then e.sweepTime else e.now
  }

  predicate Monotone(events: seq<Event>) {
    && (forall i :: 0 <= i < |events| ==> events[i].now <= End(events[i]))
    && (forall i, j :: 0 <= i < j < |events| ==> End(events[i]) <= events[j].now)
  }

  function Next(store: Store, e: Event, limits: Limits): Store {
    match e
    case Register(id, code, now, sweepTime) => Registered(store, id, code, now, sweepTime, limits)
    case Verify(id, code, now) => store
    case Delete(id, now) => store - {id}
  }

  /** The evicting map after all events. */
  function Run(events: seq<Event>, limits: Limits): Store {
    if events == [] then map[] else Next(Run(events[..|events| - 1], limits), events[|events| - 1], limits)
  }

  /** The map that never evicts. */
  function KeepAll(events: seq<Event>): Store {
    if events == [] then map[] else Recorded(KeepAll(events[..|events| - 1]), events[|events| - 1])
  }

  function Recorded(full: Store, e: Event): Store {
    match e
    case Register(id, code, now, _) => full[id := Entry(code, now)]
    case Verify(_, _, _) => full
    case Delete(id, _) => full - {id}
  }

  /** Expiry in plain nanoseconds. */
  lemma {:induction false} ExpiredMeaning(e: Entry, limits: Limits, now: int)
    requires limits.validMinutes > 0
    ensures Expired(e, limits, now) <==> now - e.time >= limits.validMinutes * 60_000_000_000
  {
    var d, bound := now - e.time, limits.validMinutes * 60;
    assert d >= 0 ==> d == (d / SECOND) * SECOND + d % SECOND;
  }

  lemma {:induction false} SecondsMonotone(a: int, b: int)
    requires a <= b
    ensures WholeSeconds(a) <= WholeSeconds(b)
  {
    if 0 <= a {
      assert a / SECOND <= b / SECOND;
    } else if b < 0 {
      assert -b / SECOND <= -a / SECOND;
    }
  }

  lemma {:induction false} StaysExpired(e: Entry, limits: Limits, now: int, later: int)
    requires Expired(e, limits, now) && now <= later
    ensures Expired(e, limits, later)
  {
    SecondsMonotone(now - e.time, later - e.time);
  }

  // ---------------------------------------------------------------------------------------------------
  // Eviction is not observable
  // ---------------------------------------------------------------------------------------------------

  /** The evicting map has lost nothing but entries that had expired by the given time. */
  ghost predicate LostOnlyExpired(store: Store, full: Store, limits: Limits, clock: int) {
    && (forall id :: id in store ==> id in full && store[id] == full[id])
    && (forall id :: id in full && id !in store ==> Expired(full[id], limits, clock))
  }

  lemma {:induction false} LostLater(store: Store, full: Store, limits: Limits, clock: int, later: int)
    requires LostOnlyExpired(store, full, limits, clock) && clock <= later
    ensures LostOnlyExpired(store, full, limits, later)
  {
    forall id | id in full && id !in store ensures Expired(full[id], limits, later) {
      StaysExpired(full[id], limits, clock, later);
    }
  }

  /** One event: the evicting map and the full one stay together up to what has expired by the end of the event. */
  lemma {:induction false} StepLosesOnlyExpired(store: Store, full: Store, e: Event, limits: Limits)
    requires LostOnlyExpired(store, full, limits, End(e))
    ensures LostOnlyExpired(Next(store, e, limits), Recorded(full, e), limits, End(e))
  {
    match e
    case Register(id, code, now, sweepTime) =>
      var grown := store[id := Entry(code, now)];
      assert LostOnlyExpired(grown, full[id := Entry(code, now)], limits, sweepTime);
      SweepLosesOnlyExpired(grown, full[id := Entry(code, now)], limits, sweepTime);
    case Verify(_, _, _) =>
    case Delete(id, _) =>
  }

  lemma {:induction false} SweepLosesOnlyExpired(store: Store, full: Store, limits: Limits, now: int)
    requires LostOnlyExpired(store, full, limits, now)
    ensures LostOnlyExpired(Swept(store, limits, now), full, limits, now)
  {}

  lemma {:induction false} RunLosesOnlyExpired(events: seq<Event>, limits: Limits, clock: int)
    requires Monotone(events) && (events != [] ==> End(events[|events| - 1]) <= clock)
    ensures LostOnlyExpired(Run(events, limits), KeepAll(events), limits, clock)
  {
    if events != [] {
      var k := |events| - 1;
      var e, init := events[k], events[..k];
      assert Monotone(init) && (init != [] ==> End(init[|init| - 1]) <= End(e)) by {
        assert forall i :: 0 <= i < k ==> init[i] == events[i];
      }
      RunLosesOnlyExpired(init, limits, End(e));
      StepLosesOnlyExpired(Run(init, limits), KeepAll(init), e, limits);
      LostLater(Run(events, limits), KeepAll(events), limits, End(e), clock);
    }
  }

  /** After every run with a monotone clock, a Verify gets the same answer as from the map that never evicts. */
  lemma {:induction false} EvictionUnobservable(events: seq<Event>, id: string, code: string, now: int, limits: Limits)
    requires Monotone(events + [Verify(id, code, now)])
    ensures Verifies(Run(events, limits), id, code, now, limits) <==> Verifies(KeepAll(events), id, code, now, limits)
  {
    var all := events + [Verify(id, code, now)];
    assert forall i :: 0 <= i < |events| ==> all[i] == events[i];
    assert all[|events|] == Verify(id, code, now);
    RunLosesOnlyExpired(events, limits, now);
  }

  /** The event is the registration that a Verify of this id refers to: the last word on the id. */
  predicate Latest(events: seq<Event>, id: string, i: int) {
    && 0 <= i < |events| && events[i].Register? && events[i].id == id
    && forall j :: i < j < |events| && !events[j].Verify? ==> events[j].id != id
  }

  /** What a map that never evicts answers: it looks at nothing but the history. */
  ghost predicate HistoryVerifies(events: seq<Event>, id: string, code: string, now: int, limits: Limits) {
    exists i :: Latest(events, id, i) && events[i].code == code &&
      !Expired(Entry(events[i].code, events[i].now), limits, now)
  }

  lemma {:induction false} KeepAllMeaning(events: seq<Event>, id: string)
    ensures id in KeepAll(events) <==> exists i :: Latest(events, id, i)
    ensures forall i :: Latest(events, id, i) ==>
      id in KeepAll(events) && KeepAll(events)[id] == Entry(events[i].code, events[i].now)
  {
    if events != [] {
      var k := |events| - 1;
      var before := events[..k];
      KeepAllMeaning(before, id);
      LatestExtends(events, id);
      if id in KeepAll(events) {
        if events[k].Register? && events[k].id == id {
          assert Latest(events, id, k);
        } else {
          var i :| Latest(before, id, i);
          assert Latest(events, id, i);
        }
      }
    }
  }

  /** The latest registration after one more event: that event, or the one before unless it has been overruled. */
  lemma {:induction false} LatestExtends(events: seq<Event>, id: string)
    requires events != []
    ensures var k := |events| - 1;
      forall i :: Latest(events, id, i) <==>
        (if i == k then events[k].Register? && events[k].id == id
         else Latest(events[..k], id, i) && (events[k].Verify? || events[k].id != id))
  {
    var k := |events| - 1;
    assert forall j :: 0 <= j < k ==> events[..k][j] == events[j];
  }

  /** The answer of a Verify in terms of the history alone: some registration of the id carries this code, nothing
      registered or deleted the id since, and it is not too old. */
  lemma {:induction false} VerifyMeaning(events: seq<Event>, id: string, code: string, now: int, limits: Limits)
    requires Monotone(events + [Verify(id, code, now)])
    ensures Verifies(Run(events, limits), id, code, now, limits) <==> HistoryVerifies(events, id, code, now, limits)
  {
    EvictionUnobservable(events, id, code, now, limits);
    KeepAllMeaning(events, id);
  }

  predicate LastRegister(events: seq<Event>, i: int) {
    0 <= i < |events| && events[i].Register? && forall j :: i < j < |events| ==> !events[j].Register?
  }

  predicate AllValid(store: Store, limits: Limits, now: int) {
    forall id :: id in store ==> !Expired(store[id], limits, now)
  }

  lemma {:induction false} ValidWithout(store: Store, id: string, limits: Limits, now: int)
    requires AllValid(store, limits, now)
    ensures AllValid(store - {id}, limits, now)
  {}

  /** A registration leaves more than maxSize entries only if all of them are still valid. */
  lemma {:induction false} SweepLeavesValid(store: Store, id: string, code: string, now: int, sweepTime: int,
    limits: Limits)
    requires |Registered(store, id, code, now, sweepTime, limits)| > limits.maxSize
    ensures AllValid(Registered(store, id, code, now, sweepTime, limits), limits, sweepTime)
  {}

  /** The map outgrows its limit only with codes that are all in use: after every run that leaves more than maxSize
      entries, none of them had expired at the last registration. */
  lemma {:induction false} OversizedMeansValid(events: seq<Event>, limits: Limits)
    requires |Run(events, limits)| > limits.maxSize
    ensures exists i :: LastRegister(events, i) && AllValid(Run(events, limits), limits, events[i].sweepTime)
  {
    var k := |events| - 1;
    var e, init := events[k], events[..k];
    var before := Run(init, limits);
    if e.Register? {
      SweepLeavesValid(before, e.id, e.code, e.now, e.sweepTime, limits);
      assert LastRegister(events, k);
    } else {
      if e.Delete? {
        RemovalShrinks(before, e.id);
      }
      OversizedMeansValid(init, limits);
      var i :| LastRegister(init, i) && AllValid(before, limits, init[i].sweepTime);
      LastRegisterStays(events, i);
      if e.Delete? {
        ValidWithout(before, e.id, limits, events[i].sweepTime);
      }
    }
  }

  lemma {:induction false} LastRegisterStays(events: seq<Event>, i: int)
    requires events != [] && LastRegister(events[..|events| - 1], i) && !events[|events| - 1].Register?
    ensures LastRegister(events, i) && events[..|events| - 1][i] == events[i]
  {
    assert forall j :: 0 <= j < |events| - 1 ==> events[..|events| - 1][j] == events[j];
  }

  lemma {:induction false} RemovalShrinks(store: Store, id: string)
    ensures |store - {id}| <= |store|
  {
    assert (store - {id}).Keys <= store.Keys;
    SubsetSize((store - {id}).Keys, store.Keys);
    assert |(store - {id}).Keys| == |store - {id}| && |store.Keys| == |store|;
  }

  lemma {:induction false} SubsetSize(a: set<string>, b: set<string>)
    requires a <= b
    ensures |a| <= |b|
  {
    assert b == a + (b - a);
    assert |b| == |a| + |b - a|;
  }

  // ---------------------------------------------------------------------------------------------------
  // Keys
  // ---------------------------------------------------------------------------------------------------

  const EMAIL_VERIFICATION := "v"
  const PASSWORD_RESET := "r"

  /** With purposes of one length, such as the two one-character ones, different pairs have different ids. */
  lemma {:induction false} IdsDistinct(p: string, key: string, p': string, key': string)
    requires |p| == |p'|
    ensures p + key == p' + key' <==> p == p' && key == key'
  {
    if p + key == p' + key' {
      assert p == (p + key)[..|p|] == (p' + key')[..|p|] == p';
      assert key == (p + key)[|p|..] == (p' + key')[|p|..] == key';
    }
  }

  /** A verification code and a password reset never share an id, whatever the keys. */
  lemma {:induction false} PurposesDistinct(key: string, key': string)
    ensures EMAIL_VERIFICATION + key != PASSWORD_RESET + key'
  {
    IdsDistinct(EMAIL_VERIFICATION, key, PASSWORD_RESET, key');
  }

  /** Ids collide in general exactly when the longer purpose is the shorter one followed by the start of its key. */
  lemma {:induction false} IdsCollide(p: string, key: string, p': string, key': string)
    requires |p| <= |p'|
    ensures p + key == p' + key' <==> exists mid :: p' == p + mid && key == mid + key'
  {
    if p + key == p' + key' {
      var mid := p'[|p|..];
      assert p == (p + key)[..|p|] == (p' + key')[..|p|] == p'[..|p|];
      assert p' == p + mid;
      assert key == (p + key)[|p|..] == (p' + key')[|p|..] == mid + key';
    }
    if mid :| p' == p + mid && key == mid + key' {
      assert p + (mid + key') == (p + mid) + key';
    }
  }
}
