/** What the handlers of TopUpCredit do to an order: a notification all of whose database calls work credits it,
    whatever the other threads do in between, an administrator's completion does so in one call, and a quota increase
    is lost by a failing call and by nothing else. */
module TopUpEffects {
  import opened Basics
  import opened TopUpCredit
  import OrderLock

  /** The value that quotaOf has in every reached state. */
  function Quotas(quotaPerUnit: real): int -> int {
    amount => QuotaToAdd(amount, quotaPerUnit)
  }

  /** The fraction of amount x quotaPerUnit is cut off: the result is the nearest integer towards zero. */
  lemma {:induction false} QuotaToAddMeaning(amount: int, quotaPerUnit: real)
    ensures var q, exact := QuotaToAdd(amount, quotaPerUnit) as real, amount as real * quotaPerUnit;
      && (exact >= 0.0 ==> 0.0 <= q && q <= exact && exact < q + 1.0)
      && (exact <= 0.0 ==> q <= 0.0 && exact <= q && q - 1.0 < exact)
  {
    var exact := amount as real * quotaPerUnit;
    assert exact < 0.0 ==> (-exact).Floor as real <= -exact < (-exact).Floor as real + 1.0;
  }

  // ---------------------------------------------------------------------------------------------------
  // Runs by their last event
  // ---------------------------------------------------------------------------------------------------

  lemma {:induction false} RunLast(s: State, events: seq<Event>, e: Event, quotaOf: int -> int)
    ensures Run(s, events + [e], quotaOf) == Next(Run(s, events, quotaOf), e, quotaOf)
    decreases |events|
  {
    if events == [] {
      assert events + [e] == [e];
      assert [e][1..] == [];
    } else {
      assert (events + [e])[1..] == events[1..] + [e];
      RunLast(Next(s, events[0], quotaOf), events[1..], e, quotaOf);
    }
  }

  lemma {:induction false} ReachedLast(n: nat, events: seq<Event>, e: Event, quotaPerUnit: real)
    ensures Reached(n, events + [e], quotaPerUnit) == Next(Reached(n, events, quotaPerUnit), e, Quotas(quotaPerUnit))
    ensures OrderLock.Inv(Reached(n, events, quotaPerUnit).lock) &&
      Inv(Reached(n, events, quotaPerUnit), Quotas(quotaPerUnit))
  {
    ReachedInv(n, events, quotaPerUnit);
    RunLast(Init(n), events, e, Quotas(quotaPerUnit));
  }

  lemma {:induction false} ReachedThree(n: nat, events: seq<Event>, e: Event, quotaPerUnit: real)
    ensures var s, q := Reached(n, events, quotaPerUnit), Quotas(quotaPerUnit);
      Reached(n, events + [e, e, e], quotaPerUnit) == Next(Next(Next(s, e, q), e, q), e, q)
  {
    ReachedLast(n, events, e, quotaPerUnit);
    ReachedLast(n, events + [e], e, quotaPerUnit);
    ReachedLast(n, events + [e] + [e], e, quotaPerUnit);
    assert events + [e] + [e] + [e] == events + [e, e, e];
  }

  // ---------------------------------------------------------------------------------------------------
  // Lost quota increases
  // ---------------------------------------------------------------------------------------------------

  /** The event is the failing quota increase of a thread that holds k's lock and has saved the order. */
  predicate LosesQuota(s: State, e: Event, k: TradeNo) {
    e.Work? && !e.ok && s.InLock(e.t) && s.lock.pcs[e.t].k == k && s.jobs[e.t].AddQuota?
  }

  lemma {:induction false} NextMissed(s: State, e: Event, quotaOf: int -> int, k: TradeNo)
    ensures k in Next(s, e, quotaOf).missed <==> k in s.missed || LosesQuota(s, e, k)
  {}

  /** Event i of the run is such a failure. */
  predicate LostAt(n: nat, events: seq<Event>, quotaPerUnit: real, k: TradeNo, i: nat) {
    i < |events| && LosesQuota(Reached(n, events[..i], quotaPerUnit), events[i], k)
  }

  lemma {:induction false} LostBefore(n: nat, events: seq<Event>, e: Event, quotaPerUnit: real, k: TradeNo, i: nat)
    ensures LostAt(n, events + [e], quotaPerUnit, k, i) <==>
      LostAt(n, events, quotaPerUnit, k, i) || (i == |events| && LosesQuota(Reached(n, events, quotaPerUnit), e, k))
  {
    if i <= |events| {
      assert (events + [e])[..i] == events[..i];
      assert events[..|events|] == events;
    }
  }

  /** In every run the quota of an order has been missed exactly if some event of the run was a failing quota increase
      for it. */
  lemma {:induction false} MissedMeaning(n: nat, events: seq<Event>, quotaPerUnit: real, k: TradeNo)
    ensures k in Reached(n, events, quotaPerUnit).missed <==> exists i :: LostAt(n, events, quotaPerUnit, k, i)
  {
    if events != [] {
      var last := |events| - 1;
      var before, e := events[..last], events[last];
      assert events == before + [e];
      MissedMeaning(n, before, quotaPerUnit, k);
      ReachedLast(n, before, e, quotaPerUnit);
      NextMissed(Reached(n, before, quotaPerUnit), e, Quotas(quotaPerUnit), k);
      forall i: nat ensures LostAt(n, events, quotaPerUnit, k, i) <==>
        LostAt(n, before, quotaPerUnit, k, i) || (i == last && LosesQuota(Reached(n, before, quotaPerUnit), e, k))
      {
        LostBefore(n, before, e, quotaPerUnit, k, i);
      }
      if LosesQuota(Reached(n, before, quotaPerUnit), e, k) {
        assert LostAt(n, events, quotaPerUnit, k, last);
      }
    }
  }

  /** When every database call works and every handler has returned, each user's quota is the sum over all of the user's
      successful orders. */
  lemma {:induction false} QuotaWhenAllCallsWork(n: nat, events: seq<Event>, quotaPerUnit: real, u: User)
    requires forall i :: 0 <= i < |events| && events[i].Work? ==> events[i].ok
    requires forall t :: 0 <= t < |Reached(n, events, quotaPerUnit).lock.pcs| ==>
      Reached(n, events, quotaPerUnit).lock.pcs[t].Idle?
    ensures var s := Reached(n, events, quotaPerUnit);
      s.Quota(u) == Sum(PaidOrders(s), k => Worth(s, u, k, quotaPerUnit))
  {
    var s := Reached(n, events, quotaPerUnit);
    forall k ensures k !in s.missed {
      MissedMeaning(n, events, quotaPerUnit, k);
    }
    assert s.missed == {};
    QuotaIsSumOverPaidOrders(n, events, quotaPerUnit, u);
  }

  // ---------------------------------------------------------------------------------------------------
  // A notification
  // ---------------------------------------------------------------------------------------------------

  predicate IsPending(s: State, k: TradeNo) {
    k in s.orders && s.orders[k].provider == Epay && s.orders[k].status == Pending
  }

  predicate HoldsLock(s: State, t: Thread, k: TradeNo) {
    s.InLock(t) && s.lock.pcs[t].k == k
  }

  /** Everybody's quota but u's is as before, and u's has grown by q. */
  ghost predicate QuotaGrew(s: State, s': State, u: User, q: int) {
    forall v: User :: s'.Quota(v) == s.Quota(v) + if v == u then q else 0
  }

  /** s' is s with order k saved as given, its user credited once, and thread t done. */
  ghost predicate CreditedOnce(s: State, s': State, t: Thread, k: TradeNo, order: TopUp, q: int) {
    && s'.lock == s.lock && |s'.jobs| == |s.jobs| && s'.missed == s.missed
    && (forall u :: 0 <= u < |s.jobs| ==> s'.jobs[u] == if u == t then Nothing else s.jobs[u])
    && s'.orders == s.orders[k := order]
    && s'.credits == s.credits + [Credit(k, order.user, q)]
    && QuotaGrew(s, s', order.user, q)
  }

  lemma {:induction false} ThreeCalls(s: State, t: Thread, k: TradeNo, quotaOf: int -> int)
    requires HoldsLock(s, t, k) && s.jobs[t].Notify? && IsPending(s, k)
    ensures var call := Work(t, true);
      var order := s.orders[k].(status := Success, paymentMethod := s.jobs[t].actualMethod);
      CreditedOnce(s, Next(Next(Next(s, call, quotaOf), call, quotaOf), call, quotaOf), t, k, order,
        quotaOf(s.orders[k].amount))
  {}

  /** In every reached state a notification that holds the lock of a pending order and whose three database calls work
      leaves the order successful with the method of the notification, adds one credit, and lets the user's quota grow
      by what the amount is worth; nothing else changes. */
  lemma {:induction false} NotificationCredits(n: nat, events: seq<Event>, quotaPerUnit: real, t: Thread, k: TradeNo)
    requires HoldsLock(Reached(n, events, quotaPerUnit), t, k) && IsPending(Reached(n, events, quotaPerUnit), k)
    requires Reached(n, events, quotaPerUnit).jobs[t].Notify?
    ensures var s := Reached(n, events, quotaPerUnit);
      var order := s.orders[k].(status := Success, paymentMethod := s.jobs[t].actualMethod);
      CreditedOnce(s, Reached(n, events + [Work(t, true), Work(t, true), Work(t, true)], quotaPerUnit), t, k, order,
        QuotaToAdd(order.amount, quotaPerUnit))
  {
    ThreeCalls(Reached(n, events, quotaPerUnit), t, k, Quotas(quotaPerUnit));
    ReachedThree(n, events, Work(t, true), quotaPerUnit);
  }

  /** Otherwise the handlers do not touch the database: with no pending Epay order, or when reading or saving it fails,
      a notification ends without a trace; so does a completion that fails, finds no order, or finds one that is not
      pending or worth nothing. */
  lemma {:induction false} HandlersWithoutEffect(n: nat, events: seq<Event>, quotaPerUnit: real, t: Thread, k: TradeNo,
    ok: bool)
    requires HoldsLock(Reached(n, events, quotaPerUnit), t, k)
    requires var s := Reached(n, events, quotaPerUnit);
      || (s.jobs[t].Notify? && (!ok || !IsPending(s, k)))
      || (s.jobs[t].SaveOrder? && !ok)
      || (s.jobs[t].Complete? &&
          (!ok || k !in s.orders || (s.orders[k].provider == Epay &&
            (s.orders[k].status != Pending || QuotaToAdd(s.orders[k].amount, quotaPerUnit) <= 0))))
    ensures var s := Reached(n, events, quotaPerUnit);
      Reached(n, events + [Work(t, ok)], quotaPerUnit) == s.(jobs := s.jobs[t := Nothing])
  {
    ReachedLast(n, events, Work(t, ok), quotaPerUnit);
  }

  /** AdminCompleteTopUp does all of it in one transaction and keeps the payment method. */
  lemma {:induction false} CompletionCredits(n: nat, events: seq<Event>, quotaPerUnit: real, t: Thread, k: TradeNo)
    requires HoldsLock(Reached(n, events, quotaPerUnit), t, k) && IsPending(Reached(n, events, quotaPerUnit), k)
    requires Reached(n, events, quotaPerUnit).jobs[t].Complete?
    requires QuotaToAdd(Reached(n, events, quotaPerUnit).orders[k].amount, quotaPerUnit) > 0
    ensures var s := Reached(n, events, quotaPerUnit);
      CreditedOnce(s, Reached(n, events + [Work(t, true)], quotaPerUnit), t, k, s.orders[k].(status := Success),
        QuotaToAdd(s.orders[k].amount, quotaPerUnit))
  {
    ReachedLast(n, events, Work(t, true), quotaPerUnit);
  }

  // ---------------------------------------------------------------------------------------------------
  // A notification among other events
  // ---------------------------------------------------------------------------------------------------

  /** The database calls of thread t. */
  function Calls(events: seq<Event>, t: Thread): nat {
    if events == [] then 0
    else
      var e := events[|events| - 1];
      Calls(events[..|events| - 1], t) + if e.Work? && e.t == t then 1 else 0
  }

  predicate AllWork(events: seq<Event>, t: Thread) {
    forall i :: 0 <= i < |events| && events[i].Work? && events[i].t == t ==> events[i].ok
  }

  /** How far thread t has come with the notification for order k, which was `order` at its beginning. */
  predicate Phase(s: State, t: Thread, k: TradeNo, order: TopUp, paidBy: string, calls: nat, q: int) {
    var paid := order.(status := Success, paymentMethod := paidBy);
    && k in s.orders && s.orders[k] == (if calls < 2 then order else paid)
    && (calls < 3 ==>
          && HoldsLock(s, t, k)
          && s.jobs[t] == if calls == 0 then Notify(paidBy) else if calls == 1 then SaveOrder(paid) else AddQuota(paid))
    && (calls >= 3 ==> Credit(k, order.user, q) in s.credits)
  }

  /** An event of another thread, or of none, leaves a thread that is at work alone. */
  lemma {:induction false} OtherEvent(s: State, e: Event, quotaOf: int -> int, t: Thread, k: TradeNo)
    requires HoldsLock(s, t, k) && s.jobs[t] != Nothing && !(e.Work? && e.t == t)
    ensures var s' := Next(s, e, quotaOf); HoldsLock(s', t, k) && s'.jobs[t] == s.jobs[t]
  {
    match e
    case Begin(u, j, job) =>
      if LockMove(s, u, OrderLock.Start(j)).Some? {
        OrderLock.StepMovesOnly(s.lock, u, OrderLock.Start(j));
      }
    case LockStep(u) =>
      if LockMove(s, u, OrderLock.Continue).Some? {
        OrderLock.StepMovesOnly(s.lock, u, OrderLock.Continue);
      }
    case _ =>
  }

  lemma {:induction false} CreditsGrow(s: State, e: Event, quotaOf: int -> int)
    ensures s.credits <= Next(s, e, quotaOf).credits
  {}

  lemma {:induction false} PhaseStep(s: State, e: Event, quotaOf: int -> int, t: Thread, k: TradeNo, order: TopUp,
    paidBy: string, calls: nat)
    requires Inv(s, quotaOf) && Exclusive(s.lock.pcs) && order.provider == Epay && order.status == Pending
    requires Phase(s, t, k, order, paidBy, calls, quotaOf(order.amount))
    requires e.Work? && e.t == t ==> e.ok
    ensures Phase(Next(s, e, quotaOf), t, k, order, paidBy, calls + if e.Work? && e.t == t then 1 else 0,
              quotaOf(order.amount))
  {
    NextWrites(s, e, quotaOf, k);
    CreditsGrow(s, e, quotaOf);
    if calls < 3 && !(e.Work? && e.t == t) {
      OtherEvent(s, e, quotaOf, t, k);
    }
  }

  /** One more event of a run, in the terms of PhaseStep. */
  lemma {:induction false} PhaseNext(n: nat, events: seq<Event>, e: Event, quotaPerUnit: real, t: Thread, k: TradeNo,
    order: TopUp, paidBy: string, calls: nat)
    requires Phase(Reached(n, events, quotaPerUnit), t, k, order, paidBy, calls, QuotaToAdd(order.amount, quotaPerUnit))
    requires order.provider == Epay && order.status == Pending && (e.Work? && e.t == t ==> e.ok)
    ensures Phase(Reached(n, events + [e], quotaPerUnit), t, k, order, paidBy,
              calls + if e.Work? && e.t == t then 1 else 0, QuotaToAdd(order.amount, quotaPerUnit))
  {
    ReachedLast(n, events, e, quotaPerUnit);
    LockExcludes(Reached(n, events, quotaPerUnit).lock);
    PhaseStep(Reached(n, events, quotaPerUnit), e, Quotas(quotaPerUnit), t, k, order, paidBy, calls);
  }

  lemma {:induction false} PhaseAfter(n: nat, events: seq<Event>, rest: seq<Event>, quotaPerUnit: real, t: Thread,
    k: TradeNo, order: TopUp, paidBy: string)
    requires Phase(Reached(n, events, quotaPerUnit), t, k, order, paidBy, 0, QuotaToAdd(order.amount, quotaPerUnit))
    requires order.provider == Epay && order.status == Pending && AllWork(rest, t)
    ensures Phase(Reached(n, events + rest, quotaPerUnit), t, k, order, paidBy, Calls(rest, t),
              QuotaToAdd(order.amount, quotaPerUnit))
    decreases |rest|
  {
    if rest == [] {
      assert events + rest == events;
    } else {
      var last := |rest| - 1;
      var before, e := rest[..last], rest[last];
      assert forall i :: 0 <= i < last ==> before[i] == rest[i];
      PhaseAfter(n, events, before, quotaPerUnit, t, k, order, paidBy);
      assert events + rest == events + before + [e];
      PhaseNext(n, events + before, e, quotaPerUnit, t, k, order, paidBy, Calls(before, t));
    }
  }

  /** Whatever other threads, other orders and other providers do in between, and whatever follows: once a
      notification that found its order pending has made three calls that worked, the order is and stays successful
      with the method of the notification, and the user has the one credit for it. */
  lemma {:induction false} NotificationSettles(n: nat, events: seq<Event>, rest: seq<Event>, quotaPerUnit: real,
    t: Thread, k: TradeNo)
    requires HoldsLock(Reached(n, events, quotaPerUnit), t, k) && IsPending(Reached(n, events, quotaPerUnit), k)
    requires Reached(n, events, quotaPerUnit).jobs[t].Notify? && AllWork(rest, t) && Calls(rest, t) >= 3
    ensures var s, s' := Reached(n, events, quotaPerUnit), Reached(n, events + rest, quotaPerUnit);
      && k in s'.orders
      && s'.orders[k] == s.orders[k].(status := Success, paymentMethod := s.jobs[t].actualMethod)
      && Credit(k, s.orders[k].user, QuotaToAdd(s.orders[k].amount, quotaPerUnit)) in s'.credits
      && k !in s'.missed
  {
    var s := Reached(n, events, quotaPerUnit);
    PhaseAfter(n, events, rest, quotaPerUnit, t, k, s.orders[k], s.jobs[t].actualMethod);
    ReachedInv(n, events + rest, quotaPerUnit);
  }

  // ---------------------------------------------------------------------------------------------------
  // An order from its creation to its credit
  // ---------------------------------------------------------------------------------------------------

  predicate AllIdle(s: State) {
    forall t :: 0 <= t < |s.lock.pcs| ==> s.lock.pcs[t].Idle?
  }

  /** A step of LockOrder that the thread can take. */
  lemma {:induction false} LockStepTaken(n: nat, events: seq<Event>, quotaPerUnit: real, t: Thread, l: OrderLock.State)
    requires var s := Reached(n, events, quotaPerUnit);
      s.lock.IsThread(t) && !s.lock.pcs[t].Critical? && OrderLock.Step(s.lock, t, OrderLock.Continue) == Some(l)
    ensures Reached(n, events + [LockStep(t)], quotaPerUnit) == Reached(n, events, quotaPerUnit).(lock := l)
  {
    ReachedLast(n, events, LockStep(t), quotaPerUnit);
  }

  /** With nobody else at it LockOrder takes seven steps after its call. */
  function Entering(t: Thread, k: TradeNo, job: Job): seq<Event> {
    [Begin(t, k, job), LockStep(t), LockStep(t), LockStep(t), LockStep(t), LockStep(t), LockStep(t), LockStep(t)]
  }

  lemma {:induction false} Begins(n: nat, events: seq<Event>, quotaPerUnit: real, t: Thread, k: TradeNo, job: Job)
    requires t < |Reached(n, events, quotaPerUnit).lock.pcs| && AllIdle(Reached(n, events, quotaPerUnit))
    requires job.Notify? || job.Complete?
    ensures var s := Reached(n, events, quotaPerUnit);
      && t < |s.jobs| && s.lock.locks == map[] && s.lock.createHolder == None
      && Reached(n, events + [Begin(t, k, job)], quotaPerUnit) ==
         s.(lock := s.lock.At(t, OrderLock.LockCreate(k)), jobs := s.jobs[t := job])
  {
    ReachedLast(n, events, Begin(t, k, job), quotaPerUnit);
    OrderLock.IdleTableIsEmpty(Reached(n, events, quotaPerUnit).lock);
  }

  /** LockOrder's steps from the call to the new entry in the table. */
  lemma {:induction false} TakesTable(n: nat, events: seq<Event>, quotaPerUnit: real, t: Thread, k: TradeNo)
    requires var l := Reached(n, events, quotaPerUnit).lock;
      l.IsThread(t) && l.pcs[t] == OrderLock.LockCreate(k) && l.createHolder.None? && k !in l.locks
    ensures var s := Reached(n, events, quotaPerUnit);
      var s' := Reached(n, events + [LockStep(t), LockStep(t), LockStep(t)], quotaPerUnit);
      s' == s.(lock := s'.lock) && ReadyToCount(s'.lock, t, k)
  {
    var l := Reached(n, events, quotaPerUnit).lock;
    var l1 := l.(createHolder := Some(t)).At(t, OrderLock.Load(k));
    LockStepTaken(n, events, quotaPerUnit, t, l1);
    var l2 := l1.(heap := l1.heap[l.next := OrderLock.Rcm(None, 0)], next := l.next + 1)
      .At(t, OrderLock.Store(k, l.next));
    LockStepTaken(n, events + [LockStep(t)], quotaPerUnit, t, l2);
    var l3 := l2.(locks := l2.locks[k := l.next]).At(t, OrderLock.ReadCount(k, l.next));
    LockStepTaken(n, events + [LockStep(t)] + [LockStep(t)], quotaPerUnit, t, l3);
    assert events + [LockStep(t)] + [LockStep(t)] + [LockStep(t)] ==
      events + [LockStep(t), LockStep(t), LockStep(t)];
  }

  predicate ReadyToCount(l: OrderLock.State, t: Thread, k: TradeNo) {
    l.IsThread(t) && l.pcs[t].ReadCount? && l.pcs[t].k == k && l.pcs[t].o in l.heap && l.heap[l.pcs[t].o].holder.None?
  }

  /** ... to the count. */
  lemma {:induction false} TakesCount(n: nat, events: seq<Event>, quotaPerUnit: real, t: Thread, k: TradeNo)
    requires ReadyToCount(Reached(n, events, quotaPerUnit).lock, t, k)
    ensures var s := Reached(n, events, quotaPerUnit);
      var s' := Reached(n, events + [LockStep(t), LockStep(t)], quotaPerUnit);
      s' == s.(lock := s'.lock) && ReadyToLock(s'.lock, t, k)
  {
    var l := Reached(n, events, quotaPerUnit).lock;
    var o := l.pcs[t].o;
    var l1 := l.At(t, OrderLock.WriteCount(k, o, l.heap[o].refCount));
    LockStepTaken(n, events, quotaPerUnit, t, l1);
    var l2 := l1.(heap := l1.heap[o := OrderLock.Rcm(None, l.heap[o].refCount + 1)])
      .At(t, OrderLock.UnlockCreate(k, o));
    LockStepTaken(n, events + [LockStep(t)], quotaPerUnit, t, l2);
    assert events + [LockStep(t)] + [LockStep(t)] == events + [LockStep(t), LockStep(t)];
  }

  predicate ReadyToLock(l: OrderLock.State, t: Thread, k: TradeNo) {
    && l.IsThread(t) && l.pcs[t].UnlockCreate? && l.pcs[t].k == k && l.pcs[t].o in l.heap
    && l.heap[l.pcs[t].o].holder.None?
  }

  /** ... to the order's mutex. */
  lemma {:induction false} TakesMutex(n: nat, events: seq<Event>, quotaPerUnit: real, t: Thread, k: TradeNo)
    requires ReadyToLock(Reached(n, events, quotaPerUnit).lock, t, k) && t < |Reached(n, events, quotaPerUnit).jobs|
    ensures var s := Reached(n, events, quotaPerUnit);
      var s' := Reached(n, events + [LockStep(t), LockStep(t)], quotaPerUnit);
      s' == s.(lock := s'.lock) && HoldsLock(s', t, k)
  {
    var l := Reached(n, events, quotaPerUnit).lock;
    var o := l.pcs[t].o;
    var l1 := OrderLock.FreeCreate(l).At(t, OrderLock.LockMutex(k, o));
    LockStepTaken(n, events, quotaPerUnit, t, l1);
    var l2 := l1.(heap := l1.heap[o := l1.heap[o].(holder := Some(t))]).At(t, OrderLock.Critical(k, o));
    LockStepTaken(n, events + [LockStep(t)], quotaPerUnit, t, l2);
    assert events + [LockStep(t)] + [LockStep(t)] == events + [LockStep(t), LockStep(t)];
  }

  lemma {:induction false} Enters(n: nat, events: seq<Event>, quotaPerUnit: real, t: Thread, k: TradeNo, job: Job)
    requires t < |Reached(n, events, quotaPerUnit).lock.pcs| && AllIdle(Reached(n, events, quotaPerUnit))
    requires job.Notify? || job.Complete?
    ensures var s, s' := Reached(n, events, quotaPerUnit), Reached(n, events + Entering(t, k, job), quotaPerUnit);
      t < |s.jobs| && HoldsLock(s', t, k) && s' == s.(lock := s'.lock, jobs := s.jobs[t := job])
  {
    Begins(n, events, quotaPerUnit, t, k, job);
    var called := events + [Begin(t, k, job)];
    TakesTable(n, called, quotaPerUnit, t, k);
    var stored := called + [LockStep(t), LockStep(t), LockStep(t)];
    TakesCount(n, stored, quotaPerUnit, t, k);
    var counted := stored + [LockStep(t), LockStep(t)];
    TakesMutex(n, counted, quotaPerUnit, t, k);
    assert counted + [LockStep(t), LockStep(t)] == events + Entering(t, k, job);
  }

  /** The whole way of an order: from any reached state in which nobody is at work, creating a pending order and
      notifying its payment, with every call working, leaves it successful and its user credited. */
  lemma {:induction false} CreatedAndPaid(n: nat, events: seq<Event>, quotaPerUnit: real, t: Thread, k: TradeNo,
    order: TopUp, paidBy: string)
    requires t < |Reached(n, events, quotaPerUnit).lock.pcs| && AllIdle(Reached(n, events, quotaPerUnit))
    requires k !in Reached(n, events, quotaPerUnit).orders && order.provider == Epay && order.status == Pending
    ensures var s := Reached(n, events, quotaPerUnit);
      var s' := Reached(n, events + [Create(k, order)] + Entering(t, k, Notify(paidBy)) +
        [Work(t, true), Work(t, true), Work(t, true)], quotaPerUnit);
      && s'.orders == s.orders[k := order.(status := Success, paymentMethod := paidBy)]
      && QuotaGrew(s, s', order.user, QuotaToAdd(order.amount, quotaPerUnit))
  {
    ReachedLast(n, events, Create(k, order), quotaPerUnit);
    var es := events + [Create(k, order)];
    Enters(n, es, quotaPerUnit, t, k, Notify(paidBy));
    NotificationCredits(n, es + Entering(t, k, Notify(paidBy)), quotaPerUnit, t, k);
  }
}
