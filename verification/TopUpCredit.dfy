/** Crediting of Epay top-up orders (controller/topup.go) on top of the order lock: any number of success
    notifications and administrator completions, duplicated and interleaved at will. Inside the lock every
    database call is a step of its own and may fail. */
module TopUpCredit {
  import opened Basics
  import OrderLock

  type TradeNo = OrderLock.TradeNo
  type Thread = OrderLock.Thread
  type User = nat

  datatype Provider = Epay | OtherProvider
  datatype Status = Pending | Success | Closed

  datatype TopUp = TopUp(user: User, amount: int, paymentMethod: string, provider: Provider, status: Status)

  /** What a thread still has to do between LockOrder and UnlockOrder. */
  datatype Job =
    | Nothing
    | Notify(actualMethod: string)  // EpayNotify, the order not read yet
    | SaveOrder(topUp: TopUp)       // EpayNotify, holding the order it read, already marked successful
    | AddQuota(topUp: TopUp)        // EpayNotify, the order saved
    | Complete                      // AdminCompleteTopUp, its transaction not run yet

  /** A successful increase of a user's quota, for an order. */
  datatype Credit = Credit(order: TradeNo, user: User, quota: int)

  datatype State = State(
    lock: OrderLock.State,
    jobs: seq<Job>,
    orders: map<TradeNo, TopUp>,
    quota: map<User, int>,   // quota added for Epay orders
    credits: seq<Credit>,    // history of the additions
    missed: set<TradeNo>)    // orders saved as successful whose quota increase failed
  {
    function Quota(u: User): int {
      if u in quota then quota[u] else 0
    }

    predicate InLock(t: Thread) {
      t < |lock.pcs| && t < |jobs| && lock.pcs[t].Critical?
    }
  }

  function Init(threads: nat): State {
    State(OrderLock.Init(threads), seq(threads, _ => Nothing), map[], map[], [], {})
  }

  datatype Event =
    | Create(k: TradeNo, topUp: TopUp)           // a row is inserted, an Epay order always as pending
    | Begin(t: Thread, k: TradeNo, job: Job)     // a handler enters LockOrder(k)
    | LockStep(t: Thread)                        // a step of LockOrder or UnlockOrder
    | Work(t: Thread, ok: bool)                  // the next database call inside the lock; ok: it succeeded
    | Foreign(k: TradeNo, topUp: TopUp)          // a handler of another provider rewrites its own order

  /** decimal's IntPart: the fraction is cut off. */
  function IntPart(x: real): int {
    if x >= 0.0 then x.Floor else -((-x).Floor)
  }

  /** The quota an order of this amount buys. */
  function QuotaToAdd(amount: int, quotaPerUnit: real): int {
    IntPart(amount as real * quotaPerUnit)
  }

  function AddCredit(s: State, k: TradeNo, topUp: TopUp, quotaOf: int -> int): State {
    var q := quotaOf(topUp.amount);
    s.(quota := s.quota[topUp.user := s.Quota(topUp.user) + q],
       credits := s.credits + [Credit(k, topUp.user, q)])
  }

  /** One database call of thread t, which holds the lock of order k. */
  function RunJob(s: State, t: Thread, ok: bool, quotaOf: int -> int): State
    requires s.InLock(t)
  {
    var k := s.lock.pcs[t].k;
    match s.jobs[t]
    case Nothing => s
    case Notify(actualMethod) =>
      if ok && k in s.orders && s.orders[k].provider == Epay && s.orders[k].status == Pending
      then s.(jobs := s.jobs[t := SaveOrder(s.orders[k].(paymentMethod := actualMethod, status := Success))])
      else s.(jobs := s.jobs[t := Nothing])
    case SaveOrder(topUp) =>
      if ok then s.(orders := s.orders[k := topUp], jobs := s.jobs[t := AddQuota(topUp)])
      else s.(jobs := s.jobs[t := Nothing])
    case AddQuota(topUp) =>
      if ok then AddCredit(s, k, topUp, quotaOf).(jobs := s.jobs[t := Nothing])
      else s.(missed := s.missed + {k}, jobs := s.jobs[t := Nothing])
    case Complete =>
      if ok && k in s.orders && s.orders[k].provider == Epay && s.orders[k].status == Pending &&
         quotaOf(s.orders[k].amount) > 0
      then
        AddCredit(s, k, s.orders[k], quotaOf)
          .(orders := s.orders[k := s.orders[k].(status := Success)], jobs := s.jobs[t := Nothing])
      else s.(jobs := s.jobs[t := Nothing])
  }

  /** The lock step of thread t, if it can take one; UnlockOrder is only entered with the job finished. */
  function LockMove(s: State, t: Thread, a: OrderLock.Action): Option<OrderLock.State> {
    if !s.lock.IsThread(t) || (s.InLock(t) && s.jobs[t] != Nothing) then None
    else OrderLock.Step(s.lock, t, a)
  }

  /** The state after an event; an event that is not possible changes nothing. */
  function Next(s: State, e: Event, quotaOf: int -> int): State {
    match e
    case Create(k, topUp) =>
      if k in s.orders || (topUp.provider == Epay && topUp.status != Pending) then s
      else s.(orders := s.orders[k := topUp])
    case Begin(t, k, job) =>
      var l := LockMove(s, t, OrderLock.Start(k));
      if t < |s.jobs| && l.Some? && (job.Notify? || job.Complete? || job.Nothing?)
      then s.(lock := l.value, jobs := s.jobs[t := job]) else s
    case LockStep(t) =>
      var l := LockMove(s, t, OrderLock.Continue);
      if l.Some? then s.(lock := l.value) else s
    case Work(t, ok) => if s.InLock(t) then RunJob(s, t, ok, quotaOf) else s
    case Foreign(k, topUp) =>
      if k in s.orders && s.orders[k].provider == OtherProvider && topUp.provider == OtherProvider
      then s.(orders := s.orders[k := topUp]) else s
  }

  function Run(s: State, events: seq<Event>, quotaOf: int -> int): State
    decreases |events|
  {
    if events == [] then s else Run(Next(s, events[0], quotaOf), events[1..], quotaOf)
  }

  // ---------------------------------------------------------------------------------------------------
  // The invariant
  // ---------------------------------------------------------------------------------------------------

  /** What the lock protocol provides. */
  ghost predicate Exclusive(pcs: seq<OrderLock.PC>) {
    forall t, u | 0 <= t < |pcs| && 0 <= u < |pcs| && OrderLock.Holding(pcs[t]) && OrderLock.Holding(pcs[u]) ::
      pcs[t].k == pcs[u].k ==> t == u
  }

  predicate Credited(s: State, k: TradeNo) {
    exists i :: 0 <= i < |s.credits| && s.credits[i].order == k
  }

  predicate Paid(s: State, k: TradeNo) {
    k in s.orders && s.orders[k].provider == Epay && s.orders[k].status == Success
  }

  /** Thread t has saved order k as successful and not yet tried to add the quota. */
  predicate Crediting(s: State, t: Thread, k: TradeNo) {
    s.InLock(t) && s.jobs[t].AddQuota? && s.lock.pcs[t].k == k
  }

  ghost predicate JobInv(s: State, t: Thread)
    requires t < |s.jobs| == |s.lock.pcs|
  {
    var job := s.jobs[t];
    job.SaveOrder? || job.AddQuota? ==>
      && s.InLock(t)
      && var k := s.lock.pcs[t].k;
      && k in s.orders && !Credited(s, k) && k !in s.missed
      && job.topUp.provider == Epay && job.topUp.status == Success
      && (job.SaveOrder? ==>
            s.orders[k] == job.topUp.(status := Pending, paymentMethod := s.orders[k].paymentMethod))
      && (job.AddQuota? ==> s.orders[k] == job.topUp)
  }

  ghost predicate JobsInv(s: State) {
    && |s.jobs| == |s.lock.pcs|
    && forall t :: 0 <= t < |s.jobs| ==> JobInv(s, t)
  }

  ghost predicate CreditsInv(s: State, quotaOf: int -> int) {
    && (forall i :: 0 <= i < |s.credits| ==>
          var c := s.credits[i];
          && Paid(s, c.order) && c.order !in s.missed
          && c.user == s.orders[c.order].user
          && c.quota == quotaOf(s.orders[c.order].amount))
    && (forall i, j :: 0 <= i < j < |s.credits| ==> s.credits[i].order != s.credits[j].order)
    && (forall k :: k in s.missed ==> Paid(s, k))
  }

  ghost predicate PaidInv(s: State) {
    forall k :: Paid(s, k) ==> Credited(s, k) || k in s.missed || exists t :: Crediting(s, t, k)
  }

  function CreditSum(credits: seq<Credit>, u: User): int {
    if credits == [] then 0
    else
      var c := credits[|credits| - 1];
      CreditSum(credits[..|credits| - 1], u) + (if c.user == u then c.quota else 0)
  }

  ghost predicate QuotaInv(s: State) {
    forall u: User :: s.Quota(u) == CreditSum(s.credits, u)
  }

  ghost predicate Inv(s: State, quotaOf: int -> int) {
    JobsInv(s) && CreditsInv(s, quotaOf) && PaidInv(s) && QuotaInv(s)
  }

  /** A step that only moves a thread that is outside the lock before or after it, or has nothing to do. */
  lemma {:induction false} LockInv(s: State, s': State, t: Thread, quotaOf: int -> int)
    requires Inv(s, quotaOf) && t < |s.jobs|
    requires !s.InLock(t) || s.jobs[t] == Nothing
    requires |s'.lock.pcs| == |s.lock.pcs| && |s'.jobs| == |s.jobs|
    requires s'.lock.pcs == s.lock.pcs[t := s'.lock.pcs[t]] && s'.jobs == s.jobs[t := s'.jobs[t]]
    requires s'.jobs[t] == s.jobs[t] || s'.jobs[t].Notify? || s'.jobs[t].Complete? || s'.jobs[t].Nothing?
    requires s'.orders == s.orders && s'.quota == s.quota && s'.credits == s.credits && s'.missed == s.missed
    ensures Inv(s', quotaOf)
  {
    assert JobInv(s, t);
    forall u | 0 <= u < |s'.jobs| ensures JobInv(s', u) {
      assert JobInv(s, u);
    }
    forall k | Paid(s', k) ensures Credited(s', k) || k in s'.missed || exists u :: Crediting(s', u, k) {
      assert Paid(s, k);
      if u :| Crediting(s, u, k) {
        assert Crediting(s', u, k);
      }
    }
    forall u: User ensures s'.Quota(u) == CreditSum(s'.credits, u) {
      assert s.Quota(u) == CreditSum(s.credits, u);
    }
  }

  /** Rewriting an order that is no paid or pending Epay order, or creating one, touches nobody's credit. */
  lemma {:induction false} OrderInv(s: State, k: TradeNo, topUp: TopUp, quotaOf: int -> int)
    requires Inv(s, quotaOf)
    requires k in s.orders ==> s.orders[k].provider == OtherProvider && topUp.provider == OtherProvider
    requires k !in s.orders ==> topUp.status == Pending || topUp.provider != Epay
    ensures Inv(s.(orders := s.orders[k := topUp]), quotaOf)
  {
    var s' := s.(orders := s.orders[k := topUp]);
    forall u | 0 <= u < |s'.jobs| ensures JobInv(s', u) {
      assert JobInv(s, u);
    }
    forall k' | Paid(s', k') ensures Credited(s', k') || k' in s'.missed || exists u :: Crediting(s', u, k') {
      assert Paid(s, k');
      if u :| Crediting(s, u, k') {
        assert Crediting(s', u, k');
      }
    }
    forall u: User ensures s'.Quota(u) == CreditSum(s'.credits, u) {
      assert s.Quota(u) == CreditSum(s.credits, u);
    }
  }

  /** The order of another thread's unfinished notification is not the one t works on. */
  lemma {:induction false} OtherOrder(s: State, t: Thread, u: Thread)
    requires JobsInv(s) && Exclusive(s.lock.pcs) && s.InLock(t) && u < |s.jobs| && u != t
    requires s.jobs[u].SaveOrder? || s.jobs[u].AddQuota?
    ensures s.InLock(u) && s.lock.pcs[u].k != s.lock.pcs[t].k
  {
    assert JobInv(s, u);
  }

  /** EpayNotify reads the order: nothing but the thread's own job changes. */
  lemma {:induction false} ReadInv(s: State, t: Thread, ok: bool, quotaOf: int -> int)
    requires Inv(s, quotaOf) && Exclusive(s.lock.pcs) && s.InLock(t) && s.jobs[t].Notify?
    ensures Inv(RunJob(s, t, ok, quotaOf), quotaOf)
  {
    var s' := RunJob(s, t, ok, quotaOf);
    var k := s.lock.pcs[t].k;
    assert s'.jobs[t].SaveOrder? ==> !Paid(s, k) && !Credited(s, k) && k !in s.missed;
    forall u | 0 <= u < |s'.jobs| ensures JobInv(s', u) {
      assert JobInv(s, u);
    }
    forall k' | Paid(s', k') ensures Credited(s', k') || k' in s'.missed || exists u :: Crediting(s', u, k') {
      assert Paid(s, k');
      if u :| Crediting(s, u, k') {
        assert Crediting(s', u, k');
      }
    }
    forall u: User ensures s'.Quota(u) == CreditSum(s'.credits, u) {
      assert s.Quota(u) == CreditSum(s.credits, u);
    }
  }

  /** EpayNotify saves the order as successful: it becomes the one thread crediting this order. */
  lemma {:induction false} SaveInv(s: State, t: Thread, ok: bool, quotaOf: int -> int)
    requires Inv(s, quotaOf) && Exclusive(s.lock.pcs) && s.InLock(t) && s.jobs[t].SaveOrder?
    ensures Inv(RunJob(s, t, ok, quotaOf), quotaOf)
  {
    var s' := RunJob(s, t, ok, quotaOf);
    var k := s.lock.pcs[t].k;
    assert JobInv(s, t);
    forall u | 0 <= u < |s'.jobs| ensures JobInv(s', u) {
      assert JobInv(s, u);
      if u != t && (s.jobs[u].SaveOrder? || s.jobs[u].AddQuota?) {
        OtherOrder(s, t, u);
      }
    }
    forall k' | Paid(s', k') ensures Credited(s', k') || k' in s'.missed || exists u :: Crediting(s', u, k') {
      if k' == k {
        assert ok ==> Crediting(s', t, k);
      } else {
        assert Paid(s, k');
        if u :| Crediting(s, u, k') {
          assert Crediting(s', u, k');
        }
      }
    }
    forall u: User ensures s'.Quota(u) == CreditSum(s'.credits, u) {
      assert s.Quota(u) == CreditSum(s.credits, u);
    }
  }

  lemma {:induction false} AddCreditFacts(s: State, k: TradeNo, topUp: TopUp, quotaOf: int -> int, u: User)
    ensures var s' := AddCredit(s, k, topUp, quotaOf);
      && s'.Quota(u) - s.Quota(u) == CreditSum(s'.credits, u) - CreditSum(s.credits, u)
      && (forall k' :: Credited(s', k') <==> Credited(s, k') || k' == k)
  {
    var s' := AddCredit(s, k, topUp, quotaOf);
    assert s'.credits[..|s'.credits| - 1] == s.credits;
    forall k' ensures Credited(s', k') <==> Credited(s, k') || k' == k {
      assert s'.credits[|s.credits|].order == k;
      if i :| 0 <= i < |s.credits| && s.credits[i].order == k' {
        assert s'.credits[i].order == k';
      }
    }
  }

  /** An increase of the quota for the order whose lock t holds, which is paid from now on. */
  ghost predicate CreditStep(s: State, s': State, t: Thread, topUp: TopUp, quotaOf: int -> int) {
    s.InLock(t) &&
    var k := s.lock.pcs[t].k;
    && k in s.orders && !Credited(s, k) && k !in s.missed
    && s.orders[k].user == topUp.user && s.orders[k].amount == topUp.amount && s.orders[k].provider == Epay
    && s' == AddCredit(s, k, topUp, quotaOf)
             .(orders := s.orders[k := s.orders[k].(status := Success)], jobs := s.jobs[t := Nothing])
  }

  lemma {:induction false} CreditKeepsQuota(s: State, s': State, t: Thread, topUp: TopUp, quotaOf: int -> int)
    requires QuotaInv(s) && CreditStep(s, s', t, topUp, quotaOf)
    ensures QuotaInv(s')
  {
    forall u: User ensures s'.Quota(u) == CreditSum(s'.credits, u) {
      assert s.Quota(u) == CreditSum(s.credits, u);
      AddCreditFacts(s, s.lock.pcs[t].k, topUp, quotaOf, u);
    }
  }

  lemma {:induction false} CreditAddsOne(s: State, s': State, t: Thread, topUp: TopUp, quotaOf: int -> int)
    requires CreditStep(s, s', t, topUp, quotaOf)
    ensures forall k' :: Credited(s', k') <==> Credited(s, k') || k' == s.lock.pcs[t].k
  {
    AddCreditFacts(s, s.lock.pcs[t].k, topUp, quotaOf, 0);
    forall k' ensures Credited(s', k') == Credited(AddCredit(s, s.lock.pcs[t].k, topUp, quotaOf), k') {
    }
  }

  lemma {:induction false} CreditKeepsJobs(s: State, s': State, t: Thread, topUp: TopUp, quotaOf: int -> int)
    requires JobsInv(s) && Exclusive(s.lock.pcs) && CreditStep(s, s', t, topUp, quotaOf)
    ensures JobsInv(s')
  {
    CreditAddsOne(s, s', t, topUp, quotaOf);
    forall u | 0 <= u < |s'.jobs| ensures JobInv(s', u) {
      assert JobInv(s, u);
      if u != t && (s.jobs[u].SaveOrder? || s.jobs[u].AddQuota?) {
        OtherOrder(s, t, u);
      }
    }
  }

  lemma {:induction false} CreditKeepsPaid(s: State, s': State, t: Thread, topUp: TopUp, quotaOf: int -> int)
    requires PaidInv(s) && CreditStep(s, s', t, topUp, quotaOf)
    ensures PaidInv(s')
  {
    CreditAddsOne(s, s', t, topUp, quotaOf);
    forall k' | Paid(s', k') ensures Credited(s', k') || k' in s'.missed || exists u :: Crediting(s', u, k') {
      if k' != s.lock.pcs[t].k {
        assert Paid(s, k');
        if u :| Crediting(s, u, k') {
          assert Crediting(s', u, k');
        }
      }
    }
  }

  lemma {:induction false} CreditInv(s: State, s': State, t: Thread, topUp: TopUp, quotaOf: int -> int)
    requires Inv(s, quotaOf) && Exclusive(s.lock.pcs) && CreditStep(s, s', t, topUp, quotaOf)
    ensures Inv(s', quotaOf)
  {
    CreditKeepsJobs(s, s', t, topUp, quotaOf);
    CreditKeepsPaid(s, s', t, topUp, quotaOf);
    CreditKeepsQuota(s, s', t, topUp, quotaOf);
  }

  /** The quota increase of a saved order failed: the order is recorded as missed. */
  lemma {:induction false} MissInv(s: State, t: Thread, quotaOf: int -> int)
    requires Inv(s, quotaOf) && Exclusive(s.lock.pcs) && s.InLock(t) && s.jobs[t].AddQuota?
    ensures Inv(RunJob(s, t, false, quotaOf), quotaOf)
  {
    var s' := RunJob(s, t, false, quotaOf);
    var k := s.lock.pcs[t].k;
    assert JobInv(s, t);
    forall u | 0 <= u < |s'.jobs| ensures JobInv(s', u) {
      assert JobInv(s, u);
      if u != t && (s.jobs[u].SaveOrder? || s.jobs[u].AddQuota?) {
        OtherOrder(s, t, u);
      }
    }
    forall k' | Paid(s', k') ensures Credited(s', k') || k' in s'.missed || exists u :: Crediting(s', u, k') {
      assert Paid(s, k');
      if u :| Crediting(s, u, k') {
        assert u != t ==> Crediting(s', u, k');
      }
    }
    forall u: User ensures s'.Quota(u) == CreditSum(s'.credits, u) {
      assert s.Quota(u) == CreditSum(s.credits, u);
    }
  }

  /** A thread that drops its job without a trace in the database. */
  lemma {:induction false} GiveUpInv(s: State, t: Thread, quotaOf: int -> int)
    requires Inv(s, quotaOf) && s.InLock(t) && !s.jobs[t].AddQuota?
    ensures Inv(s.(jobs := s.jobs[t := Nothing]), quotaOf)
  {
    var s' := s.(jobs := s.jobs[t := Nothing]);
    forall u | 0 <= u < |s'.jobs| ensures JobInv(s', u) {
      assert JobInv(s, u);
    }
    forall k' | Paid(s', k') ensures Credited(s', k') || k' in s'.missed || exists u :: Crediting(s', u, k') {
      assert Paid(s, k');
      if u :| Crediting(s, u, k') {
        assert Crediting(s', u, k');
      }
    }
    forall u: User ensures s'.Quota(u) == CreditSum(s'.credits, u) {
      assert s.Quota(u) == CreditSum(s.credits, u);
    }
  }

  lemma {:induction false} WorkInv(s: State, t: Thread, ok: bool, quotaOf: int -> int)
    requires Inv(s, quotaOf) && Exclusive(s.lock.pcs) && s.InLock(t)
    ensures Inv(RunJob(s, t, ok, quotaOf), quotaOf)
  {
    var k := s.lock.pcs[t].k;
    assert JobInv(s, t);
    match s.jobs[t]
    case Nothing =>
    case Notify(_) => ReadInv(s, t, ok, quotaOf);
    case SaveOrder(_) => SaveInv(s, t, ok, quotaOf);
    case AddQuota(topUp) =>
      if ok {
        assert s.orders == s.orders[k := s.orders[k].(status := Success)];
        CreditInv(s, RunJob(s, t, ok, quotaOf), t, topUp, quotaOf);
      } else {
        MissInv(s, t, quotaOf);
      }
    case Complete =>
      if RunJob(s, t, ok, quotaOf) == s.(jobs := s.jobs[t := Nothing]) {
        GiveUpInv(s, t, quotaOf);
      } else {
        CreditInv(s, RunJob(s, t, ok, quotaOf), t, s.orders[k], quotaOf);
      }
  }

  lemma {:induction false} LockMoveInv(s: State, t: Thread, a: OrderLock.Action, job: Job, quotaOf: int -> int)
    requires Inv(s, quotaOf) && t < |s.jobs| && LockMove(s, t, a).Some?
    requires job == s.jobs[t] || job.Notify? || job.Complete? || job.Nothing?
    ensures Inv(s.(lock := LockMove(s, t, a).value, jobs := s.jobs[t := job]), quotaOf)
  {
    OrderLock.StepMovesOnly(s.lock, t, a);
    LockInv(s, s.(lock := LockMove(s, t, a).value, jobs := s.jobs[t := job]), t, quotaOf);
  }

  /** Every event keeps the invariant, given mutual exclusion. */
  lemma {:induction false} NextInv(s: State, e: Event, quotaOf: int -> int)
    requires Inv(s, quotaOf) && Exclusive(s.lock.pcs)
    ensures Inv(Next(s, e, quotaOf), quotaOf)
  {
    if Next(s, e, quotaOf) != s {
      match e
      case Create(k, topUp) => OrderInv(s, k, topUp, quotaOf);
      case Begin(t, k, job) => LockMoveInv(s, t, OrderLock.Start(k), job, quotaOf);
      case LockStep(t) =>
        assert s.jobs == s.jobs[t := s.jobs[t]];
        LockMoveInv(s, t, OrderLock.Continue, s.jobs[t], quotaOf);
      case Work(t, ok) => WorkInv(s, t, ok, quotaOf);
      case Foreign(k, topUp) => OrderInv(s, k, topUp, quotaOf);
    }
  }

  lemma {:induction false} NextLock(s: State, e: Event, quotaOf: int -> int)
    requires OrderLock.Inv(s.lock)
    ensures OrderLock.Inv(Next(s, e, quotaOf).lock)
  {
    match e
    case Create(_, _) =>
    case Begin(t, k, job) =>
      if LockMove(s, t, OrderLock.Start(k)).Some? {
        OrderLock.StepInv(s.lock, t, OrderLock.Start(k));
      }
    case LockStep(t) =>
      if LockMove(s, t, OrderLock.Continue).Some? {
        OrderLock.StepInv(s.lock, t, OrderLock.Continue);
      }
    case Work(_, _) =>
    case Foreign(_, _) =>
  }

  lemma {:induction false} LockExcludes(l: OrderLock.State)
    requires OrderLock.Inv(l)
    ensures Exclusive(l.pcs)
  {
  }

  lemma {:induction false} RunInv(s: State, events: seq<Event>, quotaOf: int -> int)
    requires OrderLock.Inv(s.lock) && Inv(s, quotaOf)
    ensures OrderLock.Inv(Run(s, events, quotaOf).lock) && Inv(Run(s, events, quotaOf), quotaOf)
    decreases |events|
  {
    if events != [] {
      LockExcludes(s.lock);
      NextInv(s, events[0], quotaOf);
      NextLock(s, events[0], quotaOf);
      RunInv(Next(s, events[0], quotaOf), events[1..], quotaOf);
    }
  }

  /** The state reached from n idle threads and an empty database. */
  function Reached(n: nat, events: seq<Event>, quotaPerUnit: real): State {
    Run(Init(n), events, amount => QuotaToAdd(amount, quotaPerUnit))
  }

  lemma {:induction false} ReachedInv(n: nat, events: seq<Event>, quotaPerUnit: real)
    ensures OrderLock.Inv(Reached(n, events, quotaPerUnit).lock)
    ensures Inv(Reached(n, events, quotaPerUnit), amount => QuotaToAdd(amount, quotaPerUnit))
  {
    OrderLock.InitInv(n);
    RunInv(Init(n), events, amount => QuotaToAdd(amount, quotaPerUnit));
  }

  // ---------------------------------------------------------------------------------------------------
  // Results over whole runs
  // ---------------------------------------------------------------------------------------------------

  /** No order is ever credited twice, and a credited order is a paid one, credited with its own amount to
      its own user. */
  lemma {:induction false} CreditedAtMostOnce(n: nat, events: seq<Event>, quotaPerUnit: real, i: nat, j: nat)
    requires i < |Reached(n, events, quotaPerUnit).credits| && j < |Reached(n, events, quotaPerUnit).credits|
    ensures
      var s := Reached(n, events, quotaPerUnit);
      && (s.credits[i].order == s.credits[j].order ==> i == j)
      && Paid(s, s.credits[i].order)
      && s.credits[i].user == s.orders[s.credits[i].order].user
      && s.credits[i].quota == QuotaToAdd(s.orders[s.credits[i].order].amount, quotaPerUnit)
  {
    ReachedInv(n, events, quotaPerUnit);
  }

  /** What an event may do to an Epay order. */
  predicate LegalWrite(s: State, s': State, e: Event, k: TradeNo)
    requires k in s.orders
  {
    && k in s'.orders
    && s'.orders[k].user == s.orders[k].user && s'.orders[k].amount == s.orders[k].amount
    && s'.orders[k].provider == Epay
    && (s'.orders[k] != s.orders[k] ==>
          && e.Work? && s.InLock(e.t) && s.lock.pcs[e.t].k == k
          && s.orders[k].status == Pending && s'.orders[k].status == Success)
  }

  lemma {:induction false} NextWrites(s: State, e: Event, quotaOf: int -> int, k: TradeNo)
    requires JobsInv(s) && k in s.orders && s.orders[k].provider == Epay
    ensures LegalWrite(s, Next(s, e, quotaOf), e, k)
  {
    if e.Work? && s.InLock(e.t) {
      assert JobInv(s, e.t);
    }
  }

  /** In every reachable state an Epay order is only ever written by the thread that holds its lock, and
      only from pending to successful; its user and amount never change, so paid is final. */
  lemma {:induction false} OrderWrites(n: nat, events: seq<Event>, e: Event, quotaPerUnit: real, k: TradeNo)
    requires k in Reached(n, events, quotaPerUnit).orders
    requires Reached(n, events, quotaPerUnit).orders[k].provider == Epay
    ensures
      var s := Reached(n, events, quotaPerUnit);
      LegalWrite(s, Next(s, e, amount => QuotaToAdd(amount, quotaPerUnit)), e, k)
  {
    ReachedInv(n, events, quotaPerUnit);
    NextWrites(Reached(n, events, quotaPerUnit), e, amount => QuotaToAdd(amount, quotaPerUnit), k);
  }

  function CreditedOrders(credits: seq<Credit>): set<TradeNo> {
    set i | 0 <= i < |credits| :: credits[i].order
  }

  lemma {:induction false} CreditSumIsSetSum(credits: seq<Credit>, u: User, f: TradeNo -> int)
    requires forall i, j :: 0 <= i < j < |credits| ==> credits[i].order != credits[j].order
    requires forall i :: 0 <= i < |credits| ==>
      f(credits[i].order) == if credits[i].user == u then credits[i].quota else 0
    ensures CreditSum(credits, u) == Sum(CreditedOrders(credits), f)
  {
    if credits != [] {
      var n := |credits| - 1;
      var k := credits[n].order;
      CreditSumIsSetSum(credits[..n], u, f);
      assert k in CreditedOrders(credits);
      assert CreditedOrders(credits) - {k} == CreditedOrders(credits[..n]) by {
        assert forall i :: 0 <= i < n ==> credits[..n][i] == credits[i];
        forall x | x in CreditedOrders(credits) - {k} ensures x in CreditedOrders(credits[..n]) {
          var i :| 0 <= i < |credits| && credits[i].order == x;
          assert credits[..n][i].order == x;
        }
      }
      SumSplit(CreditedOrders(credits), f, k);
    }
  }

  function PaidOrders(s: State): set<TradeNo> {
    set k | k in s.orders && Paid(s, k)
  }

  /** What order k is worth to user u. */
  function Worth(s: State, u: User, k: TradeNo, quotaPerUnit: real): int {
    if k in s.orders && s.orders[k].user == u then QuotaToAdd(s.orders[k].amount, quotaPerUnit) else 0
  }

  /** The paid orders whose quota increase has neither failed nor is still to come. */
  ghost function SettledOrders(s: State): set<TradeNo> {
    set k | k in s.orders && Paid(s, k) && k !in s.missed && !exists t :: Crediting(s, t, k)
  }

  /** In every reachable state each user's quota is exactly the sum of Amount x QuotaPerUnit over that user's successful
      Epay orders, without those whose quota increase failed or is in flight. */
  lemma {:induction false} QuotaIsSumOverSettledOrders(n: nat, events: seq<Event>, quotaPerUnit: real, u: User)
    ensures
      var s := Reached(n, events, quotaPerUnit);
      s.Quota(u) == Sum(SettledOrders(s), k => Worth(s, u, k, quotaPerUnit))
  {
    ReachedInv(n, events, quotaPerUnit);
    var s := Reached(n, events, quotaPerUnit);
    CreditSumIsSetSum(s.credits, u, k => Worth(s, u, k, quotaPerUnit));
    forall k ensures k in CreditedOrders(s.credits) <==> k in SettledOrders(s) {
      assert k in CreditedOrders(s.credits) <==> Credited(s, k);
      if t :| Crediting(s, t, k) {
        assert JobInv(s, t);
      }
    }
    assert CreditedOrders(s.credits) == SettledOrders(s);
  }

  /** When no quota increase failed and none is in flight, that is the sum over all successful Epay orders. */
  lemma {:induction false} QuotaIsSumOverPaidOrders(n: nat, events: seq<Event>, quotaPerUnit: real, u: User)
    requires Reached(n, events, quotaPerUnit).missed == {}
    requires forall t, k :: !Crediting(Reached(n, events, quotaPerUnit), t, k)
    ensures
      var s := Reached(n, events, quotaPerUnit);
      s.Quota(u) == Sum(PaidOrders(s), k => Worth(s, u, k, quotaPerUnit))
  {
    QuotaIsSumOverSettledOrders(n, events, quotaPerUnit, u);
    var s := Reached(n, events, quotaPerUnit);
    assert SettledOrders(s) == PaidOrders(s);
  }
}
