/** The per-order lock of controller/topup.go: a table of reference-counted mutexes guarded by one
    table mutex. Any number of threads interleave; every access to shared memory (the table, a reference
    count, a mutex) is a step of its own, and `refCount++` is a read step followed by a write step.

    A mutex is modelled by the thread that last locked it. As in Go, anyone may unlock a locked mutex and
    unlocking a free one is a fatal error, so that only the owner unlocks is a theorem and not a rule. */
module OrderLock {
  import opened Basics

  type Thread = nat
  type TradeNo = string
  type ObjectId = nat

  /** One refCountedMutex object on the heap. */
  datatype Rcm = Rcm(holder: Option<Thread>, refCount: int)

  /** Where a thread is, with its local variables. From `Critical` to `Lookup` the object is kept for the
      proofs only: UnlockOrder receives nothing but the order number and looks the object up again. */
  datatype PC =
    | Idle
    // LockOrder
    | LockCreate(k: TradeNo)
    | Load(k: TradeNo)
    | Store(k: TradeNo, o: ObjectId)
    | ReadCount(k: TradeNo, o: ObjectId)
    | WriteCount(k: TradeNo, o: ObjectId, tmp: int)
    | UnlockCreate(k: TradeNo, o: ObjectId)
    | LockMutex(k: TradeNo, o: ObjectId)
    // between LockOrder and UnlockOrder
    | Critical(k: TradeNo, o: ObjectId)
    // UnlockOrder
    | Lookup(k: TradeNo, o: ObjectId)
    | UnlockMutex(k: TradeNo, o: ObjectId)
    | RelockCreate(k: TradeNo, o: ObjectId)
    | RereadCount(k: TradeNo, o: ObjectId)
    | RewriteCount(k: TradeNo, o: ObjectId, tmp: int)
    | TestCount(k: TradeNo, o: ObjectId)
    | Delete(k: TradeNo, o: ObjectId)
    | ReunlockCreate(k: TradeNo)

  datatype State = State(
    locks: map<TradeNo, ObjectId>,
    heap: map<ObjectId, Rcm>,
    createHolder: Option<Thread>,
    pcs: seq<PC>,
    next: ObjectId,
    crashed: bool)
  {
    predicate IsThread(t: Thread) {
      t < |pcs|
    }

    function At(t: Thread, pc: PC): State
      requires IsThread(t)
    {
      this.(pcs := pcs[t := pc])
    }
  }

  function Init(threads: nat): State {
    State(map[], map[], None, seq(threads, _ => Idle), 0, false)
  }

  datatype Action = Start(k: TradeNo) | Continue

  /** One step of thread t, or None when t cannot move: it is idle, or the mutex it wants is locked. */
  function Step(s: State, t: Thread, a: Action): Option<State>
    requires s.IsThread(t)
  {
    match s.pcs[t]
    case Idle => if a.Start? then Some(s.At(t, LockCreate(a.k))) else None
    case _ => if a.Continue? then Advance(s, t) else None
  }

  function Advance(s: State, t: Thread): Option<State>
    requires s.IsThread(t)
  {
    if Unlocking(s.pcs[t]) then UnlockStep(s, t) else LockStep(s, t)
  }

  /** The thread has returned from LockOrder. */
  predicate Unlocking(pc: PC) {
    pc.Critical? || pc.Lookup? || pc.UnlockMutex? || pc.RelockCreate? || pc.RereadCount? || pc.RewriteCount? ||
    pc.TestCount? || pc.Delete? || pc.ReunlockCreate?
  }

  function LockStep(s: State, t: Thread): Option<State>
    requires s.IsThread(t) && !Unlocking(s.pcs[t])
  {
    match s.pcs[t]
    case Idle => None
    case LockCreate(k) => if s.createHolder.None? then Some(s.(createHolder := Some(t)).At(t, Load(k))) else None
    case Load(k) =>
      if k in s.locks then Some(s.At(t, ReadCount(k, s.locks[k])))
      else Some(s.(heap := s.heap[s.next := Rcm(None, 0)], next := s.next + 1).At(t, Store(k, s.next)))
    case Store(k, o) => Some(s.(locks := s.locks[k := o]).At(t, ReadCount(k, o)))
    case ReadCount(k, o) => if o in s.heap then Some(s.At(t, WriteCount(k, o, s.heap[o].refCount))) else None
    case WriteCount(k, o, tmp) =>
      if o in s.heap then Some(SetCount(s, o, tmp + 1).At(t, UnlockCreate(k, o))) else None
    case UnlockCreate(k, o) => Some(FreeCreate(s).At(t, LockMutex(k, o)))
    case LockMutex(k, o) =>
      if o in s.heap && s.heap[o].holder.None?
      then Some(SetHolder(s, o, Some(t)).At(t, Critical(k, o))) else None
  }

  function UnlockStep(s: State, t: Thread): Option<State>
    requires s.IsThread(t) && Unlocking(s.pcs[t])
  {
    match s.pcs[t]
    case Critical(k, o) => Some(s.At(t, Lookup(k, o)))
    case Lookup(k, o) =>
      if k in s.locks then Some(s.At(t, UnlockMutex(k, s.locks[k])))
      else Some(s.At(t, Idle)) // the entry is missing: UnlockOrder returns and the mutex stays locked
    case UnlockMutex(k, o) =>
      if o in s.heap
      then Some(SetHolder(s.(crashed := s.crashed || s.heap[o].holder.None?), o, None).At(t, RelockCreate(k, o)))
      else None
    case RelockCreate(k, o) =>
      if s.createHolder.None? then Some(s.(createHolder := Some(t)).At(t, RereadCount(k, o))) else None
    case RereadCount(k, o) => if o in s.heap then Some(s.At(t, RewriteCount(k, o, s.heap[o].refCount))) else None
    case RewriteCount(k, o, tmp) =>
      if o in s.heap then Some(SetCount(s, o, tmp - 1).At(t, TestCount(k, o))) else None
    case TestCount(k, o) =>
      if o in s.heap
      then Some(s.At(t, if s.heap[o].refCount == 0 then Delete(k, o) else ReunlockCreate(k))) else None
    case Delete(k, o) => Some(s.(locks := s.locks - {k}).At(t, ReunlockCreate(k)))
    case ReunlockCreate(k) => Some(FreeCreate(s).At(t, Idle))
  }

  function FreeCreate(s: State): State {
    s.(createHolder := None, crashed := s.crashed || s.createHolder.None?)
  }

  function SetCount(s: State, o: ObjectId, n: int): State
    requires o in s.heap
  {
    s.(heap := s.heap[o := s.heap[o].(refCount := n)])
  }

  function SetHolder(s: State, o: ObjectId, h: Option<Thread>): State
    requires o in s.heap
  {
    s.(heap := s.heap[o := s.heap[o].(holder := h)])
  }

  // ---------------------------------------------------------------------------------------------------
  // The inductive invariant
  // ---------------------------------------------------------------------------------------------------

  /** The program points at which createLock is held. */
  predicate InCreate(pc: PC) {
    pc.Load? || pc.Store? || pc.ReadCount? || pc.WriteCount? || pc.UnlockCreate? ||
    pc.RereadCount? || pc.RewriteCount? || pc.TestCount? || pc.Delete? || pc.ReunlockCreate?
  }

  /** From LockOrder(k) having got its mutex to UnlockOrder(k) having released it. */
  predicate Holding(pc: PC) {
    pc.Critical? || pc.Lookup? || pc.UnlockMutex?
  }

  /** The thread is counted in the reference count of k's entry. */
  predicate Engaged(pc: PC, k: TradeNo) {
    && (pc.UnlockCreate? || pc.LockMutex? || Holding(pc) || pc.RelockCreate? || pc.RereadCount? || pc.RewriteCount?)
    && pc.k == k
  }

  /** The object in the thread's local variable has to be the one stored in the table. */
  predicate Refers(pc: PC) {
    pc.ReadCount? || pc.WriteCount? || pc.UnlockCreate? || pc.LockMutex? || Holding(pc) ||
    pc.RelockCreate? || pc.RereadCount? || pc.RewriteCount? || pc.TestCount? || pc.Delete?
  }

  /** The createLock section in which k's entry may for a moment have count zero. */
  predicate Pins(pc: PC, k: TradeNo) {
    (pc.ReadCount? || pc.WriteCount? || pc.TestCount? || pc.Delete?) && pc.k == k
  }

  function EngagedIn(s: State, k: TradeNo): set<Thread> {
    set t: Thread | t < |s.pcs| && Engaged(s.pcs[t], k)
  }

  ghost predicate CreateInv(s: State) {
    && (forall t :: 0 <= t < |s.pcs| && InCreate(s.pcs[t]) ==> s.createHolder == Some(t))
    && (s.createHolder.Some? ==> s.IsThread(s.createHolder.value) && InCreate(s.pcs[s.createHolder.value]))
  }

  ghost predicate TableInv(s: State) {
    && (forall k :: k in s.locks ==> s.locks[k] in s.heap)
    && (forall k, k' :: k in s.locks && k' in s.locks && s.locks[k] == s.locks[k'] ==> k == k')
    && (forall o :: o in s.heap ==> o < s.next)
  }

  ghost predicate LocalInv(s: State, pc: PC) {
    && (Refers(pc) ==> pc.k in s.locks && s.locks[pc.k] == pc.o)
    && (pc.Store? ==>
          && pc.k !in s.locks && pc.o in s.heap && s.heap[pc.o].refCount == 0
          && (forall k :: k in s.locks ==> s.locks[k] != pc.o))
    && (pc.WriteCount? || pc.RewriteCount? ==> pc.o in s.heap && s.heap[pc.o].refCount == pc.tmp)
    && (pc.Delete? ==> pc.o in s.heap && s.heap[pc.o].refCount == 0)
  }

  ghost predicate ThreadsInv(s: State) {
    forall t :: 0 <= t < |s.pcs| ==> LocalInv(s, s.pcs[t])
  }

  ghost predicate CountInv(s: State) {
    forall k :: k in s.locks && s.locks[k] in s.heap ==> s.heap[s.locks[k]].refCount == |EngagedIn(s, k)|
  }

  ghost predicate LiveInv(s: State) {
    forall k :: k in s.locks && s.locks[k] in s.heap ==>
      s.heap[s.locks[k]].refCount > 0 ||
        (s.createHolder.Some? && s.IsThread(s.createHolder.value) && Pins(s.pcs[s.createHolder.value], k))
  }

  ghost predicate HolderInv(s: State) {
    && (forall t :: 0 <= t < |s.pcs| && Holding(s.pcs[t]) ==>
          s.pcs[t].o in s.heap && s.heap[s.pcs[t].o].holder == Some(t))
    && (forall o :: o in s.heap && s.heap[o].holder.Some? ==>
          var t := s.heap[o].holder.value;
          s.IsThread(t) && Holding(s.pcs[t]) && s.pcs[t].o == o)
  }

  ghost predicate Inv(s: State) {
    CreateInv(s) && TableInv(s) && ThreadsInv(s) && CountInv(s) && LiveInv(s) && HolderInv(s) && !s.crashed
  }

  /** 1 when t is engaged for k, else 0. */
  function Share(s: State, t: Thread, k: TradeNo): int
    requires s.IsThread(t)
  {
    if Engaged(s.pcs[t], k) then 1 else 0
  }

  /** A step of t changes the number of engaged threads by the change of t's own share. */
  lemma {:induction false} EngagedChange(s: State, t: Thread, pc: PC, k: TradeNo)
    requires s.IsThread(t)
    ensures |EngagedIn(s.At(t, pc), k)| == |EngagedIn(s, k)| + Share(s.At(t, pc), t, k) - Share(s, t, k)
  {
    var a, b := EngagedIn(s, k), EngagedIn(s.At(t, pc), k);
    assert a - {t} == b - {t};
    assert t in a <==> Engaged(s.pcs[t], k);
    assert t in b <==> Engaged(pc, k);
    assert |a| == |a - {t}| + Share(s, t, k);
    assert |b| == |b - {t}| + Share(s.At(t, pc), t, k);
  }

  // ---------------------------------------------------------------------------------------------------
  // Each part of the invariant, by the kind of change
  // ---------------------------------------------------------------------------------------------------

  /** Only thread t has moved. */
  predicate Moved(s: State, s': State, t: Thread) {
    s.IsThread(t) && |s'.pcs| == |s.pcs| && s'.pcs == s.pcs[t := s'.pcs[t]]
  }

  /** createLock is kept, taken or given back as the program point says. */
  lemma {:induction false} CreateKept(s: State, s': State, t: Thread)
    requires CreateInv(s) && Moved(s, s', t) && s'.createHolder == s.createHolder
    requires InCreate(s'.pcs[t]) == InCreate(s.pcs[t])
    ensures CreateInv(s')
  {}

  lemma {:induction false} CreateTaken(s: State, s': State, t: Thread)
    requires CreateInv(s) && Moved(s, s', t) && s.createHolder.None? && s'.createHolder == Some(t) &&
      InCreate(s'.pcs[t])
    ensures CreateInv(s')
  {}

  lemma {:induction false} CreateGiven(s: State, s': State, t: Thread)
    requires CreateInv(s) && Moved(s, s', t) && InCreate(s.pcs[t]) && s'.createHolder.None? && !InCreate(s'.pcs[t])
    ensures CreateInv(s')
  {}

  predicate SameCounts(s: State, s': State) {
    s'.locks == s.locks && s'.heap.Keys == s.heap.Keys && s'.next == s.next &&
    forall o :: o in s.heap ==> s'.heap[o].refCount == s.heap[o].refCount
  }

  lemma {:induction false} TableKept(s: State, s': State)
    requires TableInv(s) && s'.locks == s.locks && s'.heap.Keys == s.heap.Keys && s'.next == s.next
    ensures TableInv(s')
  {}

  lemma {:induction false} LocalKept(s: State, s': State, pc: PC)
    requires LocalInv(s, pc) && SameCounts(s, s')
    ensures LocalInv(s', pc)
  {}

  /** The table and the counts do not change. */
  lemma {:induction false} ThreadsKept(s: State, s': State, t: Thread)
    requires ThreadsInv(s) && Moved(s, s', t) && SameCounts(s, s') && LocalInv(s', s'.pcs[t])
    ensures ThreadsInv(s')
  {
    forall u | 0 <= u < |s'.pcs| ensures LocalInv(s', s'.pcs[u]) {
      if u != t {
        LocalKept(s, s', s.pcs[u]);
      }
    }
  }

  /** t holds createLock, so that the others depend on nothing but their own entries. */
  lemma {:induction false} ThreadsGuarded(s: State, s': State, t: Thread)
    requires ThreadsInv(s) && CreateInv(s) && Moved(s, s', t) && s.createHolder == Some(t) && LocalInv(s', s'.pcs[t])
    requires forall u :: 0 <= u < |s.pcs| && u != t && Refers(s.pcs[u]) ==>
      s.pcs[u].k in s'.locks && s'.locks[s.pcs[u].k] == s.pcs[u].o
    ensures ThreadsInv(s')
  {
    forall u | 0 <= u < |s'.pcs| ensures LocalInv(s', s'.pcs[u]) {
      if u != t {
        assert !InCreate(s.pcs[u]);
      }
    }
  }

  /** Entries that are kept are kept for everyone. */
  lemma {:induction false} ThreadsExtended(s: State, s': State, t: Thread)
    requires ThreadsInv(s) && CreateInv(s) && Moved(s, s', t) && s.createHolder == Some(t) && LocalInv(s', s'.pcs[t])
    requires forall k :: k in s.locks ==> k in s'.locks && s'.locks[k] == s.locks[k]
    ensures ThreadsInv(s')
  {
    forall u | 0 <= u < |s.pcs| && u != t && Refers(s.pcs[u])
      ensures s.pcs[u].k in s'.locks && s'.locks[s.pcs[u].k] == s.pcs[u].o
    {
      assert LocalInv(s, s.pcs[u]);
    }
    ThreadsGuarded(s, s', t);
  }

  lemma {:induction false} CountFrame(s: State, s': State, t: Thread, k: TradeNo)
    requires Moved(s, s', t)
    ensures |EngagedIn(s', k)| == |EngagedIn(s, k)| + Share(s', t, k) - Share(s, t, k)
  {
    EngagedChange(s, t, s'.pcs[t], k);
    assert EngagedIn(s', k) == EngagedIn(s.At(t, s'.pcs[t]), k);
  }

  /** Every count that is in the table moves as t's share does. */
  lemma {:induction false} CountMoved(s: State, s': State, t: Thread)
    requires CountInv(s) && TableInv(s) && Moved(s, s', t) && s'.locks == s.locks && s'.heap.Keys == s.heap.Keys
    requires forall k :: k in s.locks ==>
      s'.heap[s.locks[k]].refCount == s.heap[s.locks[k]].refCount + Share(s', t, k) - Share(s, t, k)
    ensures CountInv(s')
  {
    forall k | k in s'.locks && s'.locks[k] in s'.heap ensures s'.heap[s'.locks[k]].refCount == |EngagedIn(s', k)| {
      CountFrame(s, s', t, k);
    }
  }

  /** Counts and engagement are the same. */
  lemma {:induction false} CountKept(s: State, s': State, t: Thread)
    requires CountInv(s) && TableInv(s) && Moved(s, s', t) && SameCounts(s, s')
    requires forall k :: Engaged(s'.pcs[t], k) == Engaged(s.pcs[t], k)
    ensures CountInv(s')
  {
    CountMoved(s, s', t);
  }

  lemma {:induction false} LiveKept(s: State, s': State, t: Thread)
    requires LiveInv(s) && Moved(s, s', t) && SameCounts(s, s') && s'.createHolder == s.createHolder
    requires forall k :: Pins(s.pcs[t], k) ==> Pins(s'.pcs[t], k)
    ensures LiveInv(s')
  {}

  /** createLock changes hands at a point that pins nothing. */
  lemma {:induction false} LivePassed(s: State, s': State, t: Thread)
    requires LiveInv(s) && Moved(s, s', t) && SameCounts(s, s')
    requires s.createHolder == None || (s.createHolder == Some(t) && forall k :: !Pins(s.pcs[t], k))
    ensures LiveInv(s')
  {}

  /** t holds createLock and works on the entry of k. */
  lemma {:induction false} LiveWorked(s: State, s': State, t: Thread, k: TradeNo)
    requires LiveInv(s) && Moved(s, s', t) && s.createHolder == Some(t) && s'.createHolder == Some(t)
    requires forall x :: Pins(s.pcs[t], x) ==> x == k
    requires forall x :: x in s'.locks && x != k && s'.locks[x] in s'.heap ==>
      x in s.locks && s.locks[x] == s'.locks[x] && s.locks[x] in s.heap &&
      s'.heap[s.locks[x]].refCount == s.heap[s.locks[x]].refCount
    requires k in s'.locks && s'.locks[k] in s'.heap ==> s'.heap[s'.locks[k]].refCount > 0 || Pins(s'.pcs[t], k)
    ensures LiveInv(s')
  {}

  /** No mutex is locked or unlocked. */
  lemma {:induction false} HolderKept(s: State, s': State, t: Thread)
    requires HolderInv(s) && Moved(s, s', t)
    requires forall o :: o in s.heap ==> o in s'.heap && s'.heap[o].holder == s.heap[o].holder
    requires forall o :: o in s'.heap && o !in s.heap ==> s'.heap[o].holder.None?
    requires Holding(s'.pcs[t]) == Holding(s.pcs[t])
    requires Holding(s.pcs[t]) ==> s'.pcs[t].o == s.pcs[t].o
    ensures HolderInv(s')
  {}

  /** A free mutex is locked, or one's own unlocked. */
  lemma {:induction false} HolderTaken(s: State, s': State, t: Thread, o: ObjectId)
    requires HolderInv(s) && Moved(s, s', t) && o in s.heap && s.heap[o].holder.None?
    requires s'.heap == s.heap[o := s.heap[o].(holder := Some(t))]
    requires !Holding(s.pcs[t]) && Holding(s'.pcs[t]) && s'.pcs[t].o == o
    ensures HolderInv(s')
  {}

  lemma {:induction false} HolderFreed(s: State, s': State, t: Thread, o: ObjectId)
    requires HolderInv(s) && Moved(s, s', t) && o in s.heap && s.heap[o].holder == Some(t)
    requires s'.heap == s.heap[o := s.heap[o].(holder := None)]
    requires Holding(s.pcs[t]) && s.pcs[t].o == o && !Holding(s'.pcs[t])
    ensures HolderInv(s')
  {}

  // ---------------------------------------------------------------------------------------------------
  // One lemma for each program point: the step taken there keeps the invariant
  // ---------------------------------------------------------------------------------------------------

  /** A step that changes neither table, counts nor mutexes and leaves createLock alone. */
  lemma {:induction false} QuietStep(s: State, s': State, t: Thread)
    requires Inv(s) && Moved(s, s', t) && s' == s.(pcs := s'.pcs)
    requires InCreate(s'.pcs[t]) == InCreate(s.pcs[t]) && LocalInv(s', s'.pcs[t])
    requires forall k :: Engaged(s'.pcs[t], k) == Engaged(s.pcs[t], k)
    requires forall k :: Pins(s.pcs[t], k) ==> Pins(s'.pcs[t], k)
    requires Holding(s'.pcs[t]) == Holding(s.pcs[t]) && (Holding(s.pcs[t]) ==> s'.pcs[t].o == s.pcs[t].o)
    ensures Inv(s')
  {
    CreateKept(s, s', t);
    TableKept(s, s');
    ThreadsKept(s, s', t);
    CountKept(s, s', t);
    LiveKept(s, s', t);
    HolderKept(s, s', t);
  }

  /** A step that only takes createLock or gives it back, at a point that pins nothing. */
  lemma {:induction false} CreateStep(s: State, s': State, t: Thread)
    requires Inv(s) && Moved(s, s', t) && s' == s.(pcs := s'.pcs, createHolder := s'.createHolder)
    requires CreateInv(s') && LocalInv(s', s'.pcs[t])
    requires s.createHolder == None || (s.createHolder == Some(t) && forall k :: !Pins(s.pcs[t], k))
    requires forall k :: Engaged(s'.pcs[t], k) == Engaged(s.pcs[t], k)
    requires !Holding(s'.pcs[t]) && !Holding(s.pcs[t])
    ensures Inv(s')
  {
    TableKept(s, s');
    ThreadsKept(s, s', t);
    CountKept(s, s', t);
    LivePassed(s, s', t);
    HolderKept(s, s', t);
  }

  lemma {:induction false} InvStart(s: State, t: Thread, k: TradeNo)
    requires Inv(s) && s.IsThread(t) && s.pcs[t].Idle?
    ensures Inv(s.At(t, LockCreate(k)))
  {
    QuietStep(s, s.At(t, LockCreate(k)), t);
  }

  lemma {:induction false} InvLockCreate(s: State, t: Thread)
    requires Inv(s) && s.IsThread(t) && s.pcs[t].LockCreate? && LockStep(s, t).Some?
    ensures Inv(LockStep(s, t).value)
  {
    var s' := s.(createHolder := Some(t)).At(t, Load(s.pcs[t].k));
    CreateTaken(s, s', t);
    CreateStep(s, s', t);
  }

  lemma {:induction false} InvLoadFound(s: State, t: Thread)
    requires Inv(s) && s.IsThread(t) && s.pcs[t].Load? && s.pcs[t].k in s.locks
    ensures Inv(LockStep(s, t).value)
  {
    var k := s.pcs[t].k;
    QuietStep(s, s.At(t, ReadCount(k, s.locks[k])), t);
  }

  lemma {:induction false} InvLoadMissing(s: State, t: Thread)
    requires Inv(s) && s.IsThread(t) && s.pcs[t].Load? && s.pcs[t].k !in s.locks
    ensures Inv(LockStep(s, t).value)
  {
    var k, o := s.pcs[t].k, s.next;
    var s' := s.(heap := s.heap[o := Rcm(None, 0)], next := o + 1).At(t, Store(k, o));
    CreateKept(s, s', t);
    assert TableInv(s');
    assert LocalInv(s', s'.pcs[t]);
    ThreadsExtended(s, s', t);
    NewObjectCounts(s, s', t);
    LiveWorked(s, s', t, k);
    HolderKept(s, s', t);
  }

  /** An object that is not in the table is counted for nobody. */
  lemma {:induction false} NewObjectCounts(s: State, s': State, t: Thread)
    requires CountInv(s) && TableInv(s) && Moved(s, s', t) && s'.locks == s.locks
    requires forall k :: k in s.locks ==> s.locks[k] in s'.heap && s'.heap[s.locks[k]] == s.heap[s.locks[k]]
    requires forall k :: !Engaged(s'.pcs[t], k) && !Engaged(s.pcs[t], k)
    ensures CountInv(s')
  {
    forall k | k in s'.locks && s'.locks[k] in s'.heap ensures s'.heap[s'.locks[k]].refCount == |EngagedIn(s', k)| {
      CountFrame(s, s', t, k);
    }
  }

  lemma {:induction false} InvStore(s: State, t: Thread)
    requires Inv(s) && s.IsThread(t) && s.pcs[t].Store?
    ensures Inv(LockStep(s, t).value)
  {
    var k, o := s.pcs[t].k, s.pcs[t].o;
    var s' := s.(locks := s.locks[k := o]).At(t, ReadCount(k, o));
    assert LocalInv(s, s.pcs[t]);
    CreateKept(s, s', t);
    StoreTable(s, s', k, o);
    ThreadsExtended(s, s', t);
    StoreCounts(s, s', t, k);
    LiveWorked(s, s', t, k);
    HolderKept(s, s', t);
  }

  lemma {:induction false} StoreTable(s: State, s': State, k: TradeNo, o: ObjectId)
    requires TableInv(s) && s'.locks == s.locks[k := o] && s'.heap == s.heap && s'.next == s.next
    requires o in s.heap && forall x :: x in s.locks ==> s.locks[x] != o
    ensures TableInv(s')
  {}

  /** Nobody can be engaged with an order that has no entry. */
  lemma {:induction false} StoreCounts(s: State, s': State, t: Thread, k: TradeNo)
    requires CountInv(s) && ThreadsInv(s) && Moved(s, s', t) && k !in s.locks && k in s'.locks
    requires s'.heap == s.heap && s'.locks == s.locks[k := s'.locks[k]]
    requires s'.locks[k] in s.heap && s.heap[s'.locks[k]].refCount == 0
    requires forall x :: !Engaged(s'.pcs[t], x) && !Engaged(s.pcs[t], x)
    ensures CountInv(s')
  {
    forall x | x in s'.locks && s'.locks[x] in s'.heap ensures s'.heap[s'.locks[x]].refCount == |EngagedIn(s', x)| {
      CountFrame(s, s', t, x);
      if x == k {
        forall u: Thread | u < |s.pcs| ensures !Engaged(s.pcs[u], k) {
          assert LocalInv(s, s.pcs[u]);
        }
        assert EngagedIn(s, k) == {};
      }
    }
  }

  lemma {:induction false} InvReadCount(s: State, t: Thread)
    requires Inv(s) && s.IsThread(t) && s.pcs[t].ReadCount? && LockStep(s, t).Some?
    ensures Inv(LockStep(s, t).value)
  {
    var pc := s.pcs[t];
    assert LocalInv(s, pc);
    QuietStep(s, s.At(t, WriteCount(pc.k, pc.o, s.heap[pc.o].refCount)), t);
  }

  /** t, which holds createLock, writes the count of k's entry. */
  lemma {:induction false} CountStep(s: State, s': State, t: Thread, k: TradeNo, o: ObjectId, n: int)
    requires Inv(s) && Moved(s, s', t) && s.createHolder == Some(t) && k in s.locks && s.locks[k] == o && o in s.heap
    requires s' == SetCount(s, o, n).(pcs := s'.pcs)
    requires InCreate(s.pcs[t]) && InCreate(s'.pcs[t]) && LocalInv(s', s'.pcs[t])
    requires !Holding(s.pcs[t]) && !Holding(s'.pcs[t])
    requires n == s.heap[o].refCount + Share(s', t, k) - Share(s, t, k)
    requires forall x :: x != k ==> !Engaged(s'.pcs[t], x) && !Engaged(s.pcs[t], x) && !Pins(s.pcs[t], x)
    requires n > 0 || Pins(s'.pcs[t], k)
    ensures Inv(s')
  {
    CreateKept(s, s', t);
    TableKept(s, s');
    ThreadsExtended(s, s', t);
    CountMoved(s, s', t);
    LiveWorked(s, s', t, k);
    HolderKept(s, s', t);
  }

  lemma {:induction false} CountIsNatural(s: State, k: TradeNo)
    requires CountInv(s) && k in s.locks && s.locks[k] in s.heap
    ensures s.heap[s.locks[k]].refCount >= 0
  {}

  lemma {:induction false} InvWriteCount(s: State, t: Thread)
    requires Inv(s) && s.IsThread(t) && s.pcs[t].WriteCount? && LockStep(s, t).Some?
    ensures Inv(LockStep(s, t).value)
  {
    var pc := s.pcs[t];
    assert LocalInv(s, pc);
    CountIsNatural(s, pc.k);
    CountStep(s, SetCount(s, pc.o, pc.tmp + 1).At(t, UnlockCreate(pc.k, pc.o)), t, pc.k, pc.o, pc.tmp + 1);
  }

  lemma {:induction false} InvUnlockCreate(s: State, t: Thread)
    requires Inv(s) && s.IsThread(t) && s.pcs[t].UnlockCreate?
    ensures Inv(LockStep(s, t).value)
  {
    var pc := s.pcs[t];
    assert LocalInv(s, pc);
    var s' := s.(createHolder := None).At(t, LockMutex(pc.k, pc.o));
    CreateGiven(s, s', t);
    CreateStep(s, s', t);
    assert FreeCreate(s).At(t, LockMutex(pc.k, pc.o)) == s';
  }

  /** t locks or unlocks the mutex of an object. */
  lemma {:induction false} MutexStep(s: State, s': State, t: Thread)
    requires Inv(s) && Moved(s, s', t) && SameCounts(s, s') && s' == s.(pcs := s'.pcs, heap := s'.heap)
    requires !InCreate(s.pcs[t]) && !InCreate(s'.pcs[t]) && LocalInv(s', s'.pcs[t])
    requires forall k :: Engaged(s'.pcs[t], k) == Engaged(s.pcs[t], k)
    requires HolderInv(s')
    ensures Inv(s')
  {
    CreateKept(s, s', t);
    TableKept(s, s');
    ThreadsKept(s, s', t);
    CountKept(s, s', t);
    LiveKept(s, s', t);
  }

  lemma {:induction false} InvLockMutex(s: State, t: Thread)
    requires Inv(s) && s.IsThread(t) && s.pcs[t].LockMutex? && LockStep(s, t).Some?
    ensures Inv(LockStep(s, t).value)
  {
    var pc := s.pcs[t];
    assert LocalInv(s, pc);
    var s' := SetHolder(s, pc.o, Some(t)).At(t, Critical(pc.k, pc.o));
    HolderTaken(s, s', t, pc.o);
    MutexStep(s, s', t);
  }

  lemma {:induction false} InvCritical(s: State, t: Thread)
    requires Inv(s) && s.IsThread(t) && s.pcs[t].Critical?
    ensures Inv(UnlockStep(s, t).value)
  {
    var pc := s.pcs[t];
    assert LocalInv(s, pc);
    QuietStep(s, s.At(t, Lookup(pc.k, pc.o)), t);
  }

  lemma {:induction false} InvLookup(s: State, t: Thread)
    requires Inv(s) && s.IsThread(t) && s.pcs[t].Lookup?
    ensures Inv(UnlockStep(s, t).value)
  {
    var pc := s.pcs[t];
    assert LocalInv(s, pc);
    QuietStep(s, s.At(t, UnlockMutex(pc.k, pc.o)), t);
  }

  lemma {:induction false} InvUnlockMutex(s: State, t: Thread)
    requires Inv(s) && s.IsThread(t) && s.pcs[t].UnlockMutex? && UnlockStep(s, t).Some?
    ensures Inv(UnlockStep(s, t).value)
  {
    var pc := s.pcs[t];
    assert LocalInv(s, pc);
    var s' := SetHolder(s, pc.o, None).At(t, RelockCreate(pc.k, pc.o));
    HolderFreed(s, s', t, pc.o);
    MutexStep(s, s', t);
    assert UnlockStep(s, t).value == s';
  }

  lemma {:induction false} InvRelockCreate(s: State, t: Thread)
    requires Inv(s) && s.IsThread(t) && s.pcs[t].RelockCreate? && UnlockStep(s, t).Some?
    ensures Inv(UnlockStep(s, t).value)
  {
    var pc := s.pcs[t];
    assert LocalInv(s, pc);
    var s' := s.(createHolder := Some(t)).At(t, RereadCount(pc.k, pc.o));
    CreateTaken(s, s', t);
    CreateStep(s, s', t);
  }

  lemma {:induction false} InvRereadCount(s: State, t: Thread)
    requires Inv(s) && s.IsThread(t) && s.pcs[t].RereadCount? && UnlockStep(s, t).Some?
    ensures Inv(UnlockStep(s, t).value)
  {
    var pc := s.pcs[t];
    assert LocalInv(s, pc);
    QuietStep(s, s.At(t, RewriteCount(pc.k, pc.o, s.heap[pc.o].refCount)), t);
  }

  lemma {:induction false} InvRewriteCount(s: State, t: Thread)
    requires Inv(s) && s.IsThread(t) && s.pcs[t].RewriteCount? && UnlockStep(s, t).Some?
    ensures Inv(UnlockStep(s, t).value)
  {
    var pc := s.pcs[t];
    assert LocalInv(s, pc);
    CountStep(s, SetCount(s, pc.o, pc.tmp - 1).At(t, TestCount(pc.k, pc.o)), t, pc.k, pc.o, pc.tmp - 1);
  }

  lemma {:induction false} InvTestCount(s: State, t: Thread)
    requires Inv(s) && s.IsThread(t) && s.pcs[t].TestCount? && UnlockStep(s, t).Some?
    ensures Inv(UnlockStep(s, t).value)
  {
    var pc := s.pcs[t];
    assert LocalInv(s, pc);
    CountIsNatural(s, pc.k);
    if s.heap[pc.o].refCount == 0 {
      QuietStep(s, s.At(t, Delete(pc.k, pc.o)), t);
    } else {
      CountStep(s, SetCount(s, pc.o, s.heap[pc.o].refCount).At(t, ReunlockCreate(pc.k)), t, pc.k, pc.o,
        s.heap[pc.o].refCount);
      assert SetCount(s, pc.o, s.heap[pc.o].refCount) == s;
    }
  }

  lemma {:induction false} InvDelete(s: State, t: Thread)
    requires Inv(s) && s.IsThread(t) && s.pcs[t].Delete?
    ensures Inv(UnlockStep(s, t).value)
  {
    var k := s.pcs[t].k;
    assert LocalInv(s, s.pcs[t]);
    var s' := s.(locks := s.locks - {k}).At(t, ReunlockCreate(k));
    CreateKept(s, s', t);
    assert TableInv(s');
    DeleteThreads(s, s', t, k);
    DeleteCounts(s, s', t, k);
    LiveWorked(s, s', t, k);
    HolderKept(s, s', t);
  }

  /** An entry with count zero has no engaged thread, so deleting it takes it from nobody. */
  lemma {:induction false} NobodyEngaged(s: State, u: Thread, k: TradeNo)
    requires CountInv(s) && s.IsThread(u) && k in s.locks && s.locks[k] in s.heap && s.heap[s.locks[k]].refCount == 0
    ensures !Engaged(s.pcs[u], k)
  {
    assert EngagedIn(s, k) == {};
    assert u !in EngagedIn(s, k);
  }

  lemma {:induction false} DeleteThreads(s: State, s': State, t: Thread, k: TradeNo)
    requires Inv(s) && Moved(s, s', t) && s.createHolder == Some(t) && s'.locks == s.locks - {k}
    requires k in s.locks && s.heap[s.locks[k]].refCount == 0 && LocalInv(s', s'.pcs[t])
    ensures ThreadsInv(s')
  {
    forall u | 0 <= u < |s.pcs| && u != t && Refers(s.pcs[u])
      ensures s.pcs[u].k in s'.locks && s'.locks[s.pcs[u].k] == s.pcs[u].o
    {
      assert LocalInv(s, s.pcs[u]) && !InCreate(s.pcs[u]);
      NobodyEngaged(s, u, k);
    }
    ThreadsGuarded(s, s', t);
  }

  lemma {:induction false} DeleteCounts(s: State, s': State, t: Thread, k: TradeNo)
    requires CountInv(s) && Moved(s, s', t) && s'.locks == s.locks - {k} && s'.heap == s.heap
    requires forall x :: !Engaged(s'.pcs[t], x) && !Engaged(s.pcs[t], x)
    ensures CountInv(s')
  {
    forall x | x in s'.locks && s'.locks[x] in s'.heap ensures s'.heap[s'.locks[x]].refCount == |EngagedIn(s', x)| {
      CountFrame(s, s', t, x);
    }
  }

  lemma {:induction false} InvReunlockCreate(s: State, t: Thread)
    requires Inv(s) && s.IsThread(t) && s.pcs[t].ReunlockCreate?
    ensures Inv(UnlockStep(s, t).value)
  {
    var s' := s.(createHolder := None).At(t, Idle);
    CreateGiven(s, s', t);
    CreateStep(s, s', t);
    assert FreeCreate(s).At(t, Idle) == s';
  }

  /** The invariant is inductive: no step of any thread breaks it. */
  lemma {:induction false} StepInv(s: State, t: Thread, a: Action)
    requires Inv(s) && s.IsThread(t) && Step(s, t, a).Some?
    ensures Inv(Step(s, t, a).value) && |Step(s, t, a).value.pcs| == |s.pcs|
  {
    StepMovesOnly(s, t, a);
    if s.pcs[t].Idle? {
      InvStart(s, t, a.k);
    } else if Unlocking(s.pcs[t]) {
      UnlockStepInv(s, t);
    } else {
      LockStepInv(s, t);
    }
  }

  lemma {:induction false} LockStepInv(s: State, t: Thread)
    requires Inv(s) && s.IsThread(t) && !Unlocking(s.pcs[t]) && LockStep(s, t).Some?
    ensures Inv(LockStep(s, t).value)
  {
    match s.pcs[t]
    case LockCreate(_) => InvLockCreate(s, t);
    case Load(k) => if k in s.locks { InvLoadFound(s, t); } else { InvLoadMissing(s, t); }
    case Store(_, _) => InvStore(s, t);
    case ReadCount(_, _) => InvReadCount(s, t);
    case WriteCount(_, _, _) => InvWriteCount(s, t);
    case UnlockCreate(_, _) => InvUnlockCreate(s, t);
    case LockMutex(_, _) => InvLockMutex(s, t);
  }

  lemma {:induction false} UnlockStepInv(s: State, t: Thread)
    requires Inv(s) && s.IsThread(t) && Unlocking(s.pcs[t]) && UnlockStep(s, t).Some?
    ensures Inv(UnlockStep(s, t).value)
  {
    match s.pcs[t]
    case Critical(_, _) => InvCritical(s, t);
    case Lookup(_, _) => InvLookup(s, t);
    case UnlockMutex(_, _) => InvUnlockMutex(s, t);
    case RelockCreate(_, _) => InvRelockCreate(s, t);
    case RereadCount(_, _) => InvRereadCount(s, t);
    case RewriteCount(_, _, _) => InvRewriteCount(s, t);
    case TestCount(_, _) => InvTestCount(s, t);
    case Delete(_, _) => InvDelete(s, t);
    case ReunlockCreate(_) => InvReunlockCreate(s, t);
  }

  // ---------------------------------------------------------------------------------------------------
  // Whole runs
  // ---------------------------------------------------------------------------------------------------

  datatype Move = Move(t: Thread, a: Action)

  /** The state after the scheduler has picked these moves in order; a pick that cannot move is skipped.
      The reachable states are Exec(Init(n), schedule) for every n and every schedule. */
  function Exec(s: State, schedule: seq<Move>): State
    decreases |schedule|
  {
    if schedule == [] then s else Exec(Picked(s, schedule[0]), schedule[1..])
  }

  lemma {:induction false} InitInv(n: nat)
    ensures Inv(Init(n))
  {
  }

  lemma {:induction false} ExecInv(s: State, schedule: seq<Move>)
    requires Inv(s)
    ensures Inv(Exec(s, schedule)) && |Exec(s, schedule).pcs| == |s.pcs|
    decreases |schedule|
  {
    if schedule != [] {
      var m := schedule[0];
      if s.IsThread(m.t) && Step(s, m.t, m.a).Some? {
        StepInv(s, m.t, m.a);
        assert schedule == [m] + schedule[1..];
        ExecFirst(s, m, schedule[1..]);
        ExecInv(Step(s, m.t, m.a).value, schedule[1..]);
      } else {
        ExecInv(s, schedule[1..]);
      }
    }
  }

  /** What one pick of the scheduler does. */
  function Picked(s: State, m: Move): State {
    var next := if s.IsThread(m.t) then Step(s, m.t, m.a) else None;
    if next.Some? then next.value else s
  }

  lemma {:induction false} ExecLast(s: State, schedule: seq<Move>, m: Move)
    ensures Exec(s, schedule + [m]) == Picked(Exec(s, schedule), m)
    decreases |schedule|
  {
    if schedule == [] {
      assert schedule + [m] == [m];
      assert [m][1..] == [];
    } else {
      assert (schedule + [m])[1..] == schedule[1..] + [m];
      ExecLast(Picked(s, schedule[0]), schedule[1..], m);
    }
  }

  lemma {:induction false} LockStepKeepsKey(s: State, t: Thread)
    requires s.IsThread(t) && !Unlocking(s.pcs[t]) && LockStep(s, t).Some?
    ensures var pc := LockStep(s, t).value.pcs[t]; !pc.Idle? && !s.pcs[t].Idle? && pc.k == s.pcs[t].k
  {
  }

  lemma {:induction false} UnlockStepKeepsKey(s: State, t: Thread)
    requires s.IsThread(t) && Unlocking(s.pcs[t]) && UnlockStep(s, t).Some?
    ensures var pc := UnlockStep(s, t).value.pcs[t]; pc.Idle? || pc.k == s.pcs[t].k
  {
  }

  /** A thread that is not idle after a pick was idle and has been started with its key, or had it before. */
  lemma {:induction false} PickedKey(s: State, m: Move, t: Thread)
    requires s.IsThread(t)
    ensures var s' := Picked(s, m);
      s'.IsThread(t) &&
      (!s'.pcs[t].Idle? ==>
         if s.pcs[t].Idle? then m == Move(t, Start(s'.pcs[t].k)) else s'.pcs[t].k == s.pcs[t].k)
  {
    if s.IsThread(m.t) && Step(s, m.t, m.a).Some? {
      StepMovesOnly(s, m.t, m.a);
      if m.t == t && !s.pcs[t].Idle? {
        if Unlocking(s.pcs[t]) {
          UnlockStepKeepsKey(s, t);
        } else {
          LockStepKeepsKey(s, t);
        }
      }
    }
  }

  /** The call of LockOrder(k) by t that move i of the schedule is: t was idle before it and has not been since. */
  ghost predicate Called(n: nat, schedule: seq<Move>, t: Thread, i: nat, k: TradeNo)
    requires t < n && i < |schedule|
  {
    && schedule[i] == Move(t, Start(k))
    && IdleAfter(n, schedule, t, i)
    && forall j :: i < j <= |schedule| ==> !IdleAfter(n, schedule, t, j)
  }

  /** Thread t is idle after the first i moves. */
  predicate IdleAfter(n: nat, schedule: seq<Move>, t: Thread, i: nat)
    requires i <= |schedule|
  {
    var s := Exec(Init(n), schedule[..i]);
    s.IsThread(t) && s.pcs[t].Idle?
  }

  /** In every interleaving the order a thread works on is the one it called LockOrder with, in the call it has not
      returned from. */
  lemma {:induction false} KeyOfTheCall(n: nat, schedule: seq<Move>, t: Thread)
    requires t < n
    ensures var s := Exec(Init(n), schedule);
      s.IsThread(t) &&
      (!s.pcs[t].Idle? ==> exists i :: 0 <= i < |schedule| && Called(n, schedule, t, i, s.pcs[t].k))
  {
    if schedule != [] {
      var last := |schedule| - 1;
      var before, m := schedule[..last], schedule[last];
      assert schedule == before + [m] && schedule[..|schedule|] == schedule;
      KeyOfTheCall(n, before, t);
      ExecLast(Init(n), before, m);
      PickedKey(Exec(Init(n), before), m, t);
      var s, s' := Exec(Init(n), before), Exec(Init(n), schedule);
      if !s'.pcs[t].Idle? {
        assert !IdleAfter(n, schedule, t, |schedule|);
        if s.pcs[t].Idle? {
          assert Called(n, schedule, t, last, s'.pcs[t].k);
        } else {
          var i :| 0 <= i < last && Called(n, before, t, i, s.pcs[t].k);
          CallStands(n, before, m, t, i, s.pcs[t].k);
        }
      }
    }
  }

  lemma {:induction false} CallStands(n: nat, before: seq<Move>, m: Move, t: Thread, i: nat, k: TradeNo)
    requires t < n && i < |before| && Called(n, before, t, i, k)
    requires !IdleAfter(n, before + [m], t, |before| + 1)
    ensures Called(n, before + [m], t, i, k)
  {
    var schedule := before + [m];
    forall j | 0 <= j <= |before| ensures IdleAfter(n, schedule, t, j) == IdleAfter(n, before, t, j) {
      assert schedule[..j] == before[..j];
    }
  }

  /** At most one thread is between LockOrder(k) returning and its UnlockOrder(k) releasing. */
  lemma {:induction false} MutualExclusion(n: nat, schedule: seq<Move>, t: Thread, u: Thread)
    requires t < n && u < n
    ensures
      var s := Exec(Init(n), schedule);
      |s.pcs| == n &&
      (Holding(s.pcs[t]) && Holding(s.pcs[u]) && s.pcs[t].k == s.pcs[u].k ==> t == u)
  {
    InitInv(n);
    ExecInv(Init(n), schedule);
  }

  /** UnlockOrder's lookup, made without createLock, always finds the object this thread locked, its
      unlock releases its own mutex, and no mutex is ever unlocked while free. */
  lemma {:induction false} LookupFindsOwnMutex(n: nat, schedule: seq<Move>, t: Thread)
    requires t < n
    ensures
      var s := Exec(Init(n), schedule);
      && |s.pcs| == n
      && !s.crashed
      && (s.pcs[t].Lookup? ==> s.pcs[t].k in s.locks && s.locks[s.pcs[t].k] == s.pcs[t].o)
      && (s.pcs[t].UnlockMutex? ==> s.pcs[t].o in s.heap && s.heap[s.pcs[t].o].holder == Some(t))
  {
    InitInv(n);
    ExecInv(Init(n), schedule);
  }

  /** A reference count is always the number of threads engaged with the order, and outside the
      createLock sections an entry exists exactly for the orders some thread is engaged with. */
  lemma {:induction false} CountsAreExact(n: nat, schedule: seq<Move>, k: TradeNo)
    ensures
      var s := Exec(Init(n), schedule);
      && (k in s.locks ==> s.locks[k] in s.heap && s.heap[s.locks[k]].refCount == |EngagedIn(s, k)|)
      && (s.createHolder.None? ==> (k in s.locks <==> EngagedIn(s, k) != {}))
  {
    InitInv(n);
    ExecInv(Init(n), schedule);
    var s := Exec(Init(n), schedule);
    if u: Thread :| u in EngagedIn(s, k) {
      assert LocalInv(s, s.pcs[u]);
    }
  }

  lemma {:induction false} IdleTableIsEmpty(s: State)
    requires Inv(s) && forall t :: 0 <= t < |s.pcs| ==> s.pcs[t].Idle?
    ensures s.locks == map[]
  {
    forall k ensures k !in s.locks {
      assert EngagedIn(s, k) == {};
    }
  }

  /** Nothing leaks: with every thread idle the table is empty. */
  lemma {:induction false} QuiescentTableIsEmpty(n: nat, schedule: seq<Move>)
    requires forall t :: 0 <= t < |Exec(Init(n), schedule).pcs| ==> Exec(Init(n), schedule).pcs[t].Idle?
    ensures Exec(Init(n), schedule).locks == map[]
  {
    InitInv(n);
    ExecInv(Init(n), schedule);
    IdleTableIsEmpty(Exec(Init(n), schedule));
  }

  /** In every reachable state with an unfinished thread some thread can step. */
  lemma {:induction false} DeadlockFree(s: State, t: Thread) returns (u: Thread)
    requires Inv(s) && s.IsThread(t) && !s.pcs[t].Idle?
    ensures s.IsThread(u) && Advance(s, u).Some?
  {
    assert LocalInv(s, s.pcs[t]);
    if s.createHolder.Some? {
      u := s.createHolder.value;
      assert LocalInv(s, s.pcs[u]);
    } else if s.pcs[t].LockMutex? && s.heap[s.pcs[t].o].holder.Some? {
      u := s.heap[s.pcs[t].o].holder.value;
    } else {
      u := t;
    }
  }

  /** How many steps a thread is at most away from being idle again. */
  function Remaining(pc: PC): nat {
    match pc
    case Idle => 0
    case LockCreate(_) => 16
    case Load(_) => 15
    case Store(_, _) => 14
    case ReadCount(_, _) => 13
    case WriteCount(_, _, _) => 12
    case UnlockCreate(_, _) => 11
    case LockMutex(_, _) => 10
    case Critical(_, _) => 9
    case Lookup(_, _) => 8
    case UnlockMutex(_, _) => 7
    case RelockCreate(_, _) => 6
    case RereadCount(_, _) => 5
    case RewriteCount(_, _, _) => 4
    case TestCount(_, _) => 3
    case Delete(_, _) => 2
    case ReunlockCreate(_) => 1
  }

  function Work(pcs: seq<PC>): nat {
    if pcs == [] then 0 else Remaining(pcs[0]) + Work(pcs[1..])
  }

  lemma {:induction false} WorkUpdate(pcs: seq<PC>, t: nat, pc: PC)
    requires t < |pcs|
    ensures Work(pcs[t := pc]) == Work(pcs) - Remaining(pcs[t]) + Remaining(pc)
  {
    if t == 0 {
      assert pcs[t := pc][1..] == pcs[1..];
    } else {
      assert pcs[t := pc][1..] == pcs[1..][t - 1 := pc];
      WorkUpdate(pcs[1..], t - 1, pc);
    }
  }

  lemma {:induction false} NoWorkMeansIdle(pcs: seq<PC>)
    ensures Work(pcs) == 0 <==> forall t :: 0 <= t < |pcs| ==> pcs[t].Idle?
  {
    if pcs != [] {
      NoWorkMeansIdle(pcs[1..]);
      assert forall t :: 0 < t < |pcs| ==> pcs[t] == pcs[1..][t - 1];
    }
  }

  /** Only t moves, and it comes nearer to being idle. */
  predicate MovesOn(s: State, t: Thread, s': State) {
    Moved(s, s', t) && Remaining(s'.pcs[t]) < Remaining(s.pcs[t])
  }

  lemma {:induction false} LockStepMoves(s: State, t: Thread)
    requires s.IsThread(t) && !Unlocking(s.pcs[t]) && LockStep(s, t).Some?
    ensures MovesOn(s, t, LockStep(s, t).value)
  {
  }

  lemma {:induction false} UnlockStepMoves(s: State, t: Thread)
    requires s.IsThread(t) && Unlocking(s.pcs[t]) && UnlockStep(s, t).Some?
    ensures MovesOn(s, t, UnlockStep(s, t).value)
  {
  }

  lemma {:induction false} AdvanceMoves(s: State, t: Thread)
    requires s.IsThread(t) && Advance(s, t).Some?
    ensures MovesOn(s, t, Advance(s, t).value)
  {
    if Unlocking(s.pcs[t]) {
      UnlockStepMoves(s, t);
    } else {
      LockStepMoves(s, t);
    }
  }

  lemma {:induction false} StepMovesOnly(s: State, t: Thread, a: Action)
    requires s.IsThread(t) && Step(s, t, a).Some?
    ensures |Step(s, t, a).value.pcs| == |s.pcs|
    ensures Step(s, t, a).value.pcs == s.pcs[t := Step(s, t, a).value.pcs[t]]
  {
    if s.pcs[t] != Idle {
      AdvanceMoves(s, t);
    }
  }

  /** Every step of an engaged thread brings it nearer to being idle. */
  lemma {:induction false} AdvanceReducesWork(s: State, t: Thread)
    requires s.IsThread(t) && Advance(s, t).Some?
    ensures Work(Advance(s, t).value.pcs) < Work(s.pcs)
  {
    AdvanceMoves(s, t);
    WorkUpdate(s.pcs, t, Advance(s, t).value.pcs[t]);
  }

  /** While work is left some thread makes some of it, and the invariant stays. */
  lemma {:induction false} Progress(s: State) returns (u: Thread)
    requires Inv(s) && Work(s.pcs) > 0
    ensures s.IsThread(u) && Advance(s, u).Some?
    ensures Step(s, u, Continue) == Advance(s, u)
    ensures Inv(Advance(s, u).value) && |Advance(s, u).value.pcs| == |s.pcs|
    ensures Work(Advance(s, u).value.pcs) < Work(s.pcs)
  {
    NoWorkMeansIdle(s.pcs);
    var t: Thread :| t < |s.pcs| && !s.pcs[t].Idle?;
    u := DeadlockFree(s, t);
    AdvanceReducesWork(s, u);
    StepInv(s, u, Continue);
  }

  lemma {:induction false} ExecFirst(s: State, m: Move, rest: seq<Move>)
    requires s.IsThread(m.t) && Step(s, m.t, m.a).Some?
    ensures Exec(s, [m] + rest) == Exec(Step(s, m.t, m.a).value, rest)
  {
    assert ([m] + rest)[1..] == rest;
  }

  /** From any reachable state, letting the engaged threads go on (in whatever order deadlock freedom
      offers) finishes all of them and empties the table: nobody is stuck for ever. */
  lemma {:induction false} Drain(s: State) returns (schedule: seq<Move>)
    requires Inv(s)
    ensures forall m :: m in schedule ==> m.a.Continue?
    ensures |schedule| <= Work(s.pcs)
    ensures |Exec(s, schedule).pcs| == |s.pcs|
    ensures Work(Exec(s, schedule).pcs) == 0 && Exec(s, schedule).locks == map[]
    decreases Work(s.pcs)
  {
    if Work(s.pcs) == 0 {
      schedule := [];
      NoWorkMeansIdle(s.pcs);
      IdleTableIsEmpty(s);
    } else {
      var u := Progress(s);
      var rest := Drain(Advance(s, u).value);
      schedule := [Move(u, Continue)] + rest;
      ExecFirst(s, Move(u, Continue), rest);
    }
  }
}
