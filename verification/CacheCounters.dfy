/** The usage counters of common/disk_cache_config.go under concurrent creations and Closes of body storages. Every
    atomic instruction is a step of its own, so two counters of one storage are never changed together, and the
    clamp of a negative counter is a later, separate store. */
module CacheCounters {

  import Basics
  import B = BodyStorage

  type Kind = B.Kind

  /** Where a storage is in its life: created but not counted, counted as active, open (its bytes counted too),
      marked closed, no longer active, closed. The two clamping phases follow a counter that was seen negative. */
  datatype Phase = New | Counted | Open | Closing | ClampActive | Inactive | ClampUsage | Closed

  datatype Storage = Storage(kind: Kind, size: nat, phase: Phase)

  datatype Counters = Counters(active: int, usage: int)

  datatype State = State(storages: seq<Storage>, disk: Counters, memory: Counters)

  /** A new storage arrives, or a storage takes its next atomic instruction; from Open that is the successful
      swap of the closed flag, and from Closed it is a further Close, which does nothing. */
  datatype Step = Create(kind: Kind, size: nat) | Advance(i: nat)

  function CountersOf(s: State, kind: Kind): Counters {
    if kind.Disk? then s.disk else s.memory
  }

  function SetCounters(s: State, kind: Kind, c: Counters): State {
    if kind.Disk? then s.(disk := c) else s.(memory := c)
  }

  /** The counters and the phase after the next instruction of a storage. Only the disk counters are clamped. */
  function Instruction(st: Storage, c: Counters): (Counters, Phase) {
    match st.phase
    case New => (c.(active := c.active + 1), Counted)
    case Counted => (c.(usage := c.usage + st.size), Open)
    case Open => (c, Closing)
    case Closing => (c.(active := c.active - 1), if st.kind.Disk? && c.active - 1 < 0 then ClampActive else Inactive)
    case ClampActive => (c.(active := 0), Inactive)
    case Inactive =>
      var usage := c.usage - st.size;
      (c.(usage := usage), if st.kind.Disk? && usage < 0 then ClampUsage else Closed)
    case ClampUsage => (c.(usage := 0), Closed)
    case Closed => (c, Closed)
  }

  function Next(s: State, step: Step): State {
    match step
    case Create(kind, size) => s.(storages := s.storages + [Storage(kind, size, New)])
    case Advance(i) =>
      if i >= |s.storages| then s
      else
        var st := s.storages[i];
        var (c, phase) := Instruction(st, CountersOf(s, st.kind));
        SetCounters(s.(storages := s.storages[i := st.(phase := phase)]), st.kind, c)
  }

  function Run(s: State, steps: seq<Step>): State {
    if steps == [] then s else Next(Run(s, steps[..|steps| - 1]), steps[|steps| - 1])
  }

  const START := State([], Counters(0, 0), Counters(0, 0))

  // ---------------------------------------------------------------------------------------------------
  // What the counters should be
  // ---------------------------------------------------------------------------------------------------

  /** The two counters of a kind. */
  datatype Aspect = Active | Usage

  /** What one storage contributes to a counter. */
  function Share(st: Storage, kind: Kind, aspect: Aspect): nat {
    if st.kind != kind then 0
    else
      match st.phase
      case New | ClampUsage | Closed => 0
      case Counted => if aspect.Active? then 1 else 0
      case Open | Closing => if aspect.Active? then 1 else st.size
      case ClampActive | Inactive => if aspect.Active? then 0 else st.size
  }

  function Total(storages: seq<Storage>, kind: Kind, aspect: Aspect): nat {
    if storages == [] then 0
    else Total(storages[..|storages| - 1], kind, aspect) + Share(storages[|storages| - 1], kind, aspect)
  }

  function Totals(storages: seq<Storage>, kind: Kind): Counters {
    Counters(Total(storages, kind, Active), Total(storages, kind, Usage))
  }

  predicate NoClamp(storages: seq<Storage>) {
    forall i :: 0 <= i < |storages| ==> !storages[i].phase.ClampActive? && !storages[i].phase.ClampUsage?
  }

  predicate Inv(s: State) {
    && s.disk == Totals(s.storages, B.Disk)
    && s.memory == Totals(s.storages, B.Memory)
    && NoClamp(s.storages)
  }

  lemma {:induction false} TotalUpdate(storages: seq<Storage>, i: nat, st: Storage, kind: Kind, aspect: Aspect)
    requires i < |storages|
    ensures Total(storages[i := st], kind, aspect) + Share(storages[i], kind, aspect) ==
      Total(storages, kind, aspect) + Share(st, kind, aspect)
  {
    var k := |storages| - 1;
    if i == k {
      assert storages[i := st][..k] == storages[..k];
    } else {
      TotalUpdate(storages[..k], i, st, kind, aspect);
      assert storages[i := st][..k] == storages[..k][i := st];
    }
  }

  lemma {:induction false} TotalCovers(storages: seq<Storage>, i: nat, kind: Kind, aspect: Aspect)
    requires i < |storages|
    ensures Total(storages, kind, aspect) >= Share(storages[i], kind, aspect)
  {
    if i < |storages| - 1 {
      TotalCovers(storages[..|storages| - 1], i, kind, aspect);
    }
  }

  lemma {:induction false} TotalNew(storages: seq<Storage>, st: Storage, kind: Kind, aspect: Aspect)
    requires st.phase.New?
    ensures Total(storages + [st], kind, aspect) == Total(storages, kind, aspect)
  {
    assert (storages + [st])[..|storages|] == storages;
  }

  // ---------------------------------------------------------------------------------------------------
  // Every step keeps it
  // ---------------------------------------------------------------------------------------------------

  /** The counters move as the storage's share does. */
  predicate Follows(c: Counters, c': Counters, st: Storage, st': Storage) {
    && c'.active + Share(st, st.kind, Active) == c.active + Share(st', st.kind, Active)
    && c'.usage + Share(st, st.kind, Usage) == c.usage + Share(st', st.kind, Usage)
  }

  /** One instruction moves the counters by exactly the change of the storage's share, and never goes below zero
      when the counters cover that share. */
  lemma {:induction false} InstructionMovesShare(st: Storage, c: Counters)
    requires !st.phase.ClampActive? && !st.phase.ClampUsage?
    requires c.active >= Share(st, st.kind, Active) && c.usage >= Share(st, st.kind, Usage)
    ensures var (c', phase) := Instruction(st, c);
      Follows(c, c', st, st.(phase := phase)) && !phase.ClampActive? && !phase.ClampUsage?
  {}

  lemma {:induction false} OtherKindUnchanged(storages: seq<Storage>, i: nat, st: Storage, kind: Kind)
    requires i < |storages| && st.kind == storages[i].kind != kind
    ensures Totals(storages[i := st], kind) == Totals(storages, kind)
  {
    TotalUpdate(storages, i, st, kind, Active);
    TotalUpdate(storages, i, st, kind, Usage);
  }

  lemma {:induction false} OwnKindMoves(storages: seq<Storage>, i: nat, st: Storage, c: Counters)
    requires i < |storages| && st.kind == storages[i].kind && Follows(Totals(storages, st.kind), c, storages[i], st)
    ensures Totals(storages[i := st], st.kind) == c
  {
    TotalUpdate(storages, i, st, st.kind, Active);
    TotalUpdate(storages, i, st, st.kind, Usage);
  }

  lemma {:induction false} AdvanceInv(s: State, i: nat)
    requires Inv(s) && i < |s.storages|
    ensures Inv(Next(s, Advance(i)))
  {
    var st := s.storages[i];
    var c := CountersOf(s, st.kind);
    var (c', phase) := Instruction(st, c);
    var st' := st.(phase := phase);
    assert Follows(c, c', st, st') && !phase.ClampActive? && !phase.ClampUsage? by {
      TotalCovers(s.storages, i, st.kind, Active);
      TotalCovers(s.storages, i, st.kind, Usage);
      InstructionMovesShare(st, c);
    }
    OwnKindMoves(s.storages, i, st', c');
    OtherKindUnchanged(s.storages, i, st', if st.kind.Disk? then B.Memory else B.Disk);
  }

  lemma {:induction false} CreateInv(s: State, st: Storage)
    requires Inv(s) && st.phase.New?
    ensures Inv(s.(storages := s.storages + [st]))
  {
    TotalNew(s.storages, st, B.Disk, Active);
    TotalNew(s.storages, st, B.Disk, Usage);
    TotalNew(s.storages, st, B.Memory, Active);
    TotalNew(s.storages, st, B.Memory, Usage);
  }

  lemma {:induction false} NextInv(s: State, step: Step)
    requires Inv(s)
    ensures Inv(Next(s, step))
  {
    match step
    case Create(kind, size) => CreateInv(s, Storage(kind, size, New));
    case Advance(i) =>
      if i < |s.storages| {
        AdvanceInv(s, i);
      }
  }

  lemma {:induction false} RunInv(steps: seq<Step>)
    ensures Inv(Run(START, steps))
  {
    if steps != [] {
      RunInv(steps[..|steps| - 1]);
      NextInv(Run(START, steps[..|steps| - 1]), steps[|steps| - 1]);
    }
  }

  // ---------------------------------------------------------------------------------------------------
  // Consequences
  // ---------------------------------------------------------------------------------------------------

  /** In no interleaving is a counter ever negative, so no clamp ever fires. */
  lemma {:induction false} ClampsNeverFire(steps: seq<Step>)
    ensures var s := Run(START, steps);
      && s.disk.active >= 0 && s.disk.usage >= 0 && s.memory.active >= 0 && s.memory.usage >= 0
      && forall i :: 0 <= i < |s.storages| ==> !s.storages[i].phase.ClampActive? && !s.storages[i].phase.ClampUsage?
  {
    RunInv(steps);
  }

  /** No creation and no Close is under way. */
  predicate Quiescent(storages: seq<Storage>) {
    forall i :: 0 <= i < |storages| ==> storages[i].phase.New? || storages[i].phase.Open? || storages[i].phase.Closed?
  }

  predicate IsOpen(st: Storage, kind: Kind) {
    st.phase.Open? && st.kind == kind
  }

  function OpenSizes(storages: seq<Storage>, kind: Kind): seq<nat> {
    if storages == [] then []
    else
      var before, last := OpenSizes(storages[..|storages| - 1], kind), storages[|storages| - 1];
      if IsOpen(last, kind) then before + [last.size] else before
  }

  lemma {:induction false} QuiescentTotal(storages: seq<Storage>, kind: Kind)
    requires Quiescent(storages)
    ensures var sizes := OpenSizes(storages, kind); Totals(storages, kind) == Counters(|sizes|, Basics.Total(sizes))
  {
    if storages != [] {
      var k := |storages| - 1;
      QuiescentTotal(storages[..k], kind);
      var before := OpenSizes(storages[..k], kind);
      Basics.TotalLast(before, storages[k].size);
    }
  }

  /** Conservation: when no operation is under way the active counts are the numbers of open storages and the
      usages the sums of their sizes, for disk and memory separately. */
  lemma {:induction false} Conservation(steps: seq<Step>)
    requires Quiescent(Run(START, steps).storages)
    ensures var s := Run(START, steps);
      && s.disk == Counters(|OpenSizes(s.storages, B.Disk)|, Basics.Total(OpenSizes(s.storages, B.Disk)))
      && s.memory == Counters(|OpenSizes(s.storages, B.Memory)|, Basics.Total(OpenSizes(s.storages, B.Memory)))
  {
    RunInv(steps);
    QuiescentTotal(Run(START, steps).storages, B.Disk);
    QuiescentTotal(Run(START, steps).storages, B.Memory);
  }

  lemma {:induction false} NoneOpen(storages: seq<Storage>, kind: Kind)
    requires forall i :: 0 <= i < |storages| ==> storages[i].phase.Closed?
    ensures OpenSizes(storages, kind) == []
  {
    if storages != [] {
      NoneOpen(storages[..|storages| - 1], kind);
    }
  }

  /** Nothing leaks: once every storage is closed all counters are back at zero. */
  lemma {:induction false} AllClosedIsZero(steps: seq<Step>)
    requires forall i :: 0 <= i < |Run(START, steps).storages| ==> Run(START, steps).storages[i].phase.Closed?
    ensures Run(START, steps).disk == Counters(0, 0) && Run(START, steps).memory == Counters(0, 0)
  {
    Conservation(steps);
    NoneOpen(Run(START, steps).storages, B.Disk);
    NoneOpen(Run(START, steps).storages, B.Memory);
  }

  function Sweep(i: nat, n: nat): seq<Step> {
    if n == 0 then [] else Sweep(i, n - 1) + [Advance(i)]
  }

  /** A storage that is closed ignores every further Close. */
  lemma {:induction false} CloseAgain(s: State, i: nat, n: nat)
    requires i < |s.storages| && s.storages[i].phase.Closed?
    ensures Run(s, Sweep(i, n)) == s
  {
    if n > 0 {
      CloseAgain(s, i, n - 1);
      var all := Sweep(i, n);
      assert all[..|all| - 1] == Sweep(i, n - 1) && all[|all| - 1] == Advance(i);
      assert Run(s, all) == Next(s, Advance(i));
      CloseOnce(s, i);
    }
  }

  lemma {:induction false} CloseOnce(s: State, i: nat)
    requires i < |s.storages| && s.storages[i].phase.Closed?
    ensures Next(s, Advance(i)) == s
  {
    var st := s.storages[i];
    assert st.(phase := Closed) == st;
    assert s.storages[i := st] == s.storages;
  }
}
