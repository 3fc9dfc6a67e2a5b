/** delete_disabled_keys against delete_key on every automatically disabled key from the highest position down
    (controller/channel.go), for every channel. Without blank keys the two agree up to left-over times and reasons. A
    blank key that comes to the end of the list is lost when the keys are stored, and the two then lose different
    things. */
module MultiKeyDeletion {
  import opened Basics
  import opened Text
  import opened MultiKey

  /** delete_key on every automatically disabled position below n, from the highest to the lowest. */
  function DeleteOneByOne(ch: Channel, n: nat): Channel
    decreases n
  {
    if n == 0 then ch
    else if ch.maps.StatusOf(n - 1) == AUTO_DISABLED
    then DeleteOneByOne(Act(ch, DeleteKey(Some(n - 1))), n - 1)
    else DeleteOneByOne(ch, n - 1)
  }

  // ---------------------------------------------------------------------------------------------------
  // What a rebuild leaves is determined by the list of records that is written
  // ---------------------------------------------------------------------------------------------------

  /** The maps of a list of records; statuses are pruned to the first n positions, times and reasons are not. */
  function MapsOf(w: seq<Record>, n: nat): Maps {
    Maps(map i | 0 <= i < |w| && i < n && w[i].status != ENABLED :: w[i].status,
         map i | 0 <= i < |w| && w[i].time.Some? :: w[i].time.value,
         map i | 0 <= i < |w| && w[i].reason.Some? :: w[i].reason.value)
  }

  function Written(w: seq<Record>): Channel {
    var n := |Strip(Keys(w))|;
    Channel(Join(Keys(w), '\n'), n, MapsOf(w, n))
  }

  lemma {:induction false} MapsOfFind(w: seq<Record>, n: nat, i: int)
    ensures Find(MapsOf(w, n).status, i) ==
      (if 0 <= i < |w| && i < n && w[i].status != ENABLED then Some(w[i].status) else None)
    ensures Find(MapsOf(w, n).time, i) == (if 0 <= i < |w| then w[i].time else None)
    ensures Find(MapsOf(w, n).reason, i) == (if 0 <= i < |w| then w[i].reason else None)
  {}

  lemma {:induction false} SameFind<V>(a: map<int, V>, b: map<int, V>)
    requires forall i :: Find(a, i) == Find(b, i)
    ensures a == b
  {
    forall i ensures i in a <==> i in b {
      assert Find(a, i) == Find(b, i);
    }
    forall i | i in a ensures a[i] == b[i] {
      assert Find(a, i) == Find(b, i);
    }
  }

  lemma {:induction false} ReindexValues<V>(m: map<int, V>, n: nat, drop: set<int>, p: V -> bool)
    requires forall i :: i in m ==> p(m[i])
    ensures forall i :: i in Reindex(m, n, drop) ==> p(Reindex(m, n, drop)[i])
  {
    if n > 0 {
      ReindexValues(m, n - 1, drop, p);
    }
  }

  /** Maps that hold what a list says, pruned. */
  lemma {:induction false} MapsAreMapsOf(m: Maps, w: seq<Record>, n: nat)
    requires m.Below(|w|) && forall i :: i in m.status ==> m.status[i] != ENABLED
    requires forall i :: 0 <= i < |w| ==> w[i] == RecordAt(w[i].key, m, i)
    ensures m.(status := map i | i in m.status && i < n :: m.status[i]) == MapsOf(w, n)
  {
    var pruned := map i | i in m.status && i < n :: m.status[i];
    forall i ensures Find(pruned, i) == Find(MapsOf(w, n).status, i) {
      MapsOfFind(w, n, i);
    }
    SameFind(pruned, MapsOf(w, n).status);
    forall i ensures Find(m.time, i) == Find(MapsOf(w, n).time, i) {
      MapsOfFind(w, n, i);
    }
    SameFind(m.time, MapsOf(w, n).time);
    forall i ensures Find(m.reason, i) == Find(MapsOf(w, n).reason, i) {
      MapsOfFind(w, n, i);
    }
    SameFind(m.reason, MapsOf(w, n).reason);
  }

  /** A rebuild with something to write. */
  lemma {:induction false} RebuildIsWritten(ch: Channel, maps: Maps, drop: set<int>, w: seq<Record>)
    requires Counted(ch) && forall i :: i in maps.status ==> maps.status[i] != ENABLED
    requires w == KeepRecords(ViewOf(ch.GetKeys(), maps), |ch.GetKeys()|, drop) && w != [] && Keys(w) != [""]
    ensures Rebuild(ch, maps, drop) == Written(w)
  {
    var keys := ch.GetKeys();
    var remaining, m := KeepKeys(keys, |keys|, drop), ReindexAll(maps, |keys|, drop);
    ReindexView(keys, maps, |keys|, drop);
    KeysOfViewOf(remaining, m);
    assert Keys(w) == remaining;
    KeepKeysMembers(keys, |keys|, drop);
    KeysHaveNoNewline(ch);
    ReadJoinStrip(remaining, '\n');
    ReindexAllBelow(maps, |keys|, drop);
    ReindexValues(maps.status, |keys|, drop, s => s != ENABLED);
    MapsAreMapsOf(m, w, |Strip(remaining)|);
  }

  /** Keys that do not begin with a blank: what is read of them is a prefix. */
  lemma {:induction false} WrittenPrefix(w: seq<Record>)
    requires w != [] && w[0].key != "" && forall k :: k in Keys(w) ==> '\n' !in k
    ensures var ch, n := Written(w), |Strip(Keys(w))|;
      && 1 <= n <= |w| && ch.GetKeys() == Keys(w)[..n] && View(ch) == w[..n]
      && w[n - 1].key != "" && (forall i :: n <= i < |w| ==> w[i].key == "")
  {
    var keys := Keys(w);
    assert StripLeft(keys) == keys;
    StripRightMeaning(keys);
    StripRightParts(keys);
    ReadJoinStrip(keys, '\n');
    var ch, n := Written(w), |Strip(keys)|;
    forall i | 0 <= i < n ensures View(ch)[i] == w[i] {
      MapsOfFind(w, n, i);
    }
  }

  // ---------------------------------------------------------------------------------------------------
  // One by one
  // ---------------------------------------------------------------------------------------------------

  predicate HasOff(v: seq<Record>) {
    exists i :: 0 <= i < |v| && v[i].status == AUTO_DISABLED
  }

  predicate IsNamedSurvivor(r: Record) {
    r.status != AUTO_DISABLED && r.key != ""
  }

  /** The length of the list up to its last survivor that has a name; 0 if there is none. */
  function Cut(v: seq<Record>): nat {
    if v == [] then 0 else if IsNamedSurvivor(v[|v| - 1]) then |v| else Cut(v[..|v| - 1])
  }

  lemma {:induction false} CutMeaning(v: seq<Record>)
    ensures Cut(v) <= |v| && (Cut(v) > 0 ==> IsNamedSurvivor(v[Cut(v) - 1]))
    ensures forall i :: Cut(v) <= i < |v| ==> !IsNamedSurvivor(v[i])
  {
    if v != [] && !IsNamedSurvivor(v[|v| - 1]) {
      CutMeaning(v[..|v| - 1]);
    }
  }

  lemma {:induction false} CutUnique(v: seq<Record>, m: nat)
    requires m <= |v| && (m > 0 ==> IsNamedSurvivor(v[m - 1])) && forall i :: m <= i < |v| ==> !IsNamedSurvivor(v[i])
    ensures Cut(v) == m
  {
    CutMeaning(v);
  }

  /** The first key from position i on that is not blank. */
  function NextNamed(v: seq<Record>, i: nat): nat
    requires i <= |v|
    decreases |v| - i
  {
    if i == |v| || v[i].key != "" then i else NextNamed(v, i + 1)
  }

  lemma {:induction false} NextNamedMeaning(v: seq<Record>, i: nat)
    requires i <= |v|
    ensures i <= NextNamed(v, i) <= |v| && (NextNamed(v, i) < |v| ==> v[NextNamed(v, i)].key != "")
    ensures forall j :: i <= j < NextNamed(v, i) ==> v[j].key == ""
    decreases |v| - i
  {
    if i < |v| && v[i].key == "" {
      NextNamedMeaning(v, i + 1);
    }
  }

  lemma {:induction false} NextNamedUnique(v: seq<Record>, i: nat, j: nat)
    requires i <= j < |v| && v[j].key != "" && forall k :: i <= k < j ==> v[k].key == ""
    ensures NextNamed(v, i) == j
  {
    NextNamedMeaning(v, i);
  }

  /** The list that the last deletion writes: the survivors up to the last one that has a name; or, when all deleted
      keys come after that one, everything before the first of those that has a name. */
  function Leftover(v: seq<Record>): seq<Record> {
    CutMeaning(v);
    var m := Cut(v);
    if HasOff(v[..m]) then Survivors(v[..m])
    else
      NextNamedMeaning(v, m);
      v[..NextNamed(v, m)]
  }

  /** A channel whose keys begin and end with a name and whose statuses lie within them. */
  predicate Neat(ch: Channel) {
    Counted(ch) && GoodEnds(ch.GetKeys()) && forall i :: i in ch.maps.status ==> i < ch.size
  }

  lemma {:induction false} NothingToDelete(ch: Channel, n: nat)
    requires Neat(ch) && !HasOff(View(ch))
    ensures DeleteOneByOne(ch, n) == ch
    decreases n
  {
    if n > 0 {
      assert n <= ch.size ==> View(ch)[n - 1].status == ch.maps.StatusOf(n - 1);
      NothingToDelete(ch, n - 1);
    }
  }

  lemma {:induction false} SurvivorsAll(v: seq<Record>)
    requires !HasOff(v)
    ensures Survivors(v) == v
  {
    FilterAll(v, (r: Record) => r.status != AUTO_DISABLED);
  }

  lemma {:induction false} SurvivorsAppend(a: seq<Record>, b: seq<Record>)
    ensures Survivors(a + b) == Survivors(a) + Survivors(b)
  {
    FilterAppend(a, b, (r: Record) => r.status != AUTO_DISABLED);
  }

  lemma {:induction false} SurvivorsWithout(v: seq<Record>, p: nat)
    requires p < |v| && v[p].status == AUTO_DISABLED
    ensures Survivors(v[..p] + v[p + 1..]) == Survivors(v)
  {
    var one := [v[p]];
    assert v == v[..p] + (one + v[p + 1..]);
    SurvivorsAppend(v[..p], one + v[p + 1..]);
    SurvivorsAppend(one, v[p + 1..]);
    SurvivorsAppend(v[..p], v[p + 1..]);
  }

  /** One deletion, while a key with a name is left at an end. */
  lemma {:induction false} DeleteKeyWrites(ch: Channel, p: nat, w: seq<Record>)
    requires Counted(ch) && p < ch.size && w == View(ch)[..p] + View(ch)[p + 1..] && w != [] && Keys(w) != [""]
    ensures Act(ch, DeleteKey(Some(p))) == Written(w)
  {
    DeleteKeyRebuilds(ch, p);
    KeptWithout(ch, p);
    RebuildIsWritten(ch, WithoutOnes(ch.maps), {p}, w);
  }

  /** A written list that begins with a name gives a neat channel that shows a prefix of it. */
  lemma {:induction false} WrittenNeat(w: seq<Record>, n: nat)
    requires w != [] && w[0].key != "" && (forall k :: k in Keys(w) ==> '\n' !in k) && n == |Strip(Keys(w))|
    ensures Neat(Written(w)) && 1 <= n <= |w| && View(Written(w)) == w[..n]
    ensures w[n - 1].key != "" && forall i :: n <= i < |w| ==> w[i].key == ""
  {
    WrittenPrefix(w);
    assert Keys(w)[..n][0] == w[0].key && Keys(w)[..n][n - 1] == w[n - 1].key;
  }

  /** What is to be shown of a run of deletions from position n - 1 down. */
  predicate Leaves(v: seq<Record>, ch': Channel)
    requires v != []
  {
    if Cut(v) == 0 then ch'.GetKeys() == [v[0].key] else ch' == Written(Leftover(v))
  }

  /** Only the first key is deleted: what is written are all the others. */
  lemma {:induction false} LeavesFirst(v: seq<Record>)
    requires |v| > 1 && v[0].status == AUTO_DISABLED && !HasOff(v[1..]) && v[|v| - 1].key != ""
    ensures Cut(v) == |v| && Leftover(v) == v[1..]
  {
    assert v[|v| - 1] == v[1..][|v| - 2];
    assert v[..|v|] == v && v[..0] + v[1..] == v[1..];
    assert HasOff(v);
    SurvivorsWithout(v, 0);
    SurvivorsAll(v[1..]);
  }

  /** A key in the middle is deleted. */
  lemma {:induction false} LeavesMiddle(v: seq<Record>, p: nat)
    requires 0 < p < |v| - 1 && v[p].status == AUTO_DISABLED && IsNamedSurvivor(v[|v| - 1])
    ensures var w := v[..p] + v[p + 1..];
      Cut(v) == |v| && Cut(w) == |w| && Leftover(v) == (if HasOff(w) then Leftover(w) else w)
  {
    var w := v[..p] + v[p + 1..];
    assert w[|w| - 1] == v[|v| - 1];
    assert v[..|v|] == v && w[..|w|] == w;
    assert HasOff(v);
    SurvivorsWithout(v, p);
    if !HasOff(w) {
      SurvivorsAll(w);
    }
  }

  /** The last key is deleted, and the blank keys before it are lost. */
  lemma {:induction false} LeavesEnd(v: seq<Record>, q: nat)
    requires 0 < q < |v| && v[|v| - 1].status == AUTO_DISABLED && v[|v| - 1].key != "" && v[q - 1].key != ""
    requires forall i :: q <= i < |v| - 1 ==> v[i].key == ""
    ensures var u := v[..q];
      && Cut(v) == Cut(u)
      && (if HasOff(u) then Cut(u) > 0 ==> Leftover(v) == Leftover(u) else Cut(u) > 0 && Leftover(v) == v[..|v| - 1])
  {
    var u, m := v[..q], Cut(v[..q]);
    CutMeaning(u);
    CutUnique(v, m);
    assert v[..m] == u[..m];
    if !HasOff(u) {
      assert IsNamedSurvivor(u[q - 1]);
      assert m == q;
      NextNamedUnique(v, m, |v| - 1);
    } else if m > 0 && !HasOff(u[..m]) {
      assert u[..q] == u;
      NextNamedMeaning(u, m);
      assert u[q - 1].key != "";
      NextNamedUnique(v, m, NextNamed(u, m));
    }
  }

  /** The highest disabled key is deleted, and the rest is written. */
  lemma {:induction false} StepWrites(ch: Channel, p: nat, w: seq<Record>)
    requires Counted(ch) && p < ch.size && View(ch)[p].status == AUTO_DISABLED
    requires w == View(ch)[..p] + View(ch)[p + 1..] && w != [] && Keys(w) != [""]
    ensures DeleteOneByOne(ch, p + 1) == DeleteOneByOne(Written(w), p)
    ensures forall k :: k in Keys(w) ==> '\n' !in k
  {
    DeleteKeyWrites(ch, p, w);
    assert ch.maps.StatusOf(p) == AUTO_DISABLED;
    NoNewlineIn(ch, w);
  }

  /** How the deletion of one key reduces the claim to the list that is then shown. */
  lemma {:induction false} LeavesByFirst(v: seq<Record>)
    requires |v| > 1 && v[0].status == AUTO_DISABLED && !HasOff(v[1..]) && v[|v| - 1].key != ""
    ensures Leaves(v, Written(v[1..]))
  {
    LeavesFirst(v);
  }

  lemma {:induction false} LeavesByMiddle(v: seq<Record>, p: nat, w: seq<Record>, c: Channel)
    requires 0 < p < |v| - 1 && v[p].status == AUTO_DISABLED && IsNamedSurvivor(v[|v| - 1]) && w == v[..p] + v[p + 1..]
    requires if HasOff(w) then Leaves(w, c) else c == Written(w)
    ensures Leaves(v, c)
  {
    LeavesMiddle(v, p);
  }

  lemma {:induction false} LeavesByEnd(v: seq<Record>, q: nat, c: Channel)
    requires 0 < q < |v| && v[|v| - 1].status == AUTO_DISABLED && v[|v| - 1].key != "" && v[q - 1].key != ""
    requires forall i :: q <= i < |v| - 1 ==> v[i].key == ""
    requires if HasOff(v[..q]) then Leaves(v[..q], c) else c == Written(v[..|v| - 1])
    ensures Leaves(v, c)
  {
    LeavesEnd(v, q);
    assert v[..q][0] == v[0];
  }

  lemma {:induction false} StepFirst(ch: Channel, v: seq<Record>, p: nat)
    requires Counted(ch) && v == View(ch) && |v| > 1 && p == 0 && v[p].status == AUTO_DISABLED && !HasOff(v[1..])
    requires v[|v| - 1].key != ""
    ensures Leaves(v, DeleteOneByOne(ch, p + 1))
  {
    var w := v[1..];
    assert v[..p] + v[p + 1..] == w;
    assert Keys(w)[|w| - 1] == v[|v| - 1].key;
    StepWrites(ch, p, w);
    LeavesByFirst(v);
  }

  /** The key at p is deleted and the list w that is left is shown whole, or without the blank keys at its end. */
  lemma {:induction false} StepShows(ch: Channel, v: seq<Record>, p: nat, w: seq<Record>, n: nat)
    requires Counted(ch) && v == View(ch) && 0 < p < |v| && v[p].status == AUTO_DISABLED && v[0].key != ""
    requires w == v[..p] + v[p + 1..] && n == |Strip(Keys(w))|
    ensures 1 <= n <= |w| && Neat(Written(w)) && View(Written(w)) == w[..n]
    ensures w[n - 1].key != "" && forall i :: n <= i < |w| ==> w[i].key == ""
    ensures DeleteOneByOne(ch, p + 1) == DeleteOneByOne(Written(w), p)
    ensures !HasOff(w[..n]) ==> DeleteOneByOne(ch, p + 1) == Written(w)
  {
    assert w[0] == v[0] && Keys(w)[0] == v[0].key;
    StepWrites(ch, p, w);
    WrittenNeat(w, n);
    if !HasOff(w[..n]) {
      NothingToDelete(Written(w), p);
    }
  }

  lemma {:induction false} NeatEnds(ch: Channel)
    requires Neat(ch)
    ensures |View(ch)| == ch.size > 0 && View(ch)[0].key != "" && View(ch)[ch.size - 1].key != ""
  {
    KeysOfView(ch);
  }

  /** What delete_key leaves when it is used on every automatically disabled key, all of them below position n. */
  lemma {:induction false} StepsLeave(ch: Channel, n: nat)
    requires Neat(ch) && HasOff(View(ch)) && !HasOff(View(ch)[if n <= ch.size then n else ch.size..])
    ensures Leaves(View(ch), DeleteOneByOne(ch, n))
    decreases n, 1
  {
    var v, p := View(ch), n - 1;
    NeatEnds(ch);
    assert v[0..] == v;
    if n > ch.size || v[p].status != AUTO_DISABLED {
      StepSkips(ch, v, p);
      StepsLeave(ch, p);
    } else if ch.size == 1 {
      StepRefused(ch, v, p);
    } else if p == 0 {
      StepFirst(ch, v, p);
    } else if p < ch.size - 1 {
      StepMiddle(ch, v, p);
    } else {
      StepEnd(ch, v, p);
    }
  }

  lemma {:induction false} StepSkips(ch: Channel, v: seq<Record>, p: nat)
    requires Neat(ch) && v == View(ch) && !HasOff(v[if p + 1 <= |v| then p + 1 else |v|..])
    requires p < |v| ==> v[p].status != AUTO_DISABLED
    ensures DeleteOneByOne(ch, p + 1) == DeleteOneByOne(ch, p)
    ensures !HasOff(v[if p <= |v| then p else |v|..])
  {
    if p < |v| {
      NotHere(v, p);
      assert ch.maps.StatusOf(p) == v[p].status;
    } else {
      assert ch.maps.StatusOf(p) == ENABLED;
    }
  }

  lemma {:induction false} StepRefused(ch: Channel, v: seq<Record>, p: nat)
    requires Counted(ch) && v == View(ch) && |v| == 1 && p == 0 && v[p].status == AUTO_DISABLED
    ensures Leaves(v, DeleteOneByOne(ch, p + 1))
  {
    DeleteLastKey(ch, p);
    KeysOfView(ch);
    OnlyOne(v);
    assert DeleteOneByOne(ch, p) == ch;
    assert DeleteOneByOne(ch, p + 1) == ch;
    assert ch.GetKeys() == [v[0].key];
  }

  lemma {:induction false} StepMiddle(ch: Channel, v: seq<Record>, p: nat)
    requires Counted(ch) && v == View(ch) && 0 < p < |v| - 1 && v[p].status == AUTO_DISABLED && !HasOff(v[p + 1..])
    requires v[0].key != "" && v[|v| - 1].key != ""
    ensures Leaves(v, DeleteOneByOne(ch, p + 1))
    decreases p + 1, 0
  {
    var w := v[..p] + v[p + 1..];
    var n := |Strip(Keys(w))|;
    StepShows(ch, v, p, w, n);
    MiddleShown(v, p, w, n);
    if HasOff(w) {
      StepsLeave(Written(w), p);
    }
    LeavesByMiddle(v, p, w, DeleteOneByOne(ch, p + 1));
  }

  lemma {:induction false} StepEnd(ch: Channel, v: seq<Record>, p: nat)
    requires Counted(ch) && v == View(ch) && 0 < p == |v| - 1 && v[p].status == AUTO_DISABLED
    requires v[0].key != "" && v[p].key != ""
    ensures Leaves(v, DeleteOneByOne(ch, p + 1))
    decreases p + 1, 0
  {
    var w := v[..p];
    var q, c := |Strip(Keys(w))|, DeleteOneByOne(ch, p + 1);
    assert v[..p] + v[p + 1..] == w;
    StepShows(ch, v, p, w, q);
    PrefixShown(v, p, w, q);
    if HasOff(v[..q]) {
      StepsLeave(Written(w), p);
    }
    LeavesByEnd(v, q, c);
  }

  lemma {:induction false} PrefixShown(v: seq<Record>, p: nat, w: seq<Record>, q: nat)
    requires p < |v| && w == v[..p] && 1 <= q <= p
    ensures w[..q] == v[..q] && w[q - 1] == v[q - 1] && !HasOff(v[..q][q..]) && forall i :: q <= i < p ==> w[i] == v[i]
  {}

  lemma {:induction false} NotHere(v: seq<Record>, p: nat)
    requires p < |v| && v[p].status != AUTO_DISABLED && !HasOff(v[p + 1..])
    ensures !HasOff(v[p..])
  {
    assert v[p..] == [v[p]] + v[p + 1..];
  }

  lemma {:induction false} OnlyOne(v: seq<Record>)
    requires |v| == 1 && v[0].status == AUTO_DISABLED
    ensures Cut(v) == 0
  {
    CutMeaning(v);
  }

  lemma {:induction false} MiddleShown(v: seq<Record>, p: nat, w: seq<Record>, n: nat)
    requires 0 < p < |v| - 1 && w == v[..p] + v[p + 1..] && v[|v| - 1].key != "" && !HasOff(v[p + 1..])
    requires 1 <= n <= |w| && forall i :: n <= i < |w| ==> w[i].key == ""
    ensures n == |w| && w[..n] == w && !HasOff(w[p..]) && IsNamedSurvivor(v[|v| - 1])
  {
    assert w[|w| - 1] == v[|v| - 1];
    assert w[p..] == v[p + 1..];
    assert v[p + 1..][|v| - p - 2] == v[|v| - 1];
  }

  // ---------------------------------------------------------------------------------------------------
  // At once
  // ---------------------------------------------------------------------------------------------------

  lemma {:induction false} OnceWrites(ch: Channel)
    requires Inv(ch) && AutoDisabled(ch) != {} && Survivors(View(ch)) != [] && Keys(Survivors(View(ch))) != [""]
    ensures Act(ch, DeleteDisabledKeys) == Written(MapRecords(Survivors(View(ch)), Copied))
  {
    var keys, v, maps := ch.GetKeys(), View(ch), OnlyDisabled(ch.maps);
    var w := MapRecords(Survivors(v), Copied);
    KeptSurvivors(ch);
    assert Keys(w) == Keys(Survivors(v));
    assert Act(ch, DeleteDisabledKeys) == Rebuild(ch, maps, AutoDisabled(ch));
    RebuildIsWritten(ch, maps, AutoDisabled(ch), w);
  }

  // ---------------------------------------------------------------------------------------------------
  // Comparison
  // ---------------------------------------------------------------------------------------------------

  /** The same keys, size and maps; only the stored text may differ, by blank lines that are not read. */
  predicate Same(a: Channel, b: Channel) {
    a.GetKeys() == b.GetKeys() && a.size == b.size && a.maps == b.maps
  }

  function TimeAt(w: seq<Record>, i: nat): Option<int> {
    if i < |w| then w[i].time else None
  }

  function ReasonAt(w: seq<Record>, i: nat): Option<string> {
    if i < |w| then w[i].reason else None
  }

  /** The same times and reasons at the same positions. */
  predicate SameNotes(a: seq<Record>, b: seq<Record>) {
    forall i :: 0 <= i < |a| + |b| ==> TimeAt(a, i) == TimeAt(b, i) && ReasonAt(a, i) == ReasonAt(b, i)
  }

  predicate AllBlank(w: seq<Record>) {
    forall i :: 0 <= i < |w| ==> w[i].key == ""
  }

  lemma {:induction false} SameMaps(a: seq<Record>, b: seq<Record>, n: nat)
    requires forall i :: 0 <= i < n && (i < |a| || i < |b|) ==> i < |a| && i < |b| && a[i].status == b[i].status
    ensures MapsOf(a, n) == MapsOf(b, n) <==> SameNotes(a, b)
  {
    if SameNotes(a, b) {
      forall i ensures Find(MapsOf(a, n).status, i) == Find(MapsOf(b, n).status, i)
               ensures Find(MapsOf(a, n).time, i) == Find(MapsOf(b, n).time, i)
               ensures Find(MapsOf(a, n).reason, i) == Find(MapsOf(b, n).reason, i) {
        MapsOfFind(a, n, i);
        MapsOfFind(b, n, i);
        assert 0 <= i && (i < |a| || i < |b|) ==> TimeAt(a, i) == TimeAt(b, i) && ReasonAt(a, i) == ReasonAt(b, i);
      }
      SameFind(MapsOf(a, n).status, MapsOf(b, n).status);
      SameFind(MapsOf(a, n).time, MapsOf(b, n).time);
      SameFind(MapsOf(a, n).reason, MapsOf(b, n).reason);
    } else {
      var i :| 0 <= i < |a| + |b| && !(TimeAt(a, i) == TimeAt(b, i) && ReasonAt(a, i) == ReasonAt(b, i));
      MapsOfFind(a, n, i);
      MapsOfFind(b, n, i);
    }
  }

  /** Lists with the same keys and statuses up to a key that has a name, and blank keys behind it, are stored alike
      exactly if their notes are the same; the stored texts are alike if they are equally long too. */
  lemma {:induction false} WrittenSame(a: seq<Record>, b: seq<Record>, n: nat)
    requires 0 < n <= |a| && n <= |b| && AllBlank(a[n..]) && AllBlank(b[n..]) && a[n - 1].key != ""
    requires forall i :: 0 <= i < n ==> a[i].key == b[i].key && a[i].status == b[i].status
    requires (forall k :: k in Keys(a) ==> '\n' !in k) && (forall k :: k in Keys(b) ==> '\n' !in k)
    ensures Same(Written(a), Written(b)) <==> SameNotes(a, b)
    ensures Written(a) == Written(b) <==> SameNotes(a, b) && |a| == |b|
  {
    var named := Keys(a[..n]);
    assert Keys(a) == named + Keys(a[n..]) && Keys(b) == named + Keys(b[n..]);
    assert named[n - 1] == a[n - 1].key;
    StripTail(named, Keys(a[n..]));
    StripTail(named, Keys(b[n..]));
    StripFixed(named);
    var k := |Strip(named)|;
    SameMaps(a, b, k);
    ReadJoinStrip(Keys(a), '\n');
    ReadJoinStrip(Keys(b), '\n');
    if Written(a) == Written(b) {
      SplitJoin(Keys(a), '\n');
      SplitJoin(Keys(b), '\n');
      assert |Keys(a)| == |Keys(b)|;
    }
    if |a| == |b| {
      assert Keys(a) == Keys(b);
    }
  }

  /** What deleting one by one keeps of the list behind the last survivor that has a name: nothing, or the blank keys up
      to the next name. */
  function Behind(v: seq<Record>): seq<Record> {
    CutMeaning(v);
    NextNamedMeaning(v, Cut(v));
    if HasOff(v[..Cut(v)]) then [] else v[Cut(v)..NextNamed(v, Cut(v))]
  }

  /** Some survivor has a name; the survivors up to the last such one have no left-over times and reasons; and behind
      it, where all keys are blank or deleted, the two ways write the same times and reasons. */
  predicate Agree(v: seq<Record>) {
    CutMeaning(v);
    var m := Cut(v);
    m > 0 && Tidy(Survivors(v[..m])) && SameNotes(Behind(v), MapRecords(Survivors(v[m..]), Copied))
  }

  lemma {:induction false} RestIsBlank(v: seq<Record>)
    requires Cut(v) <= |v|
    ensures AllBlank(Survivors(v[Cut(v)..]))
  {
    var m := Cut(v);
    CutMeaning(v);
    var tail, rest := v[m..], Survivors(v[m..]);
    SurvivorsMembers(tail);
    forall i | 0 <= i < |rest| ensures rest[i].key == "" {
      assert rest[i] in rest;
      var j :| 0 <= j < |tail| && tail[j] == rest[i];
      assert !IsNamedSurvivor(v[m + j]);
    }
  }

  lemma {:induction false} LastIsNamed(v: seq<Record>, m: nat)
    requires 0 < m <= |v| && IsNamedSurvivor(v[m - 1])
    ensures var named := Survivors(v[..m]); named != [] && named[|named| - 1] == v[m - 1]
  {
    SurvivorsNext(v, m - 1);
  }

  lemma {:induction false} LeftoverSplit(v: seq<Record>)
    requires Cut(v) <= |v|
    ensures Leftover(v) == Survivors(v[..Cut(v)]) + Behind(v) && AllBlank(Behind(v))
  {
    var m := Cut(v);
    if HasOff(v[..m]) {
      assert Behind(v) == [];
    } else {
      NextNamedMeaning(v, m);
      var n := NextNamed(v, m);
      assert Leftover(v) == v[..n] && Behind(v) == v[m..n];
      SurvivorsAll(v[..m]);
      assert v[..n] == v[..m] + v[m..n];
    }
  }

  /** Both lists begin with the survivors up to the last one that has a name, and go on with blank keys. */
  lemma {:induction false} ListsSplit(v: seq<Record>)
    requires 0 < Cut(v) <= |v|
    ensures var m := Cut(v);
      var named, rest := Survivors(v[..m]), Survivors(v[m..]);
      && Survivors(v) == named + rest && Leftover(v) == named + Behind(v)
      && named != [] && named[|named| - 1].key != "" && AllBlank(rest) && AllBlank(Behind(v))
  {
    var m := Cut(v);
    assert Survivors(v) == Survivors(v[..m]) + Survivors(v[m..]) by {
      assert v == v[..m] + v[m..];
      SurvivorsAppend(v[..m], v[m..]);
    }
    assert IsNamedSurvivor(v[m - 1]) by {
      CutMeaning(v);
    }
    LastIsNamed(v, m);
    LeftoverSplit(v);
    RestIsBlank(v);
  }

  lemma {:induction false} NotesSplit(named: seq<Record>, a: seq<Record>, b: seq<Record>)
    ensures SameNotes(named + a, MapRecords(named, Copied) + b) <==> Tidy(named) && SameNotes(a, b)
  {
    var x, y, n := named + a, MapRecords(named, Copied) + b, |named|;
    assert forall i :: 0 <= i < |a| + |b| ==>
      TimeAt(x, n + i) == TimeAt(a, i) && TimeAt(y, n + i) == TimeAt(b, i) &&
      ReasonAt(x, n + i) == ReasonAt(a, i) && ReasonAt(y, n + i) == ReasonAt(b, i);
    if SameNotes(x, y) {
      forall i | 0 <= i < n ensures named[i].status == ENABLED ==> named[i].time == None && named[i].reason == None {
        assert TimeAt(x, i) == TimeAt(y, i) && ReasonAt(x, i) == ReasonAt(y, i);
      }
      forall i | 0 <= i < |a| + |b| ensures TimeAt(a, i) == TimeAt(b, i) && ReasonAt(a, i) == ReasonAt(b, i) {
        assert TimeAt(x, n + i) == TimeAt(y, n + i) && ReasonAt(x, n + i) == ReasonAt(y, n + i);
      }
    }
    if Tidy(named) && SameNotes(a, b) {
      forall i | 0 <= i < |x| + |y| ensures TimeAt(x, i) == TimeAt(y, i) && ReasonAt(x, i) == ReasonAt(y, i) {
        if n <= i < n + |a| + |b| {
          assert TimeAt(a, i - n) == TimeAt(b, i - n) && ReasonAt(a, i - n) == ReasonAt(b, i - n);
        }
      }
    }
  }

  lemma {:induction false} NoNewlineIn(ch: Channel, w: seq<Record>)
    requires forall r :: r in w ==> r in View(ch)
    ensures forall k :: k in Keys(w) ==> '\n' !in k
  {
    KeysHaveNoNewline(ch);
    KeysOfView(ch);
    forall k | k in Keys(w) ensures '\n' !in k {
      var i :| 0 <= i < |w| && Keys(w)[i] == k;
      assert w[i] in w;
      var j :| 0 <= j < |View(ch)| && View(ch)[j] == w[i];
      assert ch.GetKeys()[j] == k;
    }
  }

  lemma {:induction false} SplitsAgree(named: seq<Record>, behind: seq<Record>, rest: seq<Record>)
    requires named != [] && named[|named| - 1].key != "" && AllBlank(behind) && AllBlank(rest)
    requires forall k :: k in Keys(named + behind) ==> '\n' !in k
    requires forall k :: k in Keys(named + rest) ==> '\n' !in k
    ensures var a, b := Written(MapRecords(named + rest, Copied)), Written(named + behind);
      var agree := Tidy(named) && SameNotes(behind, MapRecords(rest, Copied));
      (Same(a, b) <==> agree) && (a == b <==> agree && |behind| == |rest|)
  {
    var a, b, n := named + behind, MapRecords(named + rest, Copied), |named|;
    assert b == MapRecords(named, Copied) + MapRecords(rest, Copied);
    assert Keys(b) == Keys(named + rest);
    assert a[n..] == behind && b[n..] == MapRecords(rest, Copied);
    NotesSplit(named, behind, MapRecords(rest, Copied));
    WrittenSame(a, b, n);
  }

  /** The two results, as what is written. */
  lemma {:induction false} WrittenAgree(ch: Channel)
    requires Inv(ch) && 0 < Cut(View(ch)) <= |View(ch)|
    ensures var v := View(ch);
      var a, b := Written(MapRecords(Survivors(v), Copied)), Written(Leftover(v));
      (Same(a, b) <==> Agree(v)) && (a == b <==> Agree(v) && |Leftover(v)| == |Survivors(v)|)
  {
    var v, m := View(ch), Cut(View(ch));
    ListsSplit(v);
    var named, rest, behind := Survivors(v[..m]), Survivors(v[m..]), Behind(v);
    assert forall k :: k in Keys(named + behind) ==> '\n' !in k by {
      LeftoverMembers(v);
      NoNewlineIn(ch, Leftover(v));
    }
    assert forall k :: k in Keys(named + rest) ==> '\n' !in k by {
      SurvivorsMembers(v);
      NoNewlineIn(ch, Survivors(v));
    }
    SplitsAgree(named, behind, rest);
    assert Agree(v) <==> Tidy(named) && SameNotes(behind, MapRecords(rest, Copied));
  }

  lemma {:induction false} LeftoverMembers(v: seq<Record>)
    ensures forall r :: r in Leftover(v) ==> r in v
  {
    CutMeaning(v);
    SurvivorsMembers(v[..Cut(v)]);
  }

  lemma {:induction false} AutoDisabledIsOff(ch: Channel)
    requires Inv(ch)
    ensures AutoDisabled(ch) != {} <==> HasOff(View(ch))
  {
    if i :| i in AutoDisabled(ch) {
      assert View(ch)[i].status == AUTO_DISABLED;
    }
    if i :| 0 <= i < |View(ch)| && View(ch)[i].status == AUTO_DISABLED {
      assert i in AutoDisabled(ch);
    }
  }

  /** A channel with a deleted key and a survivor has two keys, so its first and last are not blank. */
  lemma {:induction false} IsNeat(ch: Channel)
    requires Inv(ch) && HasOff(View(ch)) && Survivors(View(ch)) != []
    ensures Neat(ch) && ch.size > 1
  {
    var v := View(ch);
    SurvivorsMembers(v);
    var r := Survivors(v)[0];
    assert r in Survivors(v);
    var i :| 0 <= i < |v| && v[i].status == AUTO_DISABLED;
    var j :| 0 <= j < |v| && v[j] == r;
    assert i != j;
    ReadListEnds(ch.key, '\n');
  }

  /** Without a survivor that has a name the two never agree: one by one the first key is left, at once it is not. */
  lemma {:induction false} NoNameLeft(ch: Channel)
    requires Inv(ch) && AutoDisabled(ch) != {} && Survivors(View(ch)) != [] && Cut(View(ch)) == 0
    requires ch.size > 1 && View(ch)[0].key != ""
    ensures Act(ch, DeleteDisabledKeys).GetKeys() != [View(ch)[0].key]
  {
    var v := View(ch);
    var w := MapRecords(Survivors(v), Copied);
    DeleteDisabledStored(ch);
    CutMeaning(v);
    SurvivorsMembers(v);
    forall i | 0 <= i < |w| ensures Keys(w)[i] == "" {
      assert Survivors(v)[i] in Survivors(v);
      var j :| 0 <= j < |v| && v[j] == Survivors(v)[i];
      assert !IsNamedSurvivor(v[j]);
    }
    if Keys(w) != [""] {
      StripLeftParts(Keys(w));
      StripRightParts(StripLeft(Keys(w)));
      var r := Strip(Keys(w));
      assert r[0] in r;
      assert r[0] == "";
    }
  }

  /** For every channel with a key to delete and a survivor: delete_disabled_keys leaves the same keys, size and maps as
      delete_key on each automatically disabled key from the highest down if and only if the list agrees; and the very
      same channel if the lists that are written are equally long, too. */
  lemma {:induction false} DeleteDisabledIsDeleteOneByOne(ch: Channel)
    requires Inv(ch) && AutoDisabled(ch) != {} && Survivors(View(ch)) != []
    ensures var once, steps, v := Act(ch, DeleteDisabledKeys), DeleteOneByOne(ch, ch.size), View(ch);
      && (Same(once, steps) <==> Agree(v))
      && (once == steps <==> Agree(v) && |Leftover(v)| == |Survivors(v)|)
  {
    var once, steps, v := Act(ch, DeleteDisabledKeys), DeleteOneByOne(ch, ch.size), View(ch);
    AutoDisabledIsOff(ch);
    IsNeat(ch);
    NeatEnds(ch);
    assert v[ch.size..] == [];
    StepsLeave(ch, ch.size);
    if Cut(v) == 0 {
      NoNameLeft(ch);
    } else {
      assert Keys(Survivors(v)) != [""] by {
        CutMeaning(v);
        ListsSplit(v);
        var named := Survivors(v[..Cut(v)]);
        assert Keys(Survivors(v))[|named| - 1] == named[|named| - 1].key;
      }
      OnceWrites(ch);
      CutMeaning(v);
      WrittenAgree(ch);
    }
  }

  lemma {:induction false} TidySurvivors(v: seq<Record>)
    ensures Tidy(Survivors(v)) <==> Tidy(v)
  {
    SurvivorsMembers(v);
    if Tidy(Survivors(v)) {
      forall i | 0 <= i < |v| && v[i].status == ENABLED ensures v[i].time == None && v[i].reason == None {
        assert v[i] in Survivors(v);
        var j :| 0 <= j < |Survivors(v)| && Survivors(v)[j] == v[i];
      }
    } else {
      var i :| 0 <= i < |Survivors(v)| && Survivors(v)[i].status == ENABLED &&
        !(Survivors(v)[i].time == None && Survivors(v)[i].reason == None);
      assert Survivors(v)[i] in v;
    }
  }

  /** If the keys behind the last survivor that has a name are all deleted and have names, agreeing is being tidy. */
  lemma {:induction false} AgreeIsTidy(v: seq<Record>)
    requires Cut(v) > 0 && forall i :: Cut(v) <= i < |v| ==> v[i].status == AUTO_DISABLED && v[i].key != ""
    ensures Agree(v) <==> Tidy(v)
    ensures |Leftover(v)| == |Survivors(v)|
  {
    var m := Cut(v);
    CutMeaning(v);
    ListsSplit(v);
    NextNamedMeaning(v, m);
    FilterNone(v[m..], (r: Record) => r.status != AUTO_DISABLED);
    assert Behind(v) == [];
    assert Survivors(v) == Survivors(v[..m]);
    TidySurvivors(v);
  }

  /** With blank keys or not, the two are the same up to left-over notes when the last key survives, ... */
  lemma {:induction false} LastKeySurvives(ch: Channel)
    requires Inv(ch) && AutoDisabled(ch) != {} && View(ch)[ch.size - 1].status != AUTO_DISABLED
    ensures Act(ch, DeleteDisabledKeys) == DeleteOneByOne(ch, ch.size) <==> Tidy(View(ch))
  {
    var v := View(ch);
    SurvivorsMembers(v);
    assert v[ch.size - 1] in Survivors(v);
    AutoDisabledIsOff(ch);
    IsNeat(ch);
    NeatEnds(ch);
    DeleteDisabledIsDeleteOneByOne(ch);
    AgreeIsTidy(v);
  }

  /** ... and without blank keys whenever a key survives. */
  lemma {:induction false} NamedDeletionsAgree(ch: Channel)
    requires Named(ch) && AutoDisabled(ch) != {} && Survivors(View(ch)) != []
    ensures Act(ch, DeleteDisabledKeys) == DeleteOneByOne(ch, ch.size) <==> Tidy(View(ch))
  {
    var v := View(ch);
    KeysOfView(ch);
    assert forall i :: 0 <= i < |v| ==> v[i].key == ch.GetKeys()[i] && v[i].key in ch.GetKeys();
    CutMeaning(v);
    SurvivorsMembers(v);
    assert Survivors(v)[0] in Survivors(v);
    var j :| 0 <= j < |v| && v[j] == Survivors(v)[0];
    assert IsNamedSurvivor(v[j]);
    DeleteDisabledIsDeleteOneByOne(ch);
    AgreeIsTidy(v);
  }

  /** The keys "a", blank and "b" with the first and the last disabled: a tidy channel with a survivor on which the two
      differ, because at once all three keys come back and one by one the first is left. */
  lemma {:induction false} BlankSurvivorDiffers()
    ensures var ch := Channel("a\n\nb", 3, Maps(map[0 := AUTO_DISABLED, 2 := AUTO_DISABLED], map[], map[]));
      && Inv(ch) && Tidy(View(ch)) && AutoDisabled(ch) != {} && Survivors(View(ch)) != []
      && !Same(Act(ch, DeleteDisabledKeys), DeleteOneByOne(ch, ch.size))
  {
    var ch := Channel("a\n\nb", 3, Maps(map[0 := AUTO_DISABLED, 2 := AUTO_DISABLED], map[], map[]));
    ThreeKeys(ch);
    var v := View(ch);
    assert 0 in AutoDisabled(ch);
    SurvivorsMembers(v);
    assert v[1] in Survivors(v);
    CutUnique(v, 0);
    DeleteDisabledIsDeleteOneByOne(ch);
  }

  lemma {:induction false} ThreeKeys(ch: Channel)
    requires ch.key == "a\n\nb"
    ensures ch.GetKeys() == ["a", "", "b"]
  {
    var keys := ["a", "", "b"];
    assert Join(keys, '\n') == ch.key by {
      assert keys[1..] == ["", "b"] && keys[1..][1..] == ["b"];
    }
    ReadJoin(keys, '\n');
  }
}
