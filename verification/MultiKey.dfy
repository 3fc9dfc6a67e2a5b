/** The multi-key channel (controller/channel.go, model/channel.go). A channel stores its keys as one text and
    what it knows about them in three maps keyed by position, which every deletion has to re-index. The
    claim is that all of this implements a plain list of records. */
module MultiKey {
  import opened Basics
  import opened Text
  import UpstreamModels

  const ENABLED := 1
  const MANUALLY_DISABLED := 2
  const AUTO_DISABLED := 3

  /** MultiKeyStatusList, MultiKeyDisabledTime and MultiKeyDisabledReason. */
  datatype Maps = Maps(status: map<int, int>, time: map<int, int>, reason: map<int, string>)
  {
    function StatusOf(i: int): int {
      if i in status then status[i] else ENABLED
    }

    predicate Below(n: int) {
      && (forall i :: i in status ==> 0 <= i < n)
      && (forall i :: i in time ==> 0 <= i < n)
      && (forall i :: i in reason ==> 0 <= i < n)
    }
  }

  datatype Channel = Channel(key: string, size: nat, maps: Maps)
  {
    function GetKeys(): seq<string> {
      ReadList(key, '\n')
    }
  }

  // ---------------------------------------------------------------------------------------------------
  // The list of records behind a channel
  // ---------------------------------------------------------------------------------------------------

  datatype Record = Record(key: string, status: int, time: Option<int>, reason: Option<string>)

  function RecordAt(key: string, maps: Maps, i: int): Record {
    Record(key, maps.StatusOf(i), Find(maps.time, i), Find(maps.reason, i))
  }

  function ViewOf(keys: seq<string>, maps: Maps): (v: seq<Record>)
    ensures |v| == |keys|
    ensures forall i :: 0 <= i < |keys| ==> v[i] == RecordAt(keys[i], maps, i)
  {
    seq(|keys|, i requires 0 <= i < |keys| => RecordAt(keys[i], maps, i))
  }

  function View(ch: Channel): seq<Record> {
    ViewOf(ch.GetKeys(), ch.maps)
  }

  // ---------------------------------------------------------------------------------------------------
  // Re-indexing: what the deletion loops compute
  // ---------------------------------------------------------------------------------------------------

  function KeepKeys(keys: seq<string>, n: nat, drop: set<int>): (r: seq<string>)
    requires n <= |keys|
    ensures |r| == Rank(n, drop)
  {
    if n == 0 then []
    else if n - 1 in drop then KeepKeys(keys, n - 1, drop)
    else KeepKeys(keys, n - 1, drop) + [keys[n - 1]]
  }

  /** How many of the first n positions stay. */
  function Rank(n: nat, drop: set<int>): nat {
    if n == 0 then 0 else Rank(n - 1, drop) + if n - 1 in drop then 0 else 1
  }

  function Reindex<V>(m: map<int, V>, n: nat, drop: set<int>): map<int, V> {
    if n == 0 then map[]
    else
      var r := Reindex(m, n - 1, drop);
      if n - 1 in drop || n - 1 !in m then r else r[Rank(n - 1, drop) := m[n - 1]]
  }

  function ReindexAll(maps: Maps, n: nat, drop: set<int>): Maps {
    Maps(Reindex(maps.status, n, drop), Reindex(maps.time, n, drop), Reindex(maps.reason, n, drop))
  }

  function KeepRecords(v: seq<Record>, n: nat, drop: set<int>): seq<Record>
    requires n <= |v|
  {
    if n == 0 then []
    else if n - 1 in drop then KeepRecords(v, n - 1, drop)
    else KeepRecords(v, n - 1, drop) + [v[n - 1]]
  }

  lemma {:induction false} ReindexBelow<V>(m: map<int, V>, n: nat, drop: set<int>)
    ensures forall i :: i in Reindex(m, n, drop) ==> 0 <= i < Rank(n, drop)
  {
    if n > 0 {
      ReindexBelow(m, n - 1, drop);
    }
  }

  lemma {:induction false} ReindexAllBelow(maps: Maps, n: nat, drop: set<int>)
    ensures ReindexAll(maps, n, drop).Below(Rank(n, drop))
  {
    ReindexBelow(maps.status, n, drop);
    ReindexBelow(maps.time, n, drop);
    ReindexBelow(maps.reason, n, drop);
  }

  /** What one more kept index does to a map: its new place holds its old value, the others are as before. */
  lemma {:induction false} ReindexOne<V>(m: map<int, V>, n: nat, drop: set<int>)
    requires n > 0 && n - 1 !in drop
    ensures Find(Reindex(m, n, drop), Rank(n - 1, drop)) == Find(m, n - 1)
    ensures forall i :: 0 <= i < Rank(n - 1, drop) ==> Find(Reindex(m, n, drop), i) == Find(Reindex(m, n - 1, drop), i)
  {
    ReindexBelow(m, n - 1, drop);
  }

  lemma {:induction false} RecordByFind(key: string, a: Maps, i: int, b: Maps, j: int)
    requires Find(a.status, i) == Find(b.status, j) && Find(a.time, i) == Find(b.time, j) &&
      Find(a.reason, i) == Find(b.reason, j)
    ensures RecordAt(key, a, i) == RecordAt(key, b, j)
  {}

  lemma {:induction false} ViewGrows(ks: seq<string>, key: string, before: Maps, after: Maps, r: Record)
    requires forall i :: 0 <= i < |ks| ==> RecordAt(ks[i], after, i) == RecordAt(ks[i], before, i)
    requires RecordAt(key, after, |ks|) == r
    ensures ViewOf(ks + [key], after) == ViewOf(ks, before) + [r]
  {}

  lemma {:induction false} ReindexRecords(keys: seq<string>, maps: Maps, n: nat, drop: set<int>)
    requires 0 < n <= |keys| && n - 1 !in drop
    ensures ViewOf(KeepKeys(keys, n, drop), ReindexAll(maps, n, drop)) ==
      ViewOf(KeepKeys(keys, n - 1, drop), ReindexAll(maps, n - 1, drop)) + [RecordAt(keys[n - 1], maps, n - 1)]
  {
    var before, after := ReindexAll(maps, n - 1, drop), ReindexAll(maps, n, drop);
    var ks := KeepKeys(keys, n - 1, drop);
    ReindexOne(maps.status, n, drop);
    ReindexOne(maps.time, n, drop);
    ReindexOne(maps.reason, n, drop);
    forall i | 0 <= i < |ks| ensures RecordAt(ks[i], after, i) == RecordAt(ks[i], before, i) {
      RecordByFind(ks[i], after, i, before, i);
    }
    RecordByFind(keys[n - 1], after, |ks|, maps, n - 1);
    ViewGrows(ks, keys[n - 1], before, after, RecordAt(keys[n - 1], maps, n - 1));
  }

  /** Re-indexing the maps and dropping keys is dropping records. */
  lemma {:induction false} ReindexView(keys: seq<string>, maps: Maps, n: nat, drop: set<int>)
    requires n <= |keys|
    ensures ViewOf(KeepKeys(keys, n, drop), ReindexAll(maps, n, drop)) == KeepRecords(ViewOf(keys, maps), n, drop)
  {
    if n > 0 {
      ReindexView(keys, maps, n - 1, drop);
      if n - 1 !in drop {
        ReindexRecords(keys, maps, n, drop);
      }
    }
  }

  // ---------------------------------------------------------------------------------------------------
  // The actions
  // ---------------------------------------------------------------------------------------------------

  datatype Action =
    | DisableKey(index: Option<int>)
    | EnableKey(index: Option<int>)
    | EnableAllKeys
    | DisableAllKeys
    | DeleteKey(index: Option<int>)
    | DeleteDisabledKeys
    | Append(text: string)                                                 // UpdateChannel, key mode "append"
    | Report(usingKey: string, status: int, reason: string, now: int)      // handlerMultiKeyUpdate

  /** Channel.Update: the size is recounted from the key text and statuses beyond it are dropped; with an
      empty key text the stored one stays. */
  function Save(ch: Channel, storedKey: string): Channel {
    var text := if ch.key != "" then ch.key else storedKey;
    var size := |ReadList(text, '\n')|;
    Channel(text, size, ch.maps.(status := map i | i in ch.maps.status && i < size :: ch.maps.status[i]))
  }

  predicate InRange(ch: Channel, index: Option<int>) {
    index.Some? && 0 <= index.value < ch.size
  }

  function WithoutOnes(maps: Maps): Maps {
    maps.(status := map i | i in maps.status && maps.status[i] != ENABLED :: maps.status[i])
  }

  /** Only what concerns keys that are not enabled. */
  function OnlyDisabled(maps: Maps): Maps {
    Maps(map i | i in maps.status && maps.status[i] != ENABLED :: maps.status[i],
         map i | i in maps.time && maps.StatusOf(i) != ENABLED :: maps.time[i],
         map i | i in maps.reason && maps.StatusOf(i) != ENABLED :: maps.reason[i])
  }

  /** The channel after its keys at the positions in drop are gone. */
  function Rebuild(ch: Channel, maps: Maps, drop: set<int>): Channel {
    var keys := ch.GetKeys();
    var remaining := KeepKeys(keys, |keys|, drop);
    Save(Channel(Join(remaining, '\n'), |remaining|, ReindexAll(maps, |keys|, drop)), ch.key)
  }

  function AutoDisabled(ch: Channel): set<int> {
    set i | 0 <= i < |ch.GetKeys()| && ch.maps.StatusOf(i) == AUTO_DISABLED
  }

  /** The position of a key, or 0 when it is not there. */
  function Position(keys: seq<string>, key: string): nat {
    if exists i :: 0 <= i < |keys| && keys[i] == key then FirstFrom(keys, key, 0) else 0
  }

  function FirstFrom(keys: seq<string>, key: string, i: nat): nat
    requires exists j :: i <= j < |keys| && keys[j] == key
    decreases |keys| - i
  {
    if i < |keys| && keys[i] == key then i else FirstFrom(keys, key, i + 1)
  }

  /** The keys an append adds: the trimmed new lines, each once, that the channel does not have. */
  function NewKeys(ch: Channel, text: string): seq<string> {
    UpstreamModels.Drop(UpstreamModels.Normalize(Split(text, '\n')), UpstreamModels.TrimAll(ch.GetKeys()))
  }

  function Act(ch: Channel, a: Action): Channel {
    var maps := ch.maps;
    match a
    case DisableKey(index) =>
      if InRange(ch, index)
      then Save(ch.(maps := maps.(status := maps.status[index.value := MANUALLY_DISABLED])), ch.key) else ch
    case EnableKey(index) =>
      if InRange(ch, index)
      then
        var i := {index.value};
        Save(ch.(maps := Maps(maps.status - i, maps.time - i, maps.reason - i)), ch.key)
      else ch
    case EnableAllKeys => Save(ch.(maps := Maps(map[], map[], map[])), ch.key)
    case DisableAllKeys =>
      if forall i :: 0 <= i < ch.size ==> maps.StatusOf(i) != ENABLED then ch
      else Save(ch.(maps := maps.(status := DisableEnabled(maps, ch.size))), ch.key)
    case DeleteKey(index) =>
      if InRange(ch, index) && KeepKeys(ch.GetKeys(), |ch.GetKeys()|, {index.value}) != []
      then Rebuild(ch, WithoutOnes(maps), {index.value}) else ch
    case DeleteDisabledKeys =>
      if AutoDisabled(ch) == {} then ch else Rebuild(ch, OnlyDisabled(maps), AutoDisabled(ch))
    case Append(text) =>
      if ch.key == "" then Save(ch.(key := text), ch.key)
      else Save(ch.(key := Join(ch.GetKeys() + NewKeys(ch, text), '\n')), ch.key)
    case Report(usingKey, status, reason, now) =>
      if ch.GetKeys() == [] then ch
      else
        var i := Position(ch.GetKeys(), usingKey);
        if status == ENABLED then ch.(maps := maps.(status := maps.status - {i}))
        else ch.(maps := Maps(maps.status[i := status], maps.time[i := now], maps.reason[i := reason]))
  }

  /** Every enabled position becomes manually disabled. */
  function DisableEnabled(maps: Maps, n: nat): map<int, int> {
    if n == 0 then maps.status
    else
      var before := DisableEnabled(maps, n - 1);
      if maps.StatusOf(n - 1) == ENABLED then before[n - 1 := MANUALLY_DISABLED] else before
  }

  lemma {:induction false} DisableEnabledMeaning(maps: Maps, n: nat)
    ensures forall i ::
      Find(DisableEnabled(maps, n), i) ==
      (if 0 <= i < n && maps.StatusOf(i) == ENABLED then Some(MANUALLY_DISABLED) else Find(maps.status, i))
  {
    if n > 0 {
      DisableEnabledMeaning(maps, n - 1);
    }
  }

  // ---------------------------------------------------------------------------------------------------
  // The same actions on a list of records
  // ---------------------------------------------------------------------------------------------------

  function Fresh(key: string): Record {
    Record(key, ENABLED, None, None)
  }

  function MapRecords(v: seq<Record>, f: Record -> Record): (r: seq<Record>)
    ensures |r| == |v| && forall i :: 0 <= i < |v| ==> r[i] == f(v[i])
  {
    seq(|v|, i requires 0 <= i < |v| => f(v[i]))
  }

  /** A record as delete_disabled_keys copies it. */
  function Copied(r: Record): Record {
    if r.status == ENABLED then Fresh(r.key) else r
  }

  function Survivors(v: seq<Record>): seq<Record> {
    Filter(v, (r: Record) => r.status != AUTO_DISABLED)
  }

  predicate Within(v: seq<Record>, index: Option<int>) {
    index.Some? && 0 <= index.value < |v|
  }

  function Keys(v: seq<Record>): (r: seq<string>)
    ensures |r| == |v| && forall i :: 0 <= i < |v| ==> r[i] == v[i].key
  {
    seq(|v|, i requires 0 <= i < |v| => v[i].key)
  }

  function FreshAll(keys: seq<string>): (r: seq<Record>)
    ensures |r| == |keys| && forall i :: 0 <= i < |keys| ==> r[i] == Fresh(keys[i])
  {
    seq(|keys|, i requires 0 <= i < |keys| => Fresh(keys[i]))
  }

  function ActOnList(v: seq<Record>, a: Action): seq<Record> {
    match a
    case DisableKey(index) =>
      if Within(v, index) then v[index.value := v[index.value].(status := MANUALLY_DISABLED)] else v
    case EnableKey(index) => if Within(v, index) then v[index.value := Fresh(v[index.value].key)] else v
    case EnableAllKeys => FreshAll(Keys(v))
    case DisableAllKeys =>
      MapRecords(v, (r: Record) => if r.status == ENABLED then r.(status := MANUALLY_DISABLED) else r)
    case DeleteKey(index) =>
      if Within(v, index) && |v| > 1 then v[..index.value] + v[index.value + 1..] else v
    case DeleteDisabledKeys =>
      if Survivors(v) == v then v
      else if Survivors(v) == [] then FreshAll(Keys(v)) // the stored key text comes back, all enabled
      else MapRecords(Survivors(v), Copied)
    case Append(text) =>
      v + FreshAll(UpstreamModels.Drop(UpstreamModels.Normalize(Split(text, '\n')), UpstreamModels.TrimAll(Keys(v))))
    case Report(usingKey, status, reason, now) =>
      if v == [] then v
      else
        var i := Position(Keys(v), usingKey);
        if i >= |v| then v
        else v[i := if status == ENABLED then v[i].(status := ENABLED)
                    else Record(v[i].key, status, Some(now), Some(reason))]
  }

  // ---------------------------------------------------------------------------------------------------
  // Refinement
  // ---------------------------------------------------------------------------------------------------

  predicate Counted(ch: Channel) {
    ch.GetKeys() != [] && ch.size == |ch.GetKeys()|
  }

  /** The size counts the keys, and no map speaks of a position beyond them. */
  predicate Inv(ch: Channel) {
    Counted(ch) && ch.maps.Below(ch.size)
  }

  /** The same for a channel without blank keys. (A line of white space is stored as a blank key when a channel is
      created.) */
  predicate Named(ch: Channel) {
    Inv(ch) && forall k :: k in ch.GetKeys() ==> k != ""
  }

  lemma {:induction false} SaveUnchangedKeys(ch: Channel, maps: Maps)
    requires Inv(ch) && maps.Below(ch.size)
    ensures Save(ch.(maps := maps), ch.key) == ch.(maps := maps)
  {
    assert (map i | i in maps.status && i < ch.size :: maps.status[i]) == maps.status;
  }

  lemma {:induction false} KeysHaveNoNewline(ch: Channel)
    ensures forall k :: k in ch.GetKeys() ==> '\n' !in k
  {
    SplitParts(Trim(ch.key, c => c == '\n'), '\n');
  }

  lemma {:induction false} KeepKeysMembers(keys: seq<string>, n: nat, drop: set<int>)
    requires n <= |keys|
    ensures forall k :: k in KeepKeys(keys, n, drop) ==> k in keys
  {
    if n > 0 {
      KeepKeysMembers(keys, n - 1, drop);
    }
  }

  lemma {:induction false} KeepAllButOne(v: seq<Record>, n: nat, i: nat)
    requires n <= |v|
    ensures KeepRecords(v, n, {i}) == if i < n then v[..i] + v[i + 1..n] else v[..n]
  {
    if n > 0 {
      KeepAllButOne(v, n - 1, i);
    }
  }

  lemma {:induction false} RankAllButOne(n: nat, i: nat)
    ensures Rank(n, {i}) == if i < n then n - 1 else n
  {
    if n > 0 {
      RankAllButOne(n - 1, i);
    }
  }

  lemma {:induction false} SurvivorsNext(v: seq<Record>, n: nat)
    requires n < |v|
    ensures Survivors(v[..n + 1]) == Survivors(v[..n]) + (if v[n].status != AUTO_DISABLED then [v[n]] else [])
  {
    assert v[..n + 1] == v[..n] + [v[n]];
    FilterAppend(v[..n], [v[n]], (r: Record) => r.status != AUTO_DISABLED);
  }

  /** Dropping the automatically disabled positions is keeping the survivors, each as it is copied. */
  lemma {:induction false} KeepSurvivors(v: seq<Record>, copies: seq<Record>, n: nat, drop: set<int>)
    requires n <= |v| == |copies|
    requires forall i :: 0 <= i < |v| ==> copies[i] == Copied(v[i]) && (i in drop <==> v[i].status == AUTO_DISABLED)
    ensures KeepRecords(copies, n, drop) == MapRecords(Survivors(v[..n]), Copied)
    ensures Rank(n, drop) == |Survivors(v[..n])|
  {
    if n > 0 {
      KeepSurvivors(v, copies, n - 1, drop);
      SurvivorsNext(v, n - 1);
    }
  }

  lemma {:induction false} OnlyDisabledView(keys: seq<string>, maps: Maps)
    ensures forall i :: 0 <= i < |keys| ==> ViewOf(keys, OnlyDisabled(maps))[i] == Copied(ViewOf(keys, maps)[i])
  {
  }

  lemma {:induction false} WithoutOnesView(keys: seq<string>, maps: Maps)
    ensures ViewOf(keys, WithoutOnes(maps)) == ViewOf(keys, maps)
  {
  }

  lemma {:induction false} SurvivorsMembers(v: seq<Record>)
    ensures forall r :: r in Survivors(v) <==> r in v && r.status != AUTO_DISABLED
    ensures |Survivors(v)| <= |v|
  {
    FilterMembers(v, (r: Record) => r.status != AUTO_DISABLED);
  }

  lemma {:induction false} SurvivorsLength(v: seq<Record>)
    ensures |Survivors(v)| == |v| <==> forall r :: r in v ==> r.status != AUTO_DISABLED
    ensures |Survivors(v)| == |v| ==> Survivors(v) == v
  {
    if v != [] {
      SurvivorsLength(v[1..]);
      SurvivorsMembers(v[1..]);
      assert v == [v[0]] + v[1..];
    }
  }

  lemma {:induction false} DeleteLastKey(ch: Channel, i: nat)
    requires Counted(ch) && i < ch.size && ch.size == 1
    ensures Act(ch, DeleteKey(Some(i))) == ch
  {
    RankAllButOne(|ch.GetKeys()|, i);
  }

  lemma {:induction false} AutoDisabledRank(ch: Channel)
    requires Inv(ch)
    ensures Rank(|ch.GetKeys()|, AutoDisabled(ch)) == |Survivors(View(ch))|
  {
    var keys, v := ch.GetKeys(), View(ch);
    OnlyDisabledView(keys, ch.maps);
    KeepSurvivors(v, ViewOf(keys, OnlyDisabled(ch.maps)), |v|, AutoDisabled(ch));
    assert v[..|v|] == v;
  }

  lemma {:induction false} AutoDisabledView(ch: Channel)
    requires Inv(ch)
    ensures AutoDisabled(ch) == {} <==> Survivors(View(ch)) == View(ch)
    ensures Rank(|ch.GetKeys()|, AutoDisabled(ch)) == |Survivors(View(ch))|
  {
    AutoDisabledRank(ch);
    var v := View(ch);
    SurvivorsLength(v);
    if AutoDisabled(ch) == {} {
      forall r | r in v ensures r.status != AUTO_DISABLED {
        var i :| 0 <= i < |v| && v[i] == r;
        assert i !in AutoDisabled(ch);
      }
    } else {
      var i :| i in AutoDisabled(ch);
      assert v[i] in v && v[i].status == AUTO_DISABLED;
    }
  }

  lemma {:induction false} NothingBelowZero(m: Maps)
    requires m.Below(0)
    ensures m == Maps(map[], map[], map[])
  {
    assert forall i :: i !in m.status && i !in m.time && i !in m.reason;
  }

  lemma {:induction false} KeysOfView(ch: Channel)
    ensures Keys(View(ch)) == ch.GetKeys()
  {
  }

  /** When every key is automatically disabled nothing is deleted: the empty key text makes the update keep
      the stored keys, and their states are gone. */
  lemma {:induction false} DeleteAllComesBack(ch: Channel)
    requires Inv(ch) && Survivors(View(ch)) == []
    ensures var ch' := Act(ch, DeleteDisabledKeys);
      Inv(ch') && ch'.key == ch.key && View(ch') == FreshAll(Keys(View(ch)))
  {
    AutoDisabledView(ch);
    var keys, drop := ch.GetKeys(), AutoDisabled(ch);
    var maps := OnlyDisabled(ch.maps);
    ReindexAllBelow(maps, |keys|, drop);
    var m := ReindexAll(maps, |keys|, drop);
    NothingBelowZero(m);
    KeysOfView(ch);
    assert KeepKeys(keys, |keys|, drop) == [];
  }

  lemma {:induction false} NewKeysClean(ch: Channel, text: string)
    ensures forall k :: k in NewKeys(ch, text) ==> k != "" && '\n' !in k
  {
    var lines := Split(text, '\n');
    SplitParts(text, '\n');
    UpstreamModels.NormalizeNormal(lines);
    UpstreamModels.DropMeaning(UpstreamModels.Normalize(lines), UpstreamModels.TrimAll(ch.GetKeys()));
    TrimAllNoNewline(lines);
    UpstreamModels.UniqMeaning(UpstreamModels.TrimAll(lines));
  }

  lemma {:induction false} TrimAllNoNewline(s: seq<string>)
    requires forall x :: x in s ==> '\n' !in x
    ensures forall x :: x in UpstreamModels.TrimAll(s) ==> '\n' !in x
  {
    if s != [] {
      assert s[0] in s;
      TrimMeaning(s[0], IsSpace);
      assert forall x :: x in s[1..] ==> x in s;
      TrimAllNoNewline(s[1..]);
    }
  }

  lemma {:induction false} AppendedRecords(keys: seq<string>, added: seq<string>, maps: Maps)
    requires maps.Below(|keys|)
    ensures ViewOf(keys + added, maps) == ViewOf(keys, maps) + FreshAll(added)
  {
    var v, w := ViewOf(keys + added, maps), ViewOf(keys, maps) + FreshAll(added);
    forall i | 0 <= i < |v| ensures v[i] == w[i] {
    }
  }

  lemma {:induction false} FirstFromMeaning(keys: seq<string>, key: string, i: nat)
    requires exists j :: i <= j < |keys| && keys[j] == key
    ensures i <= FirstFrom(keys, key, i) < |keys| && keys[FirstFrom(keys, key, i)] == key
    ensures forall j :: i <= j < FirstFrom(keys, key, i) ==> keys[j] != key
    decreases |keys| - i
  {
    if !(i < |keys| && keys[i] == key) {
      FirstFromMeaning(keys, key, i + 1);
    }
  }

  lemma {:induction false} PositionInRange(keys: seq<string>, key: string)
    requires keys != []
    ensures Position(keys, key) < |keys|
  {
    if exists i :: 0 <= i < |keys| && keys[i] == key {
      FirstFromMeaning(keys, key, 0);
    }
  }

  /** Maps that differ at one position give lists that differ at most there. */
  lemma {:induction false} ViewUpdated(keys: seq<string>, maps: Maps, maps': Maps, i: nat)
    requires i < |keys|
    requires forall j :: j != i ==> Find(maps'.status, j) == Find(maps.status, j)
    requires forall j :: j != i ==> Find(maps'.time, j) == Find(maps.time, j)
    requires forall j :: j != i ==> Find(maps'.reason, j) == Find(maps.reason, j)
    ensures ViewOf(keys, maps') == ViewOf(keys, maps)[i := RecordAt(keys[i], maps', i)]
  {
    forall j | 0 <= j < |keys| && j != i ensures RecordAt(keys[j], maps', j) == RecordAt(keys[j], maps, j) {
      RecordByFind(keys[j], maps', j, maps, j);
    }
  }

  lemma {:induction false} ReportView(ch: Channel, a: Action)
    requires Inv(ch) && a.Report?
    ensures Inv(Act(ch, a)) && View(Act(ch, a)) == ActOnList(View(ch), a)
  {
    var keys, i := ch.GetKeys(), Position(ch.GetKeys(), a.usingKey);
    assert Keys(View(ch)) == keys by {
      KeysOfView(ch);
    }
    PositionInRange(keys, a.usingKey);
    var maps := Act(ch, a).maps;
    ViewUpdated(keys, ch.maps, maps, i);
  }

  /** A report changes one record and no other: the first with the reported key, or record 0 when no record has it. A
      report that the key works leaves its time and reason. */
  lemma {:induction false} ReportChangesOne(ch: Channel, usingKey: string, status: int, reason: string, now: int)
    returns (i: nat)
    requires Inv(ch)
    ensures var v, ch' := View(ch), Act(ch, Report(usingKey, status, reason, now));
      && i < |v| && Inv(ch')
      && (if exists j :: 0 <= j < |v| && v[j].key == usingKey
          then v[i].key == usingKey && forall j :: 0 <= j < i ==> v[j].key != usingKey
          else i == 0)
      && View(ch') == v[i := if status == ENABLED then v[i].(status := ENABLED)
                             else Record(v[i].key, status, Some(now), Some(reason))]
  {
    var v, keys := View(ch), ch.GetKeys();
    ReportView(ch, Report(usingKey, status, reason, now));
    KeysOfView(ch);
    PositionInRange(keys, usingKey);
    i := Position(keys, usingKey);
    assert forall j :: 0 <= j < |v| ==> v[j].key == keys[j];
    if j :| 0 <= j < |v| && v[j].key == usingKey {
      assert keys[j] == usingKey;
      FirstFromMeaning(keys, usingKey, 0);
    }
  }

  /** One of the texts is x but for white space around it. */
  predicate SomeTrimsTo(texts: seq<string>, x: string) {
    exists i :: 0 <= i < |texts| && TrimSpace(texts[i]) == x
  }

  /** What an append adds behind the records: one enabled record for every line of the text that is not blank, without
      surrounding white space, unless a key is the same but for white space. */
  lemma {:induction false} AppendAdds(v: seq<Record>, text: string, x: string)
    ensures var w := ActOnList(v, Append(text));
      && v <= w
      && (forall i :: |v| <= i < |w| ==> w[i] == Record(w[i].key, ENABLED, None, None))
      && (forall i, j :: |v| <= i < j < |w| ==> w[i].key != w[j].key)
      && ((exists i :: |v| <= i < |w| && w[i].key == x) <==>
            x != "" && SomeTrimsTo(Split(text, '\n'), x) && !SomeTrimsTo(Keys(v), x))
  {
    var lines, present := Split(text, '\n'), UpstreamModels.TrimAll(Keys(v));
    var added := UpstreamModels.Drop(UpstreamModels.Normalize(lines), present);
    AddedMeaning(lines, Keys(v), x);
    FreshBehind(v, added, x);
  }

  lemma {:induction false} FreshBehind(v: seq<Record>, added: seq<string>, x: string)
    requires NoDuplicates(added)
    ensures var w := v + FreshAll(added);
      && (forall i :: |v| <= i < |w| ==> w[i] == Record(w[i].key, ENABLED, None, None))
      && (forall i, j :: |v| <= i < j < |w| ==> w[i].key != w[j].key)
      && ((exists i :: |v| <= i < |w| && w[i].key == x) <==> x in added)
  {
    var w := v + FreshAll(added);
    assert forall i :: |v| <= i < |w| ==> w[i] == Fresh(added[i - |v|]);
    if x in added {
      var i :| 0 <= i < |added| && added[i] == x;
      assert w[|v| + i].key == x;
    }
  }

  lemma {:induction false} AddedMeaning(lines: seq<string>, keys: seq<string>, x: string)
    ensures var added := UpstreamModels.Drop(UpstreamModels.Normalize(lines), UpstreamModels.TrimAll(keys));
      NoDuplicates(added) && (x in added <==> x != "" && SomeTrimsTo(lines, x) && !SomeTrimsTo(keys, x))
  {
    UpstreamModels.NormalizeNormal(lines);
    UpstreamModels.DropMeaning(UpstreamModels.Normalize(lines), UpstreamModels.TrimAll(keys));
    UpstreamModels.NormalizeMembers(lines, x);
    UpstreamModels.TrimAllMembers(keys, x);
  }

  lemma {:induction false} StatusView(ch: Channel, a: Action)
    requires Inv(ch) && (a.DisableKey? || a.EnableKey? || a.EnableAllKeys?)
    ensures Inv(Act(ch, a)) && View(Act(ch, a)) == ActOnList(View(ch), a)
  {
    var maps := Act(ch, a).maps;
    if a.EnableAllKeys? || InRange(ch, a.index) {
      match a
      case DisableKey(index) =>
        SaveUnchangedKeys(ch, ch.maps.(status := ch.maps.status[index.value := MANUALLY_DISABLED]));
      case EnableKey(index) =>
        var i := {index.value};
        SaveUnchangedKeys(ch, Maps(ch.maps.status - i, ch.maps.time - i, ch.maps.reason - i));
      case EnableAllKeys => SaveUnchangedKeys(ch, Maps(map[], map[], map[]));
    }
    var v, w := View(Act(ch, a)), ActOnList(View(ch), a);
    assert |v| == |w|;
    forall i | 0 <= i < |v| ensures v[i] == w[i] {
    }
  }

  lemma {:induction false} DisableAllView(ch: Channel)
    requires Inv(ch)
    ensures var ch' := Act(ch, DisableAllKeys);
      Inv(ch') && View(ch') == ActOnList(View(ch), DisableAllKeys)
  {
    DisableEnabledMeaning(ch.maps, ch.size);
    assert forall i :: i in DisableEnabled(ch.maps, ch.size) <==> Find(DisableEnabled(ch.maps, ch.size), i).Some?;
    SaveUnchangedKeys(ch, ch.maps.(status := DisableEnabled(ch.maps, ch.size)));
    var v, w := View(Act(ch, DisableAllKeys)), ActOnList(View(ch), DisableAllKeys);
    assert |v| == |w|;
    forall i | 0 <= i < |v| ensures v[i] == w[i] {
    }
  }

  /** Disabling a key sets its status to 2 and keeps its notes; enabling it sets it to 1 and drops them; no other record
      changes. */
  lemma {:induction false} KeyActions(ch: Channel, i: nat)
    requires Inv(ch) && i < |View(ch)|
    ensures View(Act(ch, DisableKey(Some(i)))) == View(ch)[i := View(ch)[i].(status := 2)]
    ensures View(Act(ch, EnableKey(Some(i)))) == View(ch)[i := Record(View(ch)[i].key, 1, None, None)]
  {
    StatusView(ch, DisableKey(Some(i)));
    StatusView(ch, EnableKey(Some(i)));
  }

  /** The same for all keys at once; keys that are already disabled, in whatever way, stay so. */
  lemma {:induction false} AllKeysActions(ch: Channel, i: nat)
    requires Inv(ch) && i < |View(ch)|
    ensures var v, off, on := View(ch), View(Act(ch, DisableAllKeys)), View(Act(ch, EnableAllKeys));
      && |off| == |v| && off[i] == v[i].(status := if v[i].status == 1 then 2 else v[i].status)
      && |on| == |v| && on[i] == Record(v[i].key, 1, None, None)
  {
    StatusView(ch, EnableAllKeys);
    DisableAllView(ch);
  }

  // ---------------------------------------------------------------------------------------------------
  // Every action, blank keys included
  // ---------------------------------------------------------------------------------------------------

  /** The keys that are read after a list of keys was written: blank ones at the ends are lost, and an empty text
      leaves the stored keys. */
  function ReadBack(written: seq<string>, stored: seq<string>): seq<string> {
    if written == [] || written == [""] then stored else Strip(written)
  }

  /** The states stay with the positions, whatever keys are there. */
  function Attributed(keys: seq<string>, w: seq<Record>): (v: seq<Record>)
    ensures |v| == |keys|
    ensures forall i :: 0 <= i < |keys| ==> v[i] == if i < |w| then w[i].(key := keys[i]) else Fresh(keys[i])
  {
    seq(|keys|, i requires 0 <= i < |keys| => if i < |w| then w[i].(key := keys[i]) else Fresh(keys[i]))
  }

  /** No time and no reason from position n on. */
  predicate NoNotesFrom(w: seq<Record>, n: nat) {
    forall i :: n <= i < |w| ==> w[i].time == None && w[i].reason == None
  }

  /** What a channel with the given keys and maps becomes when it is written. */
  lemma {:induction false} WrittenKeys(ch: Channel, keys: seq<string>, size: nat, maps: Maps)
    requires forall k :: k in keys ==> '\n' !in k
    ensures var ch' := Save(Channel(Join(keys, '\n'), size, maps), ch.key);
      ch'.GetKeys() == ReadBack(keys, ch.GetKeys()) && ch'.size == |ch'.GetKeys()|
  {
    SavedKeys(Channel(Join(keys, '\n'), size, maps), ch.key);
    if keys != [] && keys != [""] {
      ReadJoinStrip(keys, '\n');
    }
  }

  lemma {:induction false} WrittenView(ch: Channel, keys: seq<string>, size: nat, maps: Maps)
    requires (forall k :: k in keys ==> '\n' !in k) && maps.Below(|keys|)
    ensures var ch' := Save(Channel(Join(keys, '\n'), size, maps), ch.key);
      View(ch') == Attributed(ReadBack(keys, ch.GetKeys()), ViewOf(keys, maps))
  {
    WrittenKeys(ch, keys, size, maps);
    var ch' := Save(Channel(Join(keys, '\n'), size, maps), ch.key);
    var v, w := View(ch'), Attributed(ReadBack(keys, ch.GetKeys()), ViewOf(keys, maps));
    forall i | 0 <= i < |v| ensures v[i] == w[i] {
      RecordByFind(v[i].key, ch'.maps, i, maps, i);
    }
  }

  /** The index bound survives the writing exactly if no time and no reason lies beyond the keys that are read. */
  lemma {:induction false} WrittenBound(ch: Channel, keys: seq<string>, size: nat, maps: Maps)
    requires (forall k :: k in keys ==> '\n' !in k) && maps.Below(|keys|) && ch.GetKeys() != []
    ensures var ch' := Save(Channel(Join(keys, '\n'), size, maps), ch.key);
      Inv(ch') <==> NoNotesFrom(ViewOf(keys, maps), |ReadBack(keys, ch.GetKeys())|)
  {
    WrittenKeys(ch, keys, size, maps);
    StripLeftParts(keys);
    StripRightParts(StripLeft(keys));
    var ch' := Save(Channel(Join(keys, '\n'), size, maps), ch.key);
    var w, n := ViewOf(keys, maps), |ReadBack(keys, ch.GetKeys())|;
    assert ch'.maps.time == maps.time && ch'.maps.reason == maps.reason;
    if NoNotesFrom(w, n) {
      forall i | n <= i < |w| ensures i !in maps.time && i !in maps.reason {
        assert w[i].time == None && w[i].reason == None;
      }
    } else {
      var i :| n <= i < |w| && !(w[i].time == None && w[i].reason == None);
      assert i in maps.time || i in maps.reason;
    }
  }

  /** What an action means for the stored channel: its list is the intended one, but with the keys that are read back;
      the states stay with the positions. */
  predicate Stores(ch: Channel, ch': Channel, w: seq<Record>) {
    var keys := ReadBack(Keys(w), ch.GetKeys());
    && ch'.GetKeys() == keys && ch'.size == |keys|
    && View(ch') == Attributed(keys, w)
    && (Inv(ch') <==> NoNotesFrom(w, |keys|))
  }

  lemma {:induction false} WrittenStores(ch: Channel, keys: seq<string>, size: nat, maps: Maps)
    requires (forall k :: k in keys ==> '\n' !in k) && maps.Below(|keys|) && ch.GetKeys() != []
    ensures Stores(ch, Save(Channel(Join(keys, '\n'), size, maps), ch.key), ViewOf(keys, maps))
  {
    KeysOfViewOf(keys, maps);
    WrittenKeys(ch, keys, size, maps);
    WrittenView(ch, keys, size, maps);
    WrittenBound(ch, keys, size, maps);
  }

  lemma {:induction false} KeysOfViewOf(keys: seq<string>, maps: Maps)
    ensures Keys(ViewOf(keys, maps)) == keys
  {
  }

  /** An action that leaves the key text alone. */
  lemma {:induction false} KeptStores(ch: Channel, ch': Channel)
    requires Inv(ch) && Inv(ch') && ch'.GetKeys() == ch.GetKeys()
    ensures Stores(ch, ch', View(ch'))
  {
    KeysOfView(ch');
    ReadListEnds(ch.key, '\n');
    StripFixed(ch.GetKeys());
    var keys, w := ch.GetKeys(), View(ch');
    assert ReadBack(keys, keys) == keys;
    assert Attributed(keys, w) == w;
  }

  lemma {:induction false} RebuildStores(ch: Channel, maps: Maps, drop: set<int>)
    requires Counted(ch)
    ensures Stores(ch, Rebuild(ch, maps, drop), KeepRecords(ViewOf(ch.GetKeys(), maps), |ch.GetKeys()|, drop))
  {
    var keys := ch.GetKeys();
    var remaining := KeepKeys(keys, |keys|, drop);
    KeepKeysMembers(keys, |keys|, drop);
    KeysHaveNoNewline(ch);
    ReindexAllBelow(maps, |keys|, drop);
    ReindexView(keys, maps, |keys|, drop);
    WrittenStores(ch, remaining, |remaining|, ReindexAll(maps, |keys|, drop));
  }

  /** Which records a rebuild without position i keeps. */
  lemma {:induction false} KeptWithout(ch: Channel, i: nat)
    requires Counted(ch) && i < ch.size
    ensures KeepRecords(ViewOf(ch.GetKeys(), WithoutOnes(ch.maps)), |ch.GetKeys()|, {i}) ==
      View(ch)[..i] + View(ch)[i + 1..]
  {
    var keys := ch.GetKeys();
    WithoutOnesView(keys, ch.maps);
    KeepAllButOne(View(ch), |keys|, i);
    assert View(ch)[i + 1..|keys|] == View(ch)[i + 1..];
  }

  lemma {:induction false} DeleteKeyRebuilds(ch: Channel, i: nat)
    requires Counted(ch) && i < ch.size && ch.size > 1
    ensures Act(ch, DeleteKey(Some(i))) == Rebuild(ch, WithoutOnes(ch.maps), {i})
  {
    RankAllButOne(|ch.GetKeys()|, i);
  }

  lemma {:induction false} DeleteKeyStored(ch: Channel, i: nat)
    requires Counted(ch) && i < ch.size && ch.size > 1
    ensures Stores(ch, Act(ch, DeleteKey(Some(i))), View(ch)[..i] + View(ch)[i + 1..])
  {
    DeleteKeyRebuilds(ch, i);
    KeptWithout(ch, i);
    RebuildStores(ch, WithoutOnes(ch.maps), {i});
  }

  /** Which records a rebuild without the automatically disabled positions keeps. */
  lemma {:induction false} KeptSurvivors(ch: Channel)
    requires Inv(ch)
    ensures KeepRecords(ViewOf(ch.GetKeys(), OnlyDisabled(ch.maps)), |ch.GetKeys()|, AutoDisabled(ch)) ==
      MapRecords(Survivors(View(ch)), Copied)
  {
    var keys, v := ch.GetKeys(), View(ch);
    OnlyDisabledView(keys, ch.maps);
    KeepSurvivors(v, ViewOf(keys, OnlyDisabled(ch.maps)), |v|, AutoDisabled(ch));
    assert v[..|v|] == v;
  }

  lemma {:induction false} DeleteDisabledStored(ch: Channel)
    requires Inv(ch) && AutoDisabled(ch) != {}
    ensures Stores(ch, Act(ch, DeleteDisabledKeys), MapRecords(Survivors(View(ch)), Copied))
  {
    RebuildStores(ch, OnlyDisabled(ch.maps), AutoDisabled(ch));
    KeptSurvivors(ch);
  }

  lemma {:induction false} AppendStored(ch: Channel, text: string)
    requires Inv(ch)
    ensures Stores(ch, Act(ch, Append(text)), ActOnList(View(ch), Append(text)))
  {
    var keys, added := ch.GetKeys(), NewKeys(ch, text);
    assert ActOnList(View(ch), Append(text)) == ViewOf(keys + added, ch.maps) by {
      KeysOfView(ch);
      AppendedRecords(keys, added, ch.maps);
    }
    assert forall k :: k in keys + added ==> '\n' !in k by {
      KeysHaveNoNewline(ch);
      NewKeysClean(ch, text);
    }
    assert Act(ch, Append(text)) == Save(Channel(Join(keys + added, '\n'), ch.size, ch.maps), ch.key);
    WrittenStores(ch, keys + added, ch.size, ch.maps);
  }

  lemma {:induction false} QuietStored(ch: Channel, a: Action)
    requires Inv(ch) && (a.DisableKey? || a.EnableKey? || a.EnableAllKeys? || a.DisableAllKeys? || a.Report?)
    ensures Stores(ch, Act(ch, a), ActOnList(View(ch), a))
  {
    if a.DisableAllKeys? {
      DisableAllView(ch);
    } else if a.Report? {
      ReportView(ch, a);
    } else {
      StatusView(ch, a);
    }
    KeptStores(ch, Act(ch, a));
  }

  /** Every action, for every channel: on the list of records it is the intended edit, read back. */
  lemma {:induction false} ActStores(ch: Channel, a: Action)
    requires Inv(ch)
    ensures Stores(ch, Act(ch, a), ActOnList(View(ch), a))
  {
    match a
    case DeleteKey(index) =>
      if InRange(ch, index) && ch.size > 1 {
        DeleteKeyStored(ch, index.value);
      } else {
        if InRange(ch, index) {
          DeleteLastKey(ch, index.value);
        }
        KeptStores(ch, ch);
      }
    case DeleteDisabledKeys =>
      AutoDisabledView(ch);
      if AutoDisabled(ch) == {} {
        KeptStores(ch, ch);
      } else if Survivors(View(ch)) == [] {
        DeleteAllComesBack(ch);
        KeptStores(ch, Act(ch, a));
      } else {
        DeleteDisabledStored(ch);
      }
    case Append(text) => AppendStored(ch, text);
    case _ => QuietStored(ch, a);
  }

  /** The intended keys can be stored: none is blank at the ends, or they are those that are stored already. */
  predicate Storable(v: seq<Record>, a: Action) {
    GoodEnds(Keys(ActOnList(v, a))) || Keys(ActOnList(v, a)) == Keys(v)
  }

  /** One action on the channel is the same action on its list of records exactly if the keys it leaves can be stored;
      it then keeps the invariant. */
  lemma {:induction false} ActRefines(ch: Channel, a: Action)
    requires Inv(ch)
    ensures View(Act(ch, a)) == ActOnList(View(ch), a) <==> Storable(View(ch), a)
    ensures Storable(View(ch), a) ==> Inv(Act(ch, a))
  {
    ActStores(ch, a);
    KeysOfView(ch);
    StoredExactly(ch, Act(ch, a), ActOnList(View(ch), a));
  }

  lemma {:induction false} StoredExactly(ch: Channel, ch': Channel, w: seq<Record>)
    requires Counted(ch) && Stores(ch, ch', w) && w != []
    ensures View(ch') == w <==> GoodEnds(Keys(w)) || Keys(w) == ch.GetKeys()
    ensures View(ch') == w ==> Inv(ch')
  {
    var keys, stored := ReadBack(Keys(w), ch.GetKeys()), ch.GetKeys();
    StripFixed(Keys(w));
    ReadListEnds(ch.key, '\n');
    assert keys == Keys(w) <==> GoodEnds(Keys(w)) || Keys(w) == stored;
    if keys == Keys(w) {
      assert Attributed(keys, w) == w;
    } else {
      assert Keys(Attributed(keys, w)) == keys;
    }
  }

  /** The keys of the intended list are old or new ones. */
  lemma {:induction false} NamedList(ch: Channel, a: Action)
    requires Inv(ch)
    ensures ActOnList(View(ch), a) != []
    ensures forall k :: k in Keys(ActOnList(View(ch), a)) ==>
      k in ch.GetKeys() || (a.Append? && k in NewKeys(ch, a.text))
  {
    var keys, v, w := ch.GetKeys(), View(ch), ActOnList(View(ch), a);
    KeysOfView(ch);
    if a.DeleteDisabledKeys? {
      SurvivorKeys(v);
    } else if a.Append? {
      assert w == v + FreshAll(NewKeys(ch, a.text));
    }
  }

  lemma {:induction false} SurvivorKeys(v: seq<Record>)
    ensures forall k :: k in Keys(MapRecords(Survivors(v), Copied)) ==> k in Keys(v)
  {
    var left := Survivors(v);
    SurvivorsMembers(v);
    forall i | 0 <= i < |left| ensures left[i].key in Keys(v) {
      assert left[i] in left;
      var j :| 0 <= j < |v| && v[j] == left[i];
      assert Keys(v)[j] == left[i].key;
    }
  }

  /** Without blank keys everything can be stored. */
  lemma {:induction false} NamedRefines(ch: Channel, a: Action)
    requires Named(ch)
    ensures Named(Act(ch, a)) && View(Act(ch, a)) == ActOnList(View(ch), a) && Storable(View(ch), a)
  {
    var keys := Keys(ActOnList(View(ch), a));
    NamedKeys(ch, a);
    assert keys[0] in keys && keys[|keys| - 1] in keys;
    ActRefines(ch, a);
    KeysOfView(Act(ch, a));
  }

  lemma {:induction false} NamedKeys(ch: Channel, a: Action)
    requires Named(ch)
    ensures var keys := Keys(ActOnList(View(ch), a)); keys != [] && forall k :: k in keys ==> k != ""
  {
    NamedList(ch, a);
    if a.Append? {
      NewKeysClean(ch, a.text);
    }
  }

  // ---------------------------------------------------------------------------------------------------
  // Results
  // ---------------------------------------------------------------------------------------------------

  function ActAll(ch: Channel, actions: seq<Action>): Channel
    decreases |actions|
  {
    if actions == [] then ch else ActAll(Act(ch, actions[0]), actions[1..])
  }

  function ActAllOnList(v: seq<Record>, actions: seq<Action>): seq<Record>
    decreases |actions|
  {
    if actions == [] then v else ActAllOnList(ActOnList(v, actions[0]), actions[1..])
  }

  lemma {:induction false} TailOfPrefix(actions: seq<Action>, i: nat)
    requires 0 < i <= |actions|
    ensures actions[..i][0] == actions[0] && actions[..i][1..] == actions[1..][..i - 1]
  {}

  lemma {:induction false} ActAllLast(ch: Channel, actions: seq<Action>, i: nat)
    requires i < |actions|
    ensures ActAll(ch, actions[..i + 1]) == Act(ActAll(ch, actions[..i]), actions[i])
    decreases i
  {
    var init, more := actions[..i], actions[..i + 1];
    if i == 0 {
      assert more == [actions[0]] && more[1..] == [];
    } else {
      var rest := actions[1..];
      TailOfPrefix(actions, i);
      TailOfPrefix(actions, i + 1);
      ActAllLast(Act(ch, actions[0]), rest, i - 1);
    }
  }

  lemma {:induction false} ActAllOnListLast(v: seq<Record>, actions: seq<Action>, i: nat)
    requires i < |actions|
    ensures ActAllOnList(v, actions[..i + 1]) == ActOnList(ActAllOnList(v, actions[..i]), actions[i])
    decreases i
  {
    var init, more := actions[..i], actions[..i + 1];
    if i == 0 {
      assert more == [actions[0]] && more[1..] == [];
    } else {
      var rest := actions[1..];
      TailOfPrefix(actions, i);
      TailOfPrefix(actions, i + 1);
      ActAllOnListLast(ActOnList(v, actions[0]), rest, i - 1);
    }
  }

  /** The channel has followed the list through the first n actions. */
  predicate Follows(ch: Channel, actions: seq<Action>, n: nat)
    requires n <= |actions|
  {
    forall i :: 0 <= i <= n ==> View(ActAll(ch, actions[..i])) == ActAllOnList(View(ch), actions[..i])
  }

  predicate AllStorable(ch: Channel, actions: seq<Action>, n: nat)
    requires n <= |actions|
  {
    forall i :: 0 <= i < n ==> Storable(ActAllOnList(View(ch), actions[..i]), actions[i])
  }

  lemma {:induction false} FollowsOneMore(ch: Channel, actions: seq<Action>, n: nat)
    requires n < |actions|
    ensures Follows(ch, actions, n + 1) <==>
      Follows(ch, actions, n) && View(ActAll(ch, actions[..n + 1])) == ActAllOnList(View(ch), actions[..n + 1])
    ensures AllStorable(ch, actions, n + 1) <==>
      AllStorable(ch, actions, n) && Storable(ActAllOnList(View(ch), actions[..n]), actions[n])
  {
  }

  /** A channel that has followed the list so far follows it through the next action exactly if that can be stored. */
  lemma {:induction false} FollowsOneStep(ch: Channel, actions: seq<Action>, n: nat)
    requires n < |actions| && Inv(ActAll(ch, actions[..n]))
    requires View(ActAll(ch, actions[..n])) == ActAllOnList(View(ch), actions[..n])
    ensures View(ActAll(ch, actions[..n + 1])) == ActAllOnList(View(ch), actions[..n + 1]) <==>
      Storable(ActAllOnList(View(ch), actions[..n]), actions[n])
    ensures Storable(ActAllOnList(View(ch), actions[..n]), actions[n]) ==> Inv(ActAll(ch, actions[..n + 1]))
  {
    ActAllLast(ch, actions, n);
    ActAllOnListLast(View(ch), actions, n);
    ActRefines(ActAll(ch, actions[..n]), actions[n]);
  }

  lemma {:induction false} FollowsExactly(ch: Channel, actions: seq<Action>, n: nat)
    requires Inv(ch) && n <= |actions|
    ensures Follows(ch, actions, n) <==> AllStorable(ch, actions, n)
    ensures Follows(ch, actions, n) ==>
      Inv(ActAll(ch, actions[..n])) && View(ActAll(ch, actions[..n])) == ActAllOnList(View(ch), actions[..n])
  {
    if n == 0 {
      assert actions[..0] == [];
    } else {
      FollowsExactly(ch, actions, n - 1);
      FollowsOneMore(ch, actions, n - 1);
      if Follows(ch, actions, n - 1) {
        FollowsOneStep(ch, actions, n - 1);
      }
    }
  }

  /** Over every sequence of actions on every channel the key text, the size and the three maps implement the list of
      records (every surviving key keeps its own status, time and reason) exactly as long as the keys that each action
      leaves can be stored. */
  lemma {:induction false} RunRefines(ch: Channel, actions: seq<Action>)
    requires Inv(ch)
    ensures Follows(ch, actions, |actions|) <==> AllStorable(ch, actions, |actions|)
    ensures AllStorable(ch, actions, |actions|) ==> Inv(ActAll(ch, actions))
  {
    FollowsExactly(ch, actions, |actions|);
    assert actions[..|actions|] == actions;
  }

  /** Without blank keys that is always so. */
  lemma {:induction false} NamedRunRefines(ch: Channel, actions: seq<Action>)
    requires Named(ch)
    ensures Named(ActAll(ch, actions))
    ensures View(ActAll(ch, actions)) == ActAllOnList(View(ch), actions)
    decreases |actions|
  {
    if actions != [] {
      NamedRefines(ch, actions[0]);
      NamedRunRefines(Act(ch, actions[0]), actions[1..]);
    }
  }

  /** No time or reason is kept for an enabled key. */
  predicate Tidy(v: seq<Record>) {
    forall i :: 0 <= i < |v| ==> v[i].status == ENABLED ==> v[i].time == None && v[i].reason == None
  }

  /** An outside report that a key works again, for a key with a time or a reason on record. */
  predicate LeavesOldNotes(v: seq<Record>, a: Action) {
    a.Report? && a.status == ENABLED && v != [] &&
    var i := Position(Keys(v), a.usingKey);
    i < |v| && (v[i].time != None || v[i].reason != None)
  }

  /** Every action keeps that, except exactly such a report: it forgets the status but not the time and the
      reason. */
  lemma {:induction false} ActTidy(v: seq<Record>, a: Action)
    requires Tidy(v)
    ensures Tidy(ActOnList(v, a)) <==> !LeavesOldNotes(v, a)
  {
    if LeavesOldNotes(v, a) {
      var r := ActOnList(v, a)[Position(Keys(v), a.usingKey)];
      assert r.status == ENABLED && (r.time != None || r.reason != None);
    }
  }

  /** An action after which a time or a reason lies beyond the keys that are read. */
  predicate LosesNotes(ch: Channel, a: Action) {
    var w := ActOnList(View(ch), a);
    !NoNotesFrom(w, |ReadBack(Keys(w), ch.GetKeys())|)
  }

  predicate InOrder(ch: Channel) {
    Inv(ch) && Tidy(View(ch))
  }

  /** One action on any channel in order. */
  lemma {:induction false} ActInOrder(ch: Channel, a: Action)
    requires InOrder(ch)
    ensures InOrder(Act(ch, a)) <==> !LeavesOldNotes(View(ch), a) && !LosesNotes(ch, a)
  {
    var ch', w := Act(ch, a), ActOnList(View(ch), a);
    ActStores(ch, a);
    ActTidy(View(ch), a);
    if LeavesOldNotes(View(ch), a) {
      ReportView(ch, a);
    } else {
      assert Tidy(Attributed(ch'.GetKeys(), w));
    }
  }

  /** The channel is in order before, between and after the actions. */
  predicate StaysInOrder(ch: Channel, actions: seq<Action>)
    decreases |actions|
  {
    InOrder(ch) && (actions == [] || StaysInOrder(Act(ch, actions[0]), actions[1..]))
  }

  predicate Undisturbed(ch: Channel, actions: seq<Action>)
    decreases |actions|
  {
    actions == [] ||
    (&& !LeavesOldNotes(View(ch), actions[0]) && !LosesNotes(ch, actions[0])
     && Undisturbed(Act(ch, actions[0]), actions[1..]))
  }

  /** Over every sequence of actions on every channel, all indices lie below the key count and times and reasons are
      kept for disabled keys only, at every point of it, if and only if no report re-enables a key that has a time or a
      reason when it comes, and no action strips blank keys with a time or a reason off the end of the list. */
  lemma {:induction false} RunTidy(ch: Channel, actions: seq<Action>)
    requires InOrder(ch)
    ensures StaysInOrder(ch, actions) <==> Undisturbed(ch, actions)
    decreases |actions|
  {
    if actions != [] {
      ActInOrder(ch, actions[0]);
      if InOrder(Act(ch, actions[0])) {
        RunTidy(Act(ch, actions[0]), actions[1..]);
      }
    }
  }

  lemma {:induction false} SavedKeys(ch: Channel, storedKey: string)
    ensures Save(ch, storedKey).GetKeys() == ReadList(if ch.key == "" then storedKey else ch.key, '\n')
  {}

  /** Blank keys: whatever the maps hold, delete_key drops exactly the chosen record if and only if the first and the
      last of the remaining keys are not blank; otherwise the text that is stored reads back as other keys. */
  lemma {:induction false} DeleteKeyNeedsNonBlankEnds(ch: Channel, i: nat)
    requires ch.size == |ch.GetKeys()| > 1 && i < ch.size
    ensures var rest := ch.GetKeys()[..i] + ch.GetKeys()[i + 1..];
      View(Act(ch, DeleteKey(Some(i)))) == View(ch)[..i] + View(ch)[i + 1..] <==>
      rest[0] != "" && rest[|rest| - 1] != ""
  {
    var rest, w := ch.GetKeys()[..i] + ch.GetKeys()[i + 1..], View(ch)[..i] + View(ch)[i + 1..];
    assert Keys(w) == rest;
    DeleteKeyStored(ch, i);
    StoredExactly(ch, Act(ch, DeleteKey(Some(i))), w);
  }
}
