/** The multi-key actions as the handlers run them: loops that rewrite the key list and the three maps of a
    channel in place with a running new index. Each is proved to be the action of module MultiKey. */
module MultiKeyActions {
  import opened Basics
  import opened Text
  import opened MultiKey
  import UpstreamModels

  class MultiKeyChannel {
    var key: string
    var size: nat
    var status: map<int, int>
    var time: map<int, int>
    var reason: map<int, string>

    constructor (ch: Channel)
      ensures Value() == ch
    {
      key, size, status, time, reason := ch.key, ch.size, ch.maps.status, ch.maps.time, ch.maps.reason;
    }

    function Value(): Channel
      reads this
    {
      Channel(key, size, Maps(status, time, reason))
    }

    /** Channel.Update with the key text stored so far. */
    method Update(storedKey: string)
      modifies this
      ensures Value() == Save(old(Value()), storedKey)
    {
      var text := if key != "" then key else storedKey;
      key, size := text, |ReadList(text, '\n')|;
      status := map i | i in status && i < size :: status[i];
    }

    method DisableKey(index: Option<int>) returns (ok: bool)
      modifies this
      ensures Value() == Act(old(Value()), MultiKey.DisableKey(index))
      ensures ok <==> InRange(old(Value()), index)
    {
      ok := index.Some? && 0 <= index.value < size;
      if ok {
        status := status[index.value := MANUALLY_DISABLED];
        Update(key);
      }
    }

    method EnableKey(index: Option<int>) returns (ok: bool)
      modifies this
      ensures Value() == Act(old(Value()), MultiKey.EnableKey(index))
      ensures ok <==> InRange(old(Value()), index)
    {
      ok := index.Some? && 0 <= index.value < size;
      if ok {
        status, time, reason := status - {index.value}, time - {index.value}, reason - {index.value};
        Update(key);
      }
    }

    method EnableAllKeys() returns (enabledCount: nat)
      modifies this
      ensures Value() == Act(old(Value()), MultiKey.EnableAllKeys)
      ensures enabledCount == |old(status)|
    {
      enabledCount := |status|;
      status, time, reason := map[], map[], map[];
      Update(key);
    }

    method DisableAllKeys() returns (disabledCount: nat)
      modifies this
      ensures Value() == Act(old(Value()), MultiKey.DisableAllKeys)
      ensures disabledCount == 0 <==> forall i :: 0 <= i < old(size) ==> old(Value()).maps.StatusOf(i) != ENABLED
    {
      var next;
      next, disabledCount := DisableLoop(Value().maps, size);
      if disabledCount == 0 {
        return;
      }
      status := next;
      Update(key);
    }

    method DeleteKey(index: Option<int>) returns (ok: bool)
      modifies this
      ensures Value() == Act(old(Value()), MultiKey.DeleteKey(index))
      ensures ok <==>
        (InRange(old(Value()), index) &&
         KeepKeys(old(Value()).GetKeys(), |old(Value()).GetKeys()|, {index.value}) != [])
    {
      ok := false;
      if index.None? || index.value < 0 || index.value >= size {
        return;
      }
      var keys := Value().GetKeys();
      ghost var drop := {index.value};
      ghost var maps := WithoutOnes(Value().maps);
      var remaining: seq<string> := [];
      var newStatus, newTime, newReason := map[], map[], map[];
      var newIndex := 0;
      for i := 0 to |keys|
        invariant Value() == old(Value())
        invariant remaining == KeepKeys(keys, i, drop) && newIndex == Rank(i, drop)
        invariant newStatus == Reindex(maps.status, i, drop)
        invariant newTime == Reindex(maps.time, i, drop)
        invariant newReason == Reindex(maps.reason, i, drop)
      {
        if i != index.value {
          remaining := remaining + [keys[i]];
          if i in status && status[i] != ENABLED {
            newStatus := newStatus[newIndex := status[i]];
          }
          if i in time {
            newTime := newTime[newIndex := time[i]];
          }
          if i in reason {
            newReason := newReason[newIndex := reason[i]];
          }
          newIndex := newIndex + 1;
        }
      }
      if |remaining| == 0 {
        return;
      }
      ok := true;
      var stored := key;
      key, size := Join(remaining, '\n'), |remaining|;
      status, time, reason := newStatus, newTime, newReason;
      Update(stored);
    }

    method DeleteDisabledKeys() returns (deletedCount: nat)
      modifies this
      ensures Value() == Act(old(Value()), MultiKey.DeleteDisabledKeys)
      ensures deletedCount == 0 <==> AutoDisabled(old(Value())) == {}
    {
      var ch := Value();
      var remaining, maps;
      remaining, maps, deletedCount := CompactLoop(ch.GetKeys(), ch.maps);
      assert AutoDisabled(ch) == set i | 0 <= i < |ch.GetKeys()| && ch.maps.StatusOf(i) == AUTO_DISABLED;
      if deletedCount == 0 {
        return;
      }
      key, size := Join(remaining, '\n'), |remaining|;
      status, time, reason := maps.status, maps.time, maps.reason;
      Update(ch.key);
    }

    /** The append branch of UpdateChannel, for keys kept one per line. */
    method Append(text: string)
      modifies this
      ensures Value() == Act(old(Value()), MultiKey.Append(text))
    {
      var ch := Value();
      if ch.key != "" {
        var added := NewKeysLoop(ch.GetKeys(), Split(text, '\n'));
        key := Join(ch.GetKeys() + added, '\n');
      } else {
        key := text;
      }
      Update(ch.key);
    }

    /** handlerMultiKeyUpdate: an upstream answer about one key. */
    method Report(usingKey: string, newStatus: int, why: string, now: int)
      modifies this
      ensures Value() == Act(old(Value()), MultiKey.Report(usingKey, newStatus, why, now))
    {
      var keys := Value().GetKeys();
      if |keys| == 0 {
        return;
      }
      var keyIndex := FindKey(keys, usingKey);
      if newStatus == ENABLED {
        status := status - {keyIndex};
      } else {
        status, reason, time := status[keyIndex := newStatus], reason[keyIndex := why], time[keyIndex := now];
      }
    }
  }

  method DisableLoop(maps: Maps, size: nat) returns (next: map<int, int>, disabledCount: nat)
    ensures next == DisableEnabled(maps, size)
    ensures disabledCount == 0 <==> forall i :: 0 <= i < size ==> maps.StatusOf(i) != ENABLED
  {
    next, disabledCount := maps.status, 0;
    for i := 0 to size
      invariant next == DisableEnabled(maps, i)
      invariant disabledCount == 0 <==> forall j :: 0 <= j < i ==> maps.StatusOf(j) != ENABLED
    {
      DisableEnabledMeaning(maps, i);
      var s := if i in next then next[i] else ENABLED;
      assert Find(next, i) == Find(maps.status, i) || maps.StatusOf(i) == ENABLED;
      if s == ENABLED {
        next := next[i := MANUALLY_DISABLED];
        disabledCount := disabledCount + 1;
      }
    }
  }

  /** The loop of delete_disabled_keys. */
  method CompactLoop(keys: seq<string>, maps: Maps)
    returns (remaining: seq<string>, compacted: Maps, deletedCount: nat)
    ensures var drop := set i | 0 <= i < |keys| && maps.StatusOf(i) == AUTO_DISABLED;
      && remaining == KeepKeys(keys, |keys|, drop)
      && compacted == ReindexAll(OnlyDisabled(maps), |keys|, drop)
      && (deletedCount == 0 <==> drop == {})
  {
    ghost var drop := set i | 0 <= i < |keys| && maps.StatusOf(i) == AUTO_DISABLED;
    ghost var kept := OnlyDisabled(maps);
    var newStatus, newTime, newReason := map[], map[], map[];
    var newIndex := 0;
    remaining, deletedCount := [], 0;
    for i := 0 to |keys|
      invariant remaining == KeepKeys(keys, i, drop) && newIndex == Rank(i, drop)
      invariant newStatus == Reindex(kept.status, i, drop)
      invariant newTime == Reindex(kept.time, i, drop)
      invariant newReason == Reindex(kept.reason, i, drop)
      invariant deletedCount == 0 <==> forall j :: 0 <= j < i ==> j !in drop
    {
      var s := if i in maps.status then maps.status[i] else ENABLED;
      if s == AUTO_DISABLED {
        deletedCount := deletedCount + 1;
      } else {
        remaining := remaining + [keys[i]];
        if s != ENABLED {
          newStatus := newStatus[newIndex := s];
          if i in maps.time {
            newTime := newTime[newIndex := maps.time[i]];
          }
          if i in maps.reason {
            newReason := newReason[newIndex := maps.reason[i]];
          }
        }
        newIndex := newIndex + 1;
      }
    }
    compacted := Maps(newStatus, newTime, newReason);
  }

  method FindKey(keys: seq<string>, key: string) returns (keyIndex: nat)
    ensures keyIndex == Position(keys, key)
  {
    keyIndex := 0;
    for i := 0 to |keys|
      invariant keyIndex == 0
      invariant forall j :: 0 <= j < i ==> keys[j] != key
    {
      if keys[i] == key {
        FirstFromSkips(keys, key, 0, i);
        return i;
      }
    }
  }

  lemma {:induction false} FirstFromSkips(keys: seq<string>, key: string, i: nat, j: nat)
    requires i <= j < |keys| && keys[j] == key && forall m :: i <= m < j ==> keys[m] != key
    ensures FirstFrom(keys, key, i) == j
    decreases j - i
  {
    if i < j {
      FirstFromSkips(keys, key, i + 1, j);
    }
  }

  /** The keys the channel has, trimmed, as a set. */
  method SeenKeys(existing: seq<string>) returns (seen: set<string>)
    ensures seen == set x | x in UpstreamModels.TrimAll(existing)
  {
    seen := {};
    for i := 0 to |existing|
      invariant seen == set x | x in UpstreamModels.TrimAll(existing[..i])
    {
      TrimAllLast(existing, i);
      var normalized := TrimSpace(existing[i]);
      if normalized != "" {
        seen := seen + {normalized};
      }
    }
    assert existing[..|existing|] == existing;
  }

  /** One more line: it is new if it is not blank, not a key of the channel and not an earlier line. */
  lemma {:induction false} LineStep(lines: seq<string>, i: nat, present: seq<string>)
    requires i < |lines|
    ensures var was, now, x := UpstreamModels.Normalize(lines[..i]), UpstreamModels.Normalize(lines[..i + 1]),
      TrimSpace(lines[i]);
      && (forall y :: y in now <==> y in was || (y == x && x != ""))
      && UpstreamModels.Drop(now, present) ==
         if x == "" || x in was || x in present then UpstreamModels.Drop(was, present)
         else UpstreamModels.Drop(was, present) + [x]
  {
    var x := TrimSpace(lines[i]);
    var before := UpstreamModels.TrimAll(lines[..i]);
    TrimAllLast(lines, i);
    if x == "" {
      assert before + [] == before;
    } else {
      UniqLast(before, x);
      UpstreamModels.DropAppend(UpstreamModels.Uniq(before), [x], present);
      var d := UpstreamModels.Drop(UpstreamModels.Uniq(before), present);
      assert d + [] == d;
    }
  }

  /** The append loop, with the set of the keys seen so far. */
  method NewKeysLoop(existing: seq<string>, lines: seq<string>) returns (added: seq<string>)
    ensures added == UpstreamModels.Drop(UpstreamModels.Normalize(lines), UpstreamModels.TrimAll(existing))
  {
    var seen := SeenKeys(existing);
    ghost var present := UpstreamModels.TrimAll(existing);
    added := [];
    for i := 0 to |lines|
      invariant added == UpstreamModels.Drop(UpstreamModels.Normalize(lines[..i]), present)
      invariant forall x :: x in seen <==> x in present || x in UpstreamModels.Normalize(lines[..i])
    {
      LineStep(lines, i, present);
      var normalized := TrimSpace(lines[i]);
      if normalized != "" && normalized !in seen {
        seen := seen + {normalized};
        added := added + [normalized];
      }
    }
    assert lines[..|lines|] == lines;
  }

  lemma {:induction false} TrimAllLast(s: seq<string>, i: nat)
    requires i < |s|
    ensures UpstreamModels.TrimAll(s[..i + 1]) ==
      UpstreamModels.TrimAll(s[..i]) + (if TrimSpace(s[i]) == "" then [] else [TrimSpace(s[i])])
  {
    assert s[..i + 1] == s[..i] + [s[i]];
    UpstreamModels.TrimAllAppend(s[..i], [s[i]]);
  }

  lemma {:induction false} UniqLast(s: seq<string>, x: string)
    ensures UpstreamModels.Uniq(s + [x]) ==
      if x in UpstreamModels.Uniq(s) then UpstreamModels.Uniq(s) else UpstreamModels.Uniq(s) + [x]
  {
    assert (s + [x])[..|s|] == s;
  }
}
