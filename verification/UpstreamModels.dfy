/** The list algebra of controller/channel_upstream_update.go: model names are trimmed, made unique and kept
    in order, and every operation is a filter of such lists. */
module UpstreamModels {
  import opened Basics
  import opened Text

  // ---------------------------------------------------------------------------------------------------
  // normalizeModelNames
  // ---------------------------------------------------------------------------------------------------

  function TrimAll(names: seq<string>): seq<string> {
    if names == [] then []
    else
      var x := TrimSpace(names[0]);
      if x == "" then TrimAll(names[1..]) else [x] + TrimAll(names[1..])
  }

  /** lo.Uniq: the first occurrence of every element. */
  function Uniq(s: seq<string>): seq<string> {
    if s == [] then []
    else
      var r := Uniq(s[..|s| - 1]);
      if s[|s| - 1] in r then r else r + [s[|s| - 1]]
  }

  /** A non-empty name without surrounding white space. */
  predicate IsName(x: string) {
    x != "" && !IsSpace(x[0]) && !IsSpace(x[|x| - 1])
  }

  /** A list that normalizeModelNames leaves alone. */
  predicate IsNormal(s: seq<string>) {
    NoDuplicates(s) && forall x :: x in s ==> IsName(x)
  }

  function Normalize(names: seq<string>): seq<string> {
    Uniq(TrimAll(names))
  }

  lemma {:induction false} TrimAllNames(names: seq<string>)
    ensures forall x :: x in TrimAll(names) ==> IsName(x)
  {
    if names != [] {
      TrimMeaning(names[0], IsSpace);
      TrimAllNames(names[1..]);
    }
  }

  lemma {:induction false} UniqMeaning(s: seq<string>)
    ensures NoDuplicates(Uniq(s))
    ensures forall x :: x in Uniq(s) <==> x in s
  {
    if s != [] {
      UniqMeaning(s[..|s| - 1]);
      assert s == s[..|s| - 1] + [s[|s| - 1]];
    }
  }

  lemma {:induction false} NormalizeNormal(names: seq<string>)
    ensures IsNormal(Normalize(names))
  {
    TrimAllNames(names);
    UniqMeaning(TrimAll(names));
  }

  lemma {:induction false} TrimAllMembers(names: seq<string>, x: string)
    ensures x in TrimAll(names) <==> x != "" && exists i :: 0 <= i < |names| && TrimSpace(names[i]) == x
  {
    if names != [] {
      TrimAllMembers(names[1..], x);
      assert forall i :: 0 <= i < |names| - 1 ==> names[1..][i] == names[i + 1];
      if i :| 0 <= i < |names| && TrimSpace(names[i]) == x {
        assert i > 0 ==> TrimSpace(names[1..][i - 1]) == x;
      }
    }
  }

  /** Exactly the trimmed names that are not empty. */
  lemma {:induction false} NormalizeMembers(names: seq<string>, x: string)
    ensures x in Normalize(names) <==> x != "" && exists i :: 0 <= i < |names| && TrimSpace(names[i]) == x
  {
    UniqMeaning(TrimAll(names));
    TrimAllMembers(names, x);
  }

  /** In the order of their first occurrences: normalising a prefix gives a prefix. */
  lemma {:induction false} NormalizePrefix(names: seq<string>, more: seq<string>)
    ensures Normalize(names) <= Normalize(names + more)
  {
    TrimAllAppend(names, more);
    UniqPrefix(TrimAll(names), TrimAll(more));
  }

  lemma {:induction false} UniqPrefix(a: seq<string>, b: seq<string>)
    ensures Uniq(a) <= Uniq(a + b)
  {
    if b == [] {
      assert a + b == a;
    } else {
      var last := |b| - 1;
      UniqPrefix(a, b[..last]);
      assert (a + b)[..|a + b| - 1] == a + b[..last];
    }
  }

  lemma {:induction false} UniqFixed(s: seq<string>)
    requires NoDuplicates(s)
    ensures Uniq(s) == s
  {
    if s != [] {
      var last := |s| - 1;
      UniqFixed(s[..last]);
      assert s[last] !in s[..last];
      assert s == s[..last] + [s[last]];
    }
  }

  lemma {:induction false} TrimAllFixed(s: seq<string>)
    requires forall x :: x in s ==> IsName(x)
    ensures TrimAll(s) == s
  {
    if s != [] {
      assert s[0] in s;
      TrimFixed(s[0], IsSpace);
      assert forall x :: x in s[1..] ==> x in s;
      TrimAllFixed(s[1..]);
    }
  }

  lemma {:induction false} NormalizeFixed(s: seq<string>)
    requires IsNormal(s)
    ensures Normalize(s) == s
  {
    TrimAllFixed(s);
    UniqFixed(s);
  }

  // ---------------------------------------------------------------------------------------------------
  // merge, subtract, intersect
  // ---------------------------------------------------------------------------------------------------

  /** The names of s that are in allowed. */
  function Keep(s: seq<string>, allowed: seq<string>): seq<string> {
    if s == [] then []
    else if s[0] in allowed then [s[0]] + Keep(s[1..], allowed) else Keep(s[1..], allowed)
  }

  /** The names of s that are not in removed. */
  function Drop(s: seq<string>, removed: seq<string>): seq<string> {
    if s == [] then []
    else if s[0] in removed then Drop(s[1..], removed) else [s[0]] + Drop(s[1..], removed)
  }

  lemma {:induction false} KeepIsFilter(s: seq<string>, allowed: seq<string>)
    ensures Keep(s, allowed) == Filter(s, x => x in allowed)
  {
    if s != [] {
      KeepIsFilter(s[1..], allowed);
    }
  }

  lemma {:induction false} DropIsFilter(s: seq<string>, removed: seq<string>)
    ensures Drop(s, removed) == Filter(s, x => x !in removed)
  {
    if s != [] {
      DropIsFilter(s[1..], removed);
    }
  }

  lemma {:induction false} DropMembers(s: seq<string>, removed: seq<string>)
    ensures forall x :: x in Drop(s, removed) <==> x in s && x !in removed
  {
    DropIsFilter(s, removed);
    FilterMembers(s, x => x !in removed);
  }

  lemma {:induction false} KeepMeaning(s: seq<string>, allowed: seq<string>)
    requires IsNormal(s)
    ensures IsNormal(Keep(s, allowed))
    ensures forall x :: x in Keep(s, allowed) <==> x in s && x in allowed
  {
    KeepIsFilter(s, allowed);
    FilterMembers(s, x => x in allowed);
    FilterNormal(s, x => x in allowed);
  }

  /** For all inputs: the normalised names of base that are allowed, in their order. */
  lemma {:induction false} IntersectMeaning(base: seq<string>, allowed: seq<string>)
    ensures Intersect(base, allowed) == Filter(Normalize(base), x => x in Normalize(allowed))
    ensures IsNormal(Intersect(base, allowed))
  {
    NormalizeNormal(base);
    KeepIsFilter(Normalize(base), Normalize(allowed));
    KeepMeaning(Normalize(base), Normalize(allowed));
  }

  lemma {:induction false} DropMeaning(s: seq<string>, removed: seq<string>)
    requires IsNormal(s)
    ensures IsNormal(Drop(s, removed))
    ensures forall x :: x in Drop(s, removed) <==> x in s && x !in removed
  {
    DropIsFilter(s, removed);
    DropMembers(s, removed);
    FilterNormal(s, x => x !in removed);
  }

  lemma {:induction false} DropNothing(s: seq<string>, removed: seq<string>)
    requires forall x :: x in s ==> x !in removed
    ensures Drop(s, removed) == s
  {
    DropIsFilter(s, removed);
    FilterAll(s, x => x !in removed);
  }

  lemma {:induction false} DropAppend(a: seq<string>, b: seq<string>, removed: seq<string>)
    ensures Drop(a + b, removed) == Drop(a, removed) + Drop(b, removed)
  {
    DropIsFilter(a, removed);
    DropIsFilter(b, removed);
    DropIsFilter(a + b, removed);
    FilterAppend(a, b, x => x !in removed);
  }

  function Merge(base: seq<string>, appended: seq<string>): seq<string> {
    Normalize(base) + Drop(Normalize(appended), Normalize(base))
  }

  function Subtract(base: seq<string>, removed: seq<string>): seq<string> {
    Drop(Normalize(base), Normalize(removed))
  }

  function Intersect(base: seq<string>, allowed: seq<string>): seq<string> {
    Keep(Normalize(base), Normalize(allowed))
  }

  lemma {:induction false} FilterNormal(s: seq<string>, p: string -> bool)
    requires IsNormal(s)
    ensures IsNormal(Filter(s, p))
  {
    FilterNoDuplicates(s, p);
    FilterMembers(s, p);
  }

  lemma {:induction false} AppendNormal(a: seq<string>, b: seq<string>)
    requires IsNormal(a) && IsNormal(b) && forall x :: x in b ==> x !in a
    ensures IsNormal(a + b)
  {
    forall i, j | 0 <= i < j < |a + b| ensures (a + b)[i] != (a + b)[j] {
      if i < |a| <= j {
        assert a[i] in a && b[j - |a|] in b;
      }
    }
  }

  /** The loop of mergeModelNames: one pass over the appended names with a set of the names seen. */
  method AppendUnseen(base: seq<string>, extra: seq<string>) returns (merged: seq<string>)
    requires NoDuplicates(extra)
    ensures merged == base + Drop(extra, base)
  {
    merged := base;
    var seen := set x | x in base;
    for i := 0 to |extra|
      invariant merged == base + Drop(extra[..i], base)
      invariant seen == (set x | x in base) + (set x | x in extra[..i])
    {
      assert extra[..i + 1] == extra[..i] + [extra[i]];
      DropAppend(extra[..i], [extra[i]], base);
      if extra[i] !in seen {
        seen := seen + {extra[i]};
        merged := merged + [extra[i]];
      }
    }
    assert extra[..|extra|] == extra;
  }

  method MergeModelNames(base: seq<string>, appended: seq<string>) returns (merged: seq<string>)
    ensures merged == Merge(base, appended)
  {
    NormalizeNormal(appended);
    merged := AppendUnseen(Normalize(base), Normalize(appended));
  }

  /** applySelectedModelChanges: an addition wins over a removal of the same name. */
  function ApplySelected(origin: seq<string>, add: seq<string>, remove: seq<string>): seq<string> {
    var normalizedAdd := Normalize(add);
    var normalizedRemove := Subtract(Normalize(remove), normalizedAdd);
    Subtract(Merge(origin, normalizedAdd), normalizedRemove)
  }

  /** For all inputs: the original names that are not removed, or are added again, in their order; then the new
      names. */
  lemma {:induction false} ApplySelectedMeaning(origin: seq<string>, add: seq<string>, remove: seq<string>)
    ensures IsNormal(ApplySelected(origin, add, remove))
    ensures ApplySelected(origin, add, remove) ==
      Filter(Normalize(origin), x => x !in Normalize(remove) || x in Normalize(add)) +
      Filter(Normalize(add), x => x !in Normalize(origin))
  {
    var o, a, r := Normalize(origin), Normalize(add), Normalize(remove);
    NormalizeNormal(add);
    NormalizeNormal(origin);
    NormalizeNormal(remove);
    NormalizeFixed(a);
    NormalizeFixed(r);
    var rem, m := Drop(r, a), Merge(origin, a);
    DropMeaning(r, a);
    NormalizeFixed(rem);
    MergeNormal(origin, a);
    NormalizeFixed(m);
    DropMeaning(m, rem);
    DropAppend(o, Drop(a, o), rem);
    DropMembers(a, o);
    DropNothing(Drop(a, o), rem);
    DropIsFilter(a, o);
    DropIsFilter(o, rem);
    FilterSame(o, x => x !in rem, x => x !in r || x in a);
  }

  lemma {:induction false} MergeNormal(base: seq<string>, appended: seq<string>)
    ensures IsNormal(Merge(base, appended))
  {
    NormalizeNormal(base);
    NormalizeNormal(appended);
    DropMeaning(Normalize(appended), Normalize(base));
    AppendNormal(Normalize(base), Drop(Normalize(appended), Normalize(base)));
  }

  /** For all inputs: the base comes first, then the appended names it does not have, in their order. */
  lemma {:induction false} MergeMeaning(base: seq<string>, appended: seq<string>)
    ensures Merge(base, appended) == Normalize(base) + Filter(Normalize(appended), x => x !in Normalize(base))
    ensures forall x :: x in Merge(base, appended) <==> x in Normalize(base) || x in Normalize(appended)
  {
    DropIsFilter(Normalize(appended), Normalize(base));
    DropMembers(Normalize(appended), Normalize(base));
  }

  /** For all inputs: the normalised names of base that are not removed, in their order. */
  lemma {:induction false} SubtractMeaning(base: seq<string>, removed: seq<string>)
    ensures Subtract(base, removed) == Filter(Normalize(base), x => x !in Normalize(removed))
    ensures IsNormal(Subtract(base, removed))
  {
    NormalizeNormal(base);
    DropIsFilter(Normalize(base), Normalize(removed));
    DropMeaning(Normalize(base), Normalize(removed));
  }

  lemma {:induction false} SubtractNormal(base: seq<string>, removed: seq<string>)
    requires IsNormal(base) && IsNormal(removed)
    ensures Subtract(base, removed) == Drop(base, removed) && IsNormal(Subtract(base, removed))
  {
    NormalizeFixed(base);
    NormalizeFixed(removed);
    DropMeaning(base, removed);
  }

  /** Dropping two lists of names at once. */
  lemma {:induction false} SubtractBoth(s: seq<string>, a: seq<string>, b: seq<string>)
    requires IsNormal(s) && IsNormal(a) && IsNormal(b)
    ensures Subtract(s, a + b) == Filter(s, x => x !in a && x !in b)
  {
    var gone := Normalize(a + b);
    TrimAllFixed(a + b);
    UniqMeaning(a + b);
    NormalizeFixed(s);
    DropIsFilter(s, gone);
    FilterSame(s, x => x !in gone, x => x !in a && x !in b);
  }

  lemma {:induction false} DropSelect(s: seq<string>, removed: seq<string>, p: string -> bool)
    ensures Filter(Drop(s, removed), p) == Drop(Filter(s, p), removed)
  {
    if s != [] {
      DropSelect(s[1..], removed, p);
      var rest := Drop(s[1..], removed);
      assert s[0] !in removed ==> Drop(s, removed)[1..] == rest;
      var selected := Filter(s[1..], p);
      assert p(s[0]) ==> Filter(s, p)[1..] == selected;
    }
  }

  // ---------------------------------------------------------------------------------------------------
  // Stored lists
  // ---------------------------------------------------------------------------------------------------

  lemma {:induction false} TrimAllAppend(a: seq<string>, b: seq<string>)
    ensures TrimAll(a + b) == TrimAll(a) + TrimAll(b)
  {
    if a == [] {
      assert a + b == b;
    } else {
      assert (a + b)[1..] == a[1..] + b;
      TrimAllAppend(a[1..], b);
    }
  }

  lemma {:induction false} TrimLeftKeepsNames(text: string)
    ensures TrimAll(Split(TrimLeft(text, c => c == ','), ',')) == TrimAll(Split(text, ','))
  {
    if text != [] && text[0] == ',' {
      TrimLeftKeepsNames(text[1..]);
      TrimAllAppend([""], Split(text[1..], ','));
    }
  }

  lemma {:induction false} TrimRightKeepsNames(text: string)
    ensures TrimAll(Split(TrimRight(text, c => c == ','), ',')) == TrimAll(Split(text, ','))
  {
    if text != [] && text[|text| - 1] == ',' {
      var init := text[..|text| - 1];
      TrimRightKeepsNames(init);
      assert text == init + [','] + "";
      SplitAtSeparator(init, "", ',');
      TrimAllAppend(Split(init, ','), [""]);
    }
  }

  /** Reading a stored list loses nothing but blanks. */
  lemma {:induction false} ReadListNames(text: string)
    ensures TrimAll(ReadList(text, ',')) == TrimAll(Split(text, ','))
  {
    TrimLeftKeepsNames(text);
    TrimRightKeepsNames(TrimLeft(text, c => c == ','));
  }

  /** The names that a list of names becomes when it is stored and read back: its comma-separated parts. */
  function Pieces(names: seq<string>): seq<string> {
    Normalize(SplitAll(names, ','))
  }

  lemma {:induction false} StoredAsPieces(names: seq<string>)
    ensures Normalize(ReadList(Join(names, ','), ',')) == Pieces(names)
  {
    if names != [] {
      ReadListNames(Join(names, ','));
      SplitJoinAll(names, ',');
    }
  }

  predicate CommaFree(s: seq<string>) {
    forall x :: x in s ==> ',' !in x
  }

  /** A name without a comma is a piece of every list that holds it. */
  lemma {:induction false} NameIsPiece(names: seq<string>, x: string)
    requires x in names && IsName(x) && ',' !in x
    ensures x in Pieces(names)
  {
    PartOfAll(names, x);
    TrimmedMember(SplitAll(names, ','), x);
    UniqMeaning(TrimAll(SplitAll(names, ',')));
  }

  lemma {:induction false} PartOfAll(names: seq<string>, x: string)
    requires x in names && ',' !in x
    ensures x in SplitAll(names, ',')
  {
    if names[0] == x {
      SplitJoin([x], ',');
    } else {
      PartOfAll(names[1..], x);
    }
  }

  lemma {:induction false} TrimmedMember(names: seq<string>, x: string)
    requires x in names && IsName(x)
    ensures x in TrimAll(names)
  {
    if names[0] == x {
      TrimFixed(x, IsSpace);
    } else {
      TrimmedMember(names[1..], x);
    }
  }

  lemma {:induction false} PiecesFixed(names: seq<string>)
    requires IsNormal(names) && CommaFree(names)
    ensures Pieces(names) == names
  {
    SplitAllFixed(names, ',');
    NormalizeFixed(names);
  }

  lemma {:induction false} UniqAppend(a: seq<string>, b: seq<string>)
    requires NoDuplicates(a)
    ensures Uniq(a + b) == a + Drop(Uniq(b), a)
  {
    if b == [] {
      assert a + b == a;
      UniqFixed(a);
    } else {
      var k := |b| - 1;
      var init, r := b[..k], Uniq(b[..k]);
      UniqAppend(a, init);
      assert (a + b)[..|a + b| - 1] == a + init;
      DropAppend(r, [b[k]], a);
      DropMembers(r, a);
    }
  }

  /** Appending names to a storable list: what is read back is that list and then the new pieces. */
  lemma {:induction false} PiecesAppend(a: seq<string>, b: seq<string>)
    requires IsNormal(a) && CommaFree(a)
    ensures Pieces(a + b) == a + Drop(Pieces(b), a)
  {
    SplitAllAppend(a, b, ',');
    SplitAllFixed(a, ',');
    TrimAllAppend(a, SplitAll(b, ','));
    TrimAllFixed(a);
    UniqAppend(a, TrimAll(SplitAll(b, ',')));
  }

  // ---------------------------------------------------------------------------------------------------
  // collectPendingUpstreamModelChangesFromModels
  // ---------------------------------------------------------------------------------------------------

  const REGEX_PREFIX := "regex:"

  predicate IsRegexRule(rule: string) {
    REGEX_PREFIX <= rule
  }

  /** The regexp library: does the pattern compile and match the name? */
  type Matcher = (string, string) -> bool

  predicate Covers(rule: string, name: string, matches: Matcher) {
    if IsRegexRule(rule) then matches(TrimSpace(rule[|REGEX_PREFIX|..]), name) else rule == name
  }

  predicate Ignored(rules: seq<string>, name: string, matches: Matcher) {
    exists i :: 0 <= i < |rules| && Covers(rules[i], name, matches)
  }

  /** What the upstream side of a channel looks like: its model list, the redirects, the regexp engine. */
  datatype Upstream = Upstream(models: seq<string>, mapping: map<string, string>, matches: Matcher)

  predicate Addable(up: Upstream, local: seq<string>, ignored: seq<string>, name: string) {
    && name !in Normalize(local)
    && name !in up.mapping.Values
    && !Ignored(Normalize(ignored), name, up.matches)
  }

  predicate Removable(up: Upstream, name: string) {
    name !in up.mapping.Keys && name !in Normalize(up.models)
  }

  function PendingAdd(up: Upstream, local: seq<string>, ignored: seq<string>): seq<string> {
    Normalize(Filter(Normalize(up.models), x => Addable(up, local, ignored, x)))
  }

  function PendingRemove(up: Upstream, local: seq<string>): seq<string> {
    Normalize(Filter(Normalize(local), x => Removable(up, x)))
  }

  lemma {:induction false} PendingMembers(up: Upstream, local: seq<string>, ignored: seq<string>)
    ensures forall x :: x in PendingAdd(up, local, ignored) <==>
      x in Normalize(up.models) && Addable(up, local, ignored, x)
    ensures forall x :: x in PendingRemove(up, local) <==> x in Normalize(local) && Removable(up, x)
  {
    PendingMeaning(up, local, ignored);
    FilterMembers(Normalize(up.models), x => Addable(up, local, ignored, x));
    FilterMembers(Normalize(local), x => Removable(up, x));
  }

  lemma {:induction false} PendingMeaning(up: Upstream, local: seq<string>, ignored: seq<string>)
    ensures PendingAdd(up, local, ignored) == Filter(Normalize(up.models), x => Addable(up, local, ignored, x))
    ensures PendingRemove(up, local) == Filter(Normalize(local), x => Removable(up, x))
  {
    NormalizeNormal(up.models);
    NormalizeNormal(local);
    FilterNormal(Normalize(up.models), x => Addable(up, local, ignored, x));
    NormalizeFixed(Filter(Normalize(up.models), x => Addable(up, local, ignored, x)));
    FilterNormal(Normalize(local), x => Removable(up, x));
    NormalizeFixed(Filter(Normalize(local), x => Removable(up, x)));
  }

  /** A name is offered for removal exactly if the channel has it, the upstream does not, and no redirect starts at
      it. */
  lemma {:induction false} RemovalOffered(up: Upstream, local: seq<string>, x: string)
    ensures x in PendingRemove(up, local) <==>
      x in Normalize(local) && x !in up.mapping && x !in Normalize(up.models)
  {
    PendingMembers(up, local, []);
  }

  /** A name is offered for addition exactly if the upstream has it, the channel does not, no redirect leads to it, and
      no rule on the ignore list is this name or, after "regex:", a pattern that matches it. */
  lemma {:induction false} AdditionOffered(up: Upstream, local: seq<string>, ignored: seq<string>, x: string)
    ensures x in PendingAdd(up, local, ignored) <==>
      && x in Normalize(up.models)
      && x !in Normalize(local)
      && (forall from :: from in up.mapping ==> up.mapping[from] != x)
      && (forall rule :: rule in Normalize(ignored) ==>
            if "regex:" <= rule then !up.matches(TrimSpace(rule[6..]), x) else rule != x)
  {
    PendingMembers(up, local, ignored);
    var rules := Normalize(ignored);
    IgnoredMeaning(rules, x, up.matches);
    assert x in up.mapping.Values <==> exists from :: from in up.mapping && up.mapping[from] == x;
  }

  lemma {:induction false} IgnoredMeaning(rules: seq<string>, x: string, matches: Matcher)
    ensures Ignored(rules, x, matches) <==>
      !(forall rule :: rule in rules ==> if "regex:" <= rule then !matches(TrimSpace(rule[6..]), x) else rule != x)
  {
    if Ignored(rules, x, matches) {
      var i :| 0 <= i < |rules| && Covers(rules[i], x, matches);
      assert rules[i] in rules;
    }
  }
}
