/** Choosing between providers that price the same model (controller/ratio_sync.go). Costs are compared up to
    an epsilon, a relation that is not transitive, and the choice is a left fold. */
module PricingCandidates {
  import opened Basics

  const EPSILON := 0.000000001

  predicate NearlyEqual(a: real, b: real) {
    if a > b then a - b < EPSILON else b - a < EPSILON
  }

  /** Go's `<` on strings. */
  predicate StringLess(a: string, b: string) {
    if b == [] then false
    else if a == [] then true
    else a[0] < b[0] || (a[0] == b[0] && StringLess(a[1..], b[1..]))
  }

  lemma {:induction false} StringLessTotal(a: string, b: string)
    ensures StringLess(a, b) || a == b || StringLess(b, a)
    ensures !(StringLess(a, b) && StringLess(b, a)) && (a == b ==> !StringLess(a, b))
  {
    if a != [] && b != [] {
      StringLessTotal(a[1..], b[1..]);
      if a[0] == b[0] && a[1..] == b[1..] {
        assert a == [a[0]] + a[1..] && b == [b[0]] + b[1..];
      }
    }
  }

  lemma {:induction false} StringLessTransitive(a: string, b: string, c: string)
    requires StringLess(a, b) && StringLess(b, c)
    ensures StringLess(a, c)
  {
    if a != [] && b[0] == a[0] == c[0] {
      StringLessTransitive(a[1..], b[1..], c[1..]);
    }
  }

  // ---------------------------------------------------------------------------------------------------
  // Candidates
  // ---------------------------------------------------------------------------------------------------

  /** modelsDevCost: prices in USD per million tokens, each possibly absent. */
  datatype Cost = Cost(input: Option<real>, output: Option<real>, cacheRead: Option<real>)

  datatype Candidate = Candidate(provider: string, input: real, output: Option<real>, cacheRead: Option<real>)

  function BuildCandidate(provider: string, cost: Cost): (r: Option<Candidate>)
    ensures r.Some? ==> r.value.provider == provider && cost.input == Some(r.value.input) && r.value.input >= 0.0
    ensures r.Some? ==> r.value.output == cost.output && (cost.output.Some? ==> cost.output.value >= 0.0)
    ensures r.Some? ==> (r.value.cacheRead.Some? <==> cost.cacheRead.Some? && cost.cacheRead.value >= 0.0)
    ensures r.Some? && r.value.cacheRead.Some? ==> r.value.cacheRead == cost.cacheRead
    ensures r.Some? <==>
      && cost.input.Some? && cost.input.value >= 0.0
      && (cost.output.Some? ==> cost.output.value >= 0.0 && (cost.input.value == 0.0 ==> cost.output.value == 0.0))
  {
    if cost.input.None? || cost.input.value < 0.0 then None
    else if cost.output.Some? && cost.output.value < 0.0 then None
    else if cost.input.value == 0.0 && cost.output.Some? && cost.output.value > 0.0 then None
    else
      var cacheRead := if cost.cacheRead.Some? && cost.cacheRead.value >= 0.0 then cost.cacheRead else None;
      Some(Candidate(provider, cost.input.value, cost.output, cacheRead))
  }

  predicate ShouldReplace(current: Candidate, next: Candidate) {
    var currentNonZero := current.input > 0.0;
    var nextNonZero := next.input > 0.0;
    if currentNonZero != nextNonZero then nextNonZero
    else if nextNonZero && !NearlyEqual(next.input, current.input) then next.input < current.input
    else StringLess(next.provider, current.provider)
  }

  /** The candidate kept after looking at all of them in order. */
  function Select(cands: seq<Candidate>): Option<Candidate> {
    if cands == [] then None
    else
      var current := Select(cands[..|cands| - 1]);
      var next := cands[|cands| - 1];
      if current.None? || ShouldReplace(current.value, next) then Some(next) else current
  }

  predicate NonNegative(cands: seq<Candidate>) {
    forall i :: 0 <= i < |cands| ==> cands[i].input >= 0.0
  }

  /** Providers in the order sort.Strings puts them, each once. */
  predicate Ascending(cands: seq<Candidate>) {
    forall i, j :: 0 <= i < j < |cands| ==> StringLess(cands[i].provider, cands[j].provider)
  }

  // ---------------------------------------------------------------------------------------------------
  // Sorted providers: no drift
  // ---------------------------------------------------------------------------------------------------

  /** r is cheapest up to one epsilon, prefers priced to free, and is the first provider when all are free. */
  predicate IsCheapest(cands: seq<Candidate>, r: Candidate) {
    && r in cands
    && (forall c :: c in cands && c.input > 0.0 ==> r.input > 0.0 && r.input < c.input + EPSILON)
    && (r.input == 0.0 ==> r == cands[0])
  }

  lemma {:induction false} CheapestExtends(before: seq<Candidate>, current: Candidate, next: Candidate)
    requires IsCheapest(before, current) && before != [] && StringLess(current.provider, next.provider)
    requires NonNegative(before) && current.input >= 0.0 && next.input >= 0.0
    ensures IsCheapest(before + [next], if ShouldReplace(current, next) then next else current)
  {
    StringLessTotal(current.provider, next.provider);
    var r := if ShouldReplace(current, next) then next else current;
    assert (before + [next])[0] == before[0];
    assert next in before + [next] && current in before + [next];
    forall c | c in before + [next] && c.input > 0.0 ensures r.input > 0.0 && r.input < c.input + EPSILON {
      assert c in before || c == next;
    }
  }

  /** Over providers in sorted order the fold never drifts: however many near-equal steps there are, the
      result is less than one epsilon above the true non-zero minimum. */
  lemma {:induction false} SelectIsCheapest(cands: seq<Candidate>)
    requires cands != [] && NonNegative(cands) && Ascending(cands)
    ensures Select(cands).Some? && IsCheapest(cands, Select(cands).value)
  {
    var before := cands[..|cands| - 1];
    var next := cands[|cands| - 1];
    assert cands == before + [next];
    SelectLast(before, next);
    if before != [] {
      SelectIsCheapest(before);
      var current := Select(before).value;
      var k :| 0 <= k < |before| && before[k] == current;
      assert cands[k] == current;
      CheapestExtends(before, current, next);
    }
  }

  /** The order matters: with providers in descending order the fold drifts past the minimum by more than an
      epsilon, three near-equal steps being enough. */
  lemma {:induction false} UnsortedFoldDrifts()
    ensures
      var a := Candidate("c", 1.0, None, None);
      var b := Candidate("b", 1.0 + 0.6 * EPSILON, None, None);
      var c := Candidate("a", 1.0 + 1.2 * EPSILON, None, None);
      Select([a, b, c]) == Some(c) && c.input > a.input + EPSILON
  {
    var a := Candidate("c", 1.0, None, None);
    var b := Candidate("b", 1.0 + 0.6 * EPSILON, None, None);
    var c := Candidate("a", 1.0 + 1.2 * EPSILON, None, None);
    assert Select([a]) == Some(a) by {
      assert [a][..0] == [];
    }
    assert [a, b][..1] == [a];
    assert [a, b, c][..2] == [a, b];
    assert StringLess("b", "c") && StringLess("a", "b");
  }

  // ---------------------------------------------------------------------------------------------------
  // Separated costs: any order
  // ---------------------------------------------------------------------------------------------------

  /** Non-zero costs are equal or at least an epsilon apart. */
  predicate Separated(a: Candidate, b: Candidate) {
    a.input > 0.0 && b.input > 0.0 ==> a.input == b.input || !NearlyEqual(a.input, b.input)
  }

  predicate AllSeparated(cands: seq<Candidate>) {
    forall i, j :: 0 <= i < |cands| && 0 <= j < |cands| ==> Separated(cands[i], cands[j])
  }

  predicate DistinctProviders(cands: seq<Candidate>) {
    forall i, j :: 0 <= i < j < |cands| ==> cands[i].provider != cands[j].provider
  }

  /** Priced before free, then cheaper, then the lexicographically first provider. */
  predicate Better(a: Candidate, b: Candidate) {
    if (a.input > 0.0) != (b.input > 0.0) then a.input > 0.0
    else if a.input > 0.0 && a.input != b.input then a.input < b.input
    else StringLess(a.provider, b.provider)
  }

  predicate IsBest(cands: seq<Candidate>, r: Candidate) {
    r in cands && forall c :: c in cands && c != r ==> Better(r, c)
  }

  lemma {:induction false} BetterTransitive(a: Candidate, b: Candidate, c: Candidate)
    requires Better(a, b) && Better(b, c)
    ensures Better(a, c)
  {
    if StringLess(a.provider, b.provider) && StringLess(b.provider, c.provider) {
      StringLessTransitive(a.provider, b.provider, c.provider);
    }
  }

  /** For separated costs the replacement rule is the order. */
  lemma {:induction false} ReplacesBetter(current: Candidate, next: Candidate)
    requires Separated(next, current) && current.provider != next.provider
    ensures ShouldReplace(current, next) <==> Better(next, current)
    ensures Better(next, current) || Better(current, next)
  {
    StringLessTotal(current.provider, next.provider);
  }

  lemma {:induction false} BestExtends(before: seq<Candidate>, current: Candidate, next: Candidate)
    requires IsBest(before, current) && (Better(next, current) || Better(current, next))
    ensures IsBest(before + [next], if Better(next, current) then next else current)
  {
    if Better(next, current) {
      forall c | c in before + [next] && c != next ensures Better(next, c) {
        if c != current {
          assert c in before;
          BetterTransitive(next, current, c);
        }
      }
    } else {
      forall c | c in before + [next] && c != current ensures Better(current, c) {
        assert c in before || c == next;
      }
    }
  }

  lemma {:induction false} BestStep(before: seq<Candidate>, current: Candidate, next: Candidate)
    requires IsBest(before, current) && Separated(next, current) && current.provider != next.provider
    ensures IsBest(before + [next], if ShouldReplace(current, next) then next else current)
  {
    ReplacesBetter(current, next);
    BestExtends(before, current, next);
  }

  lemma {:induction false} SelectLast(before: seq<Candidate>, next: Candidate)
    ensures var current := Select(before);
      Select(before + [next]) == if current.None? || ShouldReplace(current.value, next) then Some(next) else current
  {
    assert (before + [next])[..|before|] == before;
  }

  lemma {:induction false} SeparatedParts(before: seq<Candidate>, next: Candidate)
    requires AllSeparated(before + [next]) && DistinctProviders(before + [next])
    ensures AllSeparated(before) && DistinctProviders(before)
    ensures forall c :: c in before ==> Separated(next, c) && c.provider != next.provider
  {
    var cands, n := before + [next], |before|;
    assert forall i :: 0 <= i < n ==> before[i] == cands[i];
    forall c | c in before ensures Separated(next, c) && c.provider != next.provider {
      var k :| 0 <= k < n && before[k] == c;
      assert Separated(cands[n], cands[k]) && cands[k].provider != cands[n].provider;
    }
  }

  lemma {:induction false} SelectBestLast(before: seq<Candidate>, next: Candidate)
    requires AllSeparated(before + [next]) && DistinctProviders(before + [next])
    requires before != [] ==> Select(before).Some? && IsBest(before, Select(before).value)
    ensures Select(before + [next]).Some? && IsBest(before + [next], Select(before + [next]).value)
  {
    SelectLast(before, next);
    if before != [] {
      var current := Select(before).value;
      assert Separated(next, current) && current.provider != next.provider by {
        SeparatedParts(before, next);
      }
      BestStep(before, current, next);
    }
  }

  lemma {:induction false} SelectIsBest(cands: seq<Candidate>)
    requires cands != [] && AllSeparated(cands) && DistinctProviders(cands)
    ensures Select(cands).Some? && IsBest(cands, Select(cands).value)
  {
    var before, next := cands[..|cands| - 1], cands[|cands| - 1];
    assert cands == before + [next];
    if before != [] {
      SeparatedParts(before, next);
      SelectIsBest(before);
    }
    SelectBestLast(before, next);
  }

  lemma {:induction false} BestIsUnique(s: seq<Candidate>, t: seq<Candidate>, a: Candidate, b: Candidate)
    requires (forall c :: c in s <==> c in t) && IsBest(s, a) && IsBest(t, b)
    ensures a == b
  {
    if a != b {
      assert Better(a, b) && Better(b, a);
      StringLessTotal(a.provider, b.provider);
      assert false;
    }
  }

  /** With separated costs the fold gives the same cheapest, lexicographically first provider in any order. */
  lemma {:induction false} OrderDoesNotMatter(s: seq<Candidate>, t: seq<Candidate>)
    requires AllSeparated(s) && DistinctProviders(s) && AllSeparated(t) && DistinctProviders(t)
    requires forall c :: c in s <==> c in t
    ensures Select(s) == Select(t)
    ensures s != [] ==> Select(s).Some? && IsBest(s, Select(s).value)
  {
    assert t != [] ==> t[0] in s;
    if s != [] {
      assert s[0] in t;
      SelectIsBest(s);
      SelectIsBest(t);
      BestIsUnique(s, t, Select(s).value, Select(t).value);
    }
  }
}
