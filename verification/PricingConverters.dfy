/** The two price converters of controller/ratio_sync.go: OpenRouter quotes USD per token, models.dev USD per
    million tokens; both become ratios rounded to six decimals. Prices are exact reals. */
module PricingConverters {
  import opened Basics
  import opened PricingCandidates

  const USD := 500.0

  /** math.Round: half away from zero. */
  function Round(x: real): int {
    if x >= 0.0 then (x + 0.5).Floor else -((-x + 0.5).Floor)
  }

  function RoundRatio(value: real): real {
    Round(value * 1000000.0) as real / 1000000.0
  }

  /** What a converter says about one model. */
  datatype Ratio = Ratio(model: real, completion: Option<real>, cache: Option<real>)

  /** The three maps a converter returns. */
  datatype Ratios = Ratios(model: map<string, real>, completion: map<string, real>, cache: map<string, real>)

  const NO_RATIOS := Ratios(map[], map[], map[])

  /** Writing one model's ratios; what a model does not have is left as it was. */
  function Put(r: Ratios, id: string, x: Ratio): Ratios {
    Ratios(r.model[id := x.model],
           if x.completion.Some? then r.completion[id := x.completion.value] else r.completion,
           if x.cache.Some? then r.cache[id := x.cache.value] else r.cache)
  }

  function Lookup(r: Ratios, id: string): Option<Ratio> {
    if id !in r.model then None
    else Some(Ratio(r.model[id],
                    if id in r.completion then Some(r.completion[id]) else None,
                    if id in r.cache then Some(r.cache[id]) else None))
  }

  /** Every completion and cache ratio belongs to a model that has a model ratio. */
  predicate Coherent(r: Ratios) {
    r.completion.Keys <= r.model.Keys && r.cache.Keys <= r.model.Keys
  }

  // ---------------------------------------------------------------------------------------------------
  // OpenRouter
  // ---------------------------------------------------------------------------------------------------

  /** An entry with its prices parsed; None where the text is no number. */
  datatype Entry = Entry(id: string, prompt: Option<real>, completion: Option<real>, cacheRead: Option<real>)

  function OrZero(x: Option<real>): real {
    if x.Some? then x.value else 0.0
  }

  function OpenRouterRatio(e: Entry): Option<Ratio> {
    var prompt, completion := OrZero(e.prompt), OrZero(e.completion);
    if e.prompt.None? && e.completion.None? then None
    else if prompt < 0.0 || completion < 0.0 then None
    else if prompt == 0.0 && completion == 0.0 then Some(Ratio(0.0, None, None))
    else if prompt <= 0.0 then None
    else Some(Ratio(
      RoundRatio(prompt * 1000.0 * USD),
      Some(RoundRatio(completion / prompt)),
      if e.cacheRead.Some? && e.cacheRead.value >= 0.0 then Some(RoundRatio(e.cacheRead.value / prompt)) else None))
  }

  function OpenRouterRatios(data: seq<Entry>): Ratios {
    if data == [] then NO_RATIOS
    else
      var before := OpenRouterRatios(data[..|data| - 1]);
      var x := OpenRouterRatio(data[|data| - 1]);
      if x.Some? then Put(before, data[|data| - 1].id, x.value) else before
  }

  /** The conversion loop. */
  method ConvertOpenRouter(data: seq<Entry>) returns (r: Ratios)
    ensures r == OpenRouterRatios(data)
  {
    var modelRatio, completionRatio, cacheRatio := map[], map[], map[];
    for i := 0 to |data|
      invariant Ratios(modelRatio, completionRatio, cacheRatio) == OpenRouterRatios(data[..i])
    {
      var m := data[i];
      assert data[..i + 1][..i] == data[..i];
      var promptPrice, completionPrice := OrZero(m.prompt), OrZero(m.completion);
      if m.prompt.None? && m.completion.None? {
        continue;
      }
      if promptPrice < 0.0 || completionPrice < 0.0 {
        continue;
      }
      if promptPrice == 0.0 && completionPrice == 0.0 {
        modelRatio := modelRatio[m.id := 0.0];
        continue;
      }
      if promptPrice <= 0.0 {
        continue;
      }
      modelRatio := modelRatio[m.id := RoundRatio(promptPrice * 1000.0 * USD)];
      completionRatio := completionRatio[m.id := RoundRatio(completionPrice / promptPrice)];
      if m.cacheRead.Some? && m.cacheRead.value >= 0.0 {
        cacheRatio := cacheRatio[m.id := RoundRatio(m.cacheRead.value / promptPrice)];
      }
    }
    assert data[..|data|] == data;
    r := Ratios(modelRatio, completionRatio, cacheRatio);
  }

  /** Which entries are skipped: those without a readable price, those with a negative one (-1 stands for a price that
      varies), and those that charge for the completion alone. A free model has a model ratio of 0 and no other. */
  lemma {:induction false} OpenRouterSkips(e: Entry)
    ensures OpenRouterRatio(e).None? <==>
      || (e.prompt.None? && e.completion.None?)
      || (e.prompt.Some? && e.prompt.value < 0.0) || (e.completion.Some? && e.completion.value < 0.0)
      || ((e.prompt.None? || e.prompt.value == 0.0) && e.completion.Some? && e.completion.value > 0.0)
    ensures OpenRouterRatio(e).Some? && !(e.prompt.Some? && e.prompt.value > 0.0) ==>
      OpenRouterRatio(e) == Some(Ratio(0.0, None, None))
  {}

  predicate DistinctIds(data: seq<Entry>) {
    forall i, j :: 0 <= i < j < |data| ==> data[i].id != data[j].id
  }

  lemma {:induction false} PutLookup(r: Ratios, id: string, x: Ratio)
    requires Coherent(r) && id !in r.model
    ensures Coherent(Put(r, id, x)) && Lookup(Put(r, id, x), id) == Some(x)
    ensures forall other :: other != id ==> Lookup(Put(r, id, x), other) == Lookup(r, other)
  {}

  /** With distinct ids the result speaks, for every entry, of that entry alone, and of nothing else. */
  lemma {:induction false} OpenRouterMeaning(data: seq<Entry>)
    requires DistinctIds(data)
    ensures Coherent(OpenRouterRatios(data))
    ensures forall i :: 0 <= i < |data| ==> Lookup(OpenRouterRatios(data), data[i].id) == OpenRouterRatio(data[i])
    ensures forall id :: id in OpenRouterRatios(data).model ==> exists i :: 0 <= i < |data| && data[i].id == id
  {
    if data != [] {
      var n := |data| - 1;
      var before, last := data[..n], data[n];
      OpenRouterMeaning(before);
      var r, r', x := OpenRouterRatios(before), OpenRouterRatios(data), OpenRouterRatio(last);
      assert r' == if x.Some? then Put(r, last.id, x.value) else r;
      assert last.id !in r.model;
      assert Coherent(r') && Lookup(r', last.id) == x &&
             forall other :: other != last.id ==> Lookup(r', other) == Lookup(r, other) by {
        if x.Some? {
          PutLookup(r, last.id, x.value);
        }
      }
      forall i | 0 <= i < n ensures Lookup(r', data[i].id) == OpenRouterRatio(data[i]) {
        assert before[i] == data[i];
      }
      forall id | id in r'.model ensures exists i :: 0 <= i < |data| && data[i].id == id {
        if id != last.id {
          assert Lookup(r', id) == Lookup(r, id);
          var i :| 0 <= i < |before| && before[i].id == id;
          assert data[i].id == id;
        }
      }
    }
  }

  // ---------------------------------------------------------------------------------------------------
  // models.dev
  // ---------------------------------------------------------------------------------------------------

  function CandidateRatio(c: Candidate): Ratio {
    if c.input == 0.0 then Ratio(0.0, None, None)
    else Ratio(
      RoundRatio(c.input * USD / 1000.0),
      if c.output.Some? then Some(RoundRatio(c.output.value / c.input)) else None,
      if c.cacheRead.Some? then Some(RoundRatio(c.cacheRead.value / c.input)) else None)
  }

  type Catalogue = map<string, map<string, Cost>>

  /** The candidates of one model, in the order of the providers. */
  function Candidates(data: Catalogue, providers: seq<string>, id: string): seq<Candidate> {
    if providers == [] then []
    else
      var p := providers[|providers| - 1];
      var before := Candidates(data, providers[..|providers| - 1], id);
      var offer := Offer(data, p, id);
      if offer.Some? then before + [offer.value] else before
  }

  predicate SortedStrings(s: seq<string>) {
    forall i, j :: 0 <= i < j < |s| ==> StringLess(s[i], s[j])
  }

  lemma {:induction false} CandidatesMeaning(data: Catalogue, providers: seq<string>, id: string)
    requires SortedStrings(providers)
    ensures var cs := Candidates(data, providers, id);
      && NonNegative(cs) && Ascending(cs)
      && (forall i :: 0 <= i < |cs| ==> cs[i].provider in providers)
  {
    if providers != [] {
      var n := |providers| - 1;
      CandidatesMeaning(data, providers[..n], id);
      var before, cs := Candidates(data, providers[..n], id), Candidates(data, providers, id);
      forall i | 0 <= i < |before| ensures StringLess(before[i].provider, providers[n]) {
        var k :| 0 <= k < n && providers[k] == before[i].provider;
      }
    }
  }

  /** The candidates are the usable offers of the providers, and all of them. */
  lemma {:induction false} CandidatesMembers(data: Catalogue, providers: seq<string>, id: string, c: Candidate)
    ensures c in Candidates(data, providers, id) <==>
      c.provider in providers && Offer(data, c.provider, id) == Some(c)
  {
    if providers != [] {
      var n := |providers| - 1;
      assert providers == providers[..n] + [providers[n]];
      CandidatesMembers(data, providers[..n], id, c);
    }
  }

  /** The candidate chosen for every model over the given providers. */
  ghost predicate IsSelection(data: Catalogue, providers: seq<string>, selected: map<string, Candidate>) {
    forall id :: Select(Candidates(data, providers, id)) == Find(selected, id)
  }

  method InsertSorted(s: seq<string>, x: string) returns (r: seq<string>)
    requires SortedStrings(s) && x !in s
    ensures SortedStrings(r) && forall y :: y in r <==> y == x || y in s
  {
    var i := 0;
    while i < |s| && StringLess(s[i], x)
      invariant i <= |s| && forall j :: 0 <= j < i ==> StringLess(s[j], x)
    {
      i := i + 1;
    }
    r := s[..i] + [x] + s[i..];
    assert s == s[..i] + s[i..];
    forall j | i <= j < |s| ensures StringLess(x, s[j]) {
      StringLessTotal(s[i], x);
      assert s[i] in s;
      if j > i {
        StringLessTransitive(x, s[i], s[j]);
      }
    }
  }

  /** The keys of a map in sort.Strings order. */
  method SortedKeys(keys: set<string>) returns (r: seq<string>)
    ensures SortedStrings(r) && forall y :: y in r <==> y in keys
  {
    r := [];
    var todo := keys;
    while todo != {}
      invariant SortedStrings(r) && todo <= keys && forall y :: y in r <==> y in keys - todo
      decreases todo
    {
      var x :| x in todo;
      r := InsertSorted(r, x);
      todo := todo - {x};
    }
  }

  function Offer(data: Catalogue, p: string, id: string): Option<Candidate> {
    if p in data && id in data[p] then BuildCandidate(p, data[p][id]) else None
  }

  /** One more provider replaces the chosen candidate or leaves it. */
  lemma {:induction false} OneMoreProvider(data: Catalogue, providers: seq<string>, p: string, id: string)
    ensures var current, offer := Select(Candidates(data, providers, id)), Offer(data, p, id);
      Select(Candidates(data, providers + [p], id)) ==
        if offer.Some? && (current.None? || ShouldReplace(current.value, offer.value)) then offer else current
  {
    assert (providers + [p])[..|providers|] == providers;
    var before, offer := Candidates(data, providers, id), Offer(data, p, id);
    if offer.Some? {
      assert (before + [offer.value])[..|before|] == before;
    }
  }

  /** The inner loop: one provider's models are considered one by one. */
  method ConsiderProvider(data: Catalogue, providers: seq<string>, p: string, selected: map<string, Candidate>)
    returns (next: map<string, Candidate>)
    requires p in data && IsSelection(data, providers, selected)
    ensures IsSelection(data, providers + [p], next)
  {
    next := selected;
    var names := SortedKeys(data[p].Keys);
    for j := 0 to |names|
      invariant forall id :: id !in names[..j] ==> Find(next, id) == Find(selected, id)
      invariant forall id :: id in names[..j] ==> Find(next, id) == Select(Candidates(data, providers + [p], id))
    {
      var name := names[j];
      assert name in names;
      assert name !in names[..j] by {
        forall i | 0 <= i < j ensures names[i] != name {
          StringLessTotal(names[i], name);
        }
      }
      var candidate := BuildCandidate(p, data[p][name]);
      ghost var before := next;
      assert Find(next, name) == Find(selected, name) == Select(Candidates(data, providers, name));
      if candidate.Some? && (name !in next || ShouldReplace(next[name], candidate.value)) {
        next := next[name := candidate.value];
      }
      assert Find(next, name) == Select(Candidates(data, providers + [p], name)) by {
        OneMoreProvider(data, providers, p, name);
      }
      assert forall id :: id != name ==> Find(next, id) == Find(before, id);
      assert names[..j + 1] == names[..j] + [name];
    }
    assert names[..|names|] == names;
    forall id ensures Select(Candidates(data, providers + [p], id)) == Find(next, id) {
      OneMoreProvider(data, providers, p, id);
    }
  }

  /** The providers of a catalogue in sorted order. */
  predicate IsProviderOrder(data: Catalogue, providers: seq<string>) {
    SortedStrings(providers) && (forall p :: p in providers ==> p in data) && (forall p :: p in data ==> p in providers)
  }

  function ToRatio(c: Option<Candidate>): Option<Ratio> {
    if c.Some? then Some(CandidateRatio(c.value)) else None
  }

  /** r holds, for every model, the ratios of the candidate chosen over the providers in sorted order. */
  ghost predicate IsResult(data: Catalogue, providers: seq<string>, r: Ratios) {
    Coherent(r) && forall id :: Lookup(r, id) == ToRatio(Select(Candidates(data, providers, id)))
  }

  /** The loop that turns the chosen candidates into the three maps. */
  method Project(selected: map<string, Candidate>) returns (r: Ratios)
    ensures Coherent(r)
    ensures forall id :: Lookup(r, id) == if id in selected then Some(CandidateRatio(selected[id])) else None
  {
    r := NO_RATIOS;
    var todo := selected.Keys;
    while todo != {}
      invariant todo <= selected.Keys && Coherent(r)
      invariant forall id ::
        Lookup(r, id) == if id in selected && id !in todo then Some(CandidateRatio(selected[id])) else None
      decreases todo
    {
      var name :| name in todo;
      assert name !in r.model by {
        assert Lookup(r, name) == None;
      }
      var candidate := selected[name];
      if candidate.input == 0.0 {
        r := r.(model := r.model[name := 0.0]);
      } else {
        r := r.(model := r.model[name := RoundRatio(candidate.input * USD / 1000.0)]);
        if candidate.output.Some? {
          r := r.(completion := r.completion[name := RoundRatio(candidate.output.value / candidate.input)]);
        }
        if candidate.cacheRead.Some? {
          r := r.(cache := r.cache[name := RoundRatio(candidate.cacheRead.value / candidate.input)]);
        }
      }
      todo := todo - {name};
    }
  }

  /** None stands for the two errors: an empty catalogue, and one without a usable price. */
  method ConvertModelsDev(data: Catalogue) returns (r: Option<Ratios>)
    ensures r.Some? ==> r.value != NO_RATIOS && exists ps :: IsProviderOrder(data, ps) && IsResult(data, ps, r.value)
    ensures r.None? ==> exists ps :: IsProviderOrder(data, ps) && IsResult(data, ps, NO_RATIOS)
  {
    var providers := SortedKeys(data.Keys);
    var selected: map<string, Candidate> := map[];
    for i := 0 to |providers|
      invariant IsSelection(data, providers[..i], selected)
    {
      assert providers[i] in providers;
      selected := ConsiderProvider(data, providers[..i], providers[i], selected);
      assert providers[..i + 1] == providers[..i] + [providers[i]];
    }
    assert providers[..|providers|] == providers;
    assert IsProviderOrder(data, providers);
    if selected == map[] {
      assert IsResult(data, providers, NO_RATIOS);
      return None;
    }
    var result := Project(selected);
    assert IsResult(data, providers, result);
    var some :| some in selected;
    assert Lookup(result, some) != None;
    r := Some(result);
  }

  /** The result is decided by the catalogue alone: there is one sorted order of its providers. */
  lemma {:induction false} ProviderOrderUnique(data: Catalogue, a: seq<string>, b: seq<string>)
    requires IsProviderOrder(data, a) && IsProviderOrder(data, b)
    ensures a == b
  {
    SortedUnique(a, b);
  }

  lemma {:induction false} SortedUnique(a: seq<string>, b: seq<string>)
    requires SortedStrings(a) && SortedStrings(b) && (forall x :: x in a <==> x in b)
    ensures a == b
  {
    assert b != [] ==> b[0] in a;
    if a != [] {
      assert a[0] in b;
      var i :| 0 <= i < |b| && b[i] == a[0];
      var j :| 0 <= j < |a| && a[j] == b[0];
      StringLessTotal(a[0], b[0]);
      assert a[0] == b[0];
      forall x ensures x in a[1..] <==> x in b[1..] {
        HeadIsLeast(a, x);
        HeadIsLeast(b, x);
      }
      SortedUnique(a[1..], b[1..]);
      assert a == [a[0]] + a[1..] && b == [b[0]] + b[1..];
    }
  }

  lemma {:induction false} HeadIsLeast(a: seq<string>, x: string)
    requires SortedStrings(a) && a != []
    ensures x in a[1..] <==> x in a && x != a[0]
  {
    assert a == [a[0]] + a[1..];
    StringLessTotal(a[0], a[0]);
    if x in a[1..] {
      var i :| 0 <= i < |a[1..]| && a[1..][i] == x;
      assert StringLess(a[0], a[i + 1]);
    }
  }

  /** Each reported model price is that of a provider of the model, cheapest up to one epsilon. */
  lemma {:induction false} ModelsDevPicksCheapest(data: Catalogue, providers: seq<string>, id: string)
    requires IsProviderOrder(data, providers) && Candidates(data, providers, id) != []
    ensures Select(Candidates(data, providers, id)).Some?
    ensures IsCheapest(Candidates(data, providers, id), Select(Candidates(data, providers, id)).value)
  {
    CandidatesMeaning(data, providers, id);
    SelectIsCheapest(Candidates(data, providers, id));
  }

  // ---------------------------------------------------------------------------------------------------
  // The two converters agree
  // ---------------------------------------------------------------------------------------------------

  const MILLION := 1000000.0

  function Scaled(x: Option<real>): Option<real> {
    if x.Some? then Some(x.value * MILLION) else None
  }

  /** The same prices as models.dev would quote them. */
  function PerMillion(e: Entry): Cost {
    Cost(Scaled(e.prompt), Scaled(e.completion), Scaled(e.cacheRead))
  }

  lemma {:induction false} ScaleQuotient(x: real, y: real)
    requires y > 0.0
    ensures (x * MILLION) / (y * MILLION) == x / y
  {
    var q := x / y;
    assert q * y == x;
    assert q * (y * MILLION) == (q * y) * MILLION;
  }

  /** One price list, quoted per token or per million tokens, gives one ratio: free models, zero prompt prices
      and negative sentinel prices included. */
  lemma {:induction false} SameRatio(provider: string, e: Entry)
    requires e.prompt.Some? && e.completion.Some?
    ensures OpenRouterRatio(e) == ToRatio(BuildCandidate(provider, PerMillion(e)))
  {
    var p := e.prompt.value;
    if p > 0.0 {
      ScaleQuotient(e.completion.value, p);
      if e.cacheRead.Some? {
        ScaleQuotient(e.cacheRead.value, p);
      }
      assert p * MILLION * USD / 1000.0 == p * 1000.0 * USD;
    }
  }

  lemma {:induction false} SameLookups(a: Ratios, b: Ratios)
    requires Coherent(a) && Coherent(b) && forall id :: Lookup(a, id) == Lookup(b, id)
    ensures a == b
  {
    forall id ensures id in a.model <==> id in b.model {
      assert Lookup(a, id) == Lookup(b, id);
    }
    forall id | id in a.model ensures
      && a.model[id] == b.model[id]
      && (id in a.completion <==> id in b.completion) && (id in a.completion ==> a.completion[id] == b.completion[id])
      && (id in a.cache <==> id in b.cache) && (id in a.cache ==> a.cache[id] == b.cache[id])
    {
      assert Lookup(a, id) == Lookup(b, id);
    }
    assert a.model == b.model && a.completion == b.completion && a.cache == b.cache;
  }

  /** quotes is the price list as one models.dev provider. */
  ghost predicate Quotes(data: seq<Entry>, quotes: map<string, Cost>) {
    && (forall i :: 0 <= i < |data| ==> data[i].id in quotes && quotes[data[i].id] == PerMillion(data[i]))
    && (forall id :: id in quotes ==> exists i :: 0 <= i < |data| && data[i].id == id)
  }

  lemma {:induction false} OneProvider(provider: string, quotes: map<string, Cost>, id: string)
    ensures Select(Candidates(map[provider := quotes], [provider], id)) ==
      if id in quotes then BuildCandidate(provider, quotes[id]) else None
  {
    assert [provider][..0] == [];
    assert Candidates(map[provider := quotes], [], id) == [];
    var cs := Candidates(map[provider := quotes], [provider], id);
    if cs != [] {
      assert cs[..0] == [];
    }
  }

  /** For the same prices the two converters return identical maps. */
  lemma {:induction false} ConvertersAgree(data: seq<Entry>, provider: string, quotes: map<string, Cost>, r: Ratios)
    requires DistinctIds(data) && forall i :: 0 <= i < |data| ==> data[i].prompt.Some? && data[i].completion.Some?
    requires Quotes(data, quotes) && IsResult(map[provider := quotes], [provider], r)
    ensures r == OpenRouterRatios(data)
  {
    OpenRouterMeaning(data);
    var o := OpenRouterRatios(data);
    forall id ensures Lookup(r, id) == Lookup(o, id) {
      OneProvider(provider, quotes, id);
      if id in quotes {
        var i :| 0 <= i < |data| && data[i].id == id;
        SameRatio(provider, data[i]);
      }
    }
    SameLookups(r, o);
  }

  // ---------------------------------------------------------------------------------------------------
  // Rounding
  // ---------------------------------------------------------------------------------------------------

  const HALF_UNIT := 0.0000005

  function Abs(x: real): real {
    if x < 0.0 then -x else x
  }

  /** A rounded ratio is at most half a millionth away from the exact one. */
  lemma {:induction false} RoundError(value: real)
    ensures Abs(RoundRatio(value) - value) <= HALF_UNIT
  {
    var x := value * 1000000.0;
    var n := Round(x) as real;
    assert Abs(n - x) <= 0.5;
    assert RoundRatio(value) * 1000000.0 == n;
  }

  lemma {:induction false} ProductNonNegative(x: real, y: real)
    requires x >= 0.0 && y >= 0.0
    ensures x * y >= 0.0
  {}

  lemma {:induction false} ProductMonotone(x: real, y: real, m: real, n: real)
    requires 0.0 <= x <= m && 0.0 <= y <= n
    ensures 0.0 <= x * y <= m * n
  {
    ProductNonNegative(x, y);
    ProductNonNegative(m - x, y);
    ProductNonNegative(m, n - y);
    assert m * n - x * y == (m - x) * y + m * (n - y);
  }

  lemma {:induction false} ProductBound(x: real, y: real, m: real, n: real)
    requires Abs(x) <= m && Abs(y) <= n
    ensures Abs(x * y) <= m * n
  {
    ProductMonotone(Abs(x), Abs(y), m, n);
    assert x * y == Abs(x) * Abs(y) || x * y == -(Abs(x) * Abs(y));
  }

  lemma {:induction false} Expand(a: real, b: real, dx: real, dy: real)
    ensures (a + dx) * (b + dy) - a * b == a * dy + b * dx + dx * dy
  {}

  lemma {:induction false} Triangle(u: real, v: real, w: real, bu: real, bv: real, bw: real)
    requires Abs(u) <= bu && Abs(v) <= bv && Abs(w) <= bw
    ensures Abs(u + v + w) <= bu + bv + bw
  {}

  /** The product of two approximations. */
  lemma {:induction false} ProductError(a: real, b: real, x: real, y: real)
    requires a >= 0.0 && b >= 0.0 && Abs(x - a) <= HALF_UNIT && Abs(y - b) <= HALF_UNIT
    ensures Abs(x * y - a * b) <= HALF_UNIT * (a + b) + HALF_UNIT * HALF_UNIT
  {
    var dx, dy := x - a, y - b;
    Expand(a, b, dx, dy);
    ProductBound(a, dy, a, HALF_UNIT);
    ProductBound(b, dx, b, HALF_UNIT);
    ProductBound(dx, dy, HALF_UNIT, HALF_UNIT);
    Triangle(a * dy, b * dx, dx * dy, a * HALF_UNIT, b * HALF_UNIT, HALF_UNIT * HALF_UNIT);
  }

  lemma {:induction false} QuotientProduct(prompt: real, completion: real)
    requires prompt > 0.0 && completion >= 0.0
    ensures completion / prompt >= 0.0
    ensures (prompt * 500000.0) * (completion / prompt) == completion * 500000.0
  {
    var b := completion / prompt;
    assert b * prompt == completion;
    assert (prompt * 500000.0) * b == (b * prompt) * 500000.0;
  }

  /** x and y approximate a and b to half a millionth, and their product approximates p. */
  predicate Approximate(x: real, y: real, a: real, b: real, p: real) {
    && Abs(x - a) <= HALF_UNIT && Abs(y - b) <= HALF_UNIT
    && Abs(x * y - p) <= HALF_UNIT * (a + b) + HALF_UNIT * HALF_UNIT
  }

  lemma {:induction false} RoundedProduct(a: real, b: real, p: real)
    requires a >= 0.0 && b >= 0.0 && a * b == p
    ensures Approximate(RoundRatio(a), RoundRatio(b), a, b, p)
  {
    RoundError(a);
    RoundError(b);
    ProductError(a, b, RoundRatio(a), RoundRatio(b));
  }

  /** What the OpenRouter converter emits for a priced model. */
  lemma {:induction false} EmittedForm(e: Entry)
    requires OpenRouterRatio(e).Some? && OrZero(e.prompt) > 0.0
    ensures OrZero(e.completion) >= 0.0
    ensures OpenRouterRatio(e).value.model == RoundRatio(OrZero(e.prompt) * 500000.0)
    ensures OpenRouterRatio(e).value.completion == Some(RoundRatio(OrZero(e.completion) / OrZero(e.prompt)))
  {
    assert OrZero(e.prompt) * 1000.0 * USD == OrZero(e.prompt) * 500000.0;
  }

  /** Against the exact prices both ratios are within half a millionth, and the completion price a user pays,
      the product of the two, is off by at most half a millionth of their sum and 2.5e-13. */
  lemma {:induction false} EmittedRatios(e: Entry)
    requires OpenRouterRatio(e).Some? && OrZero(e.prompt) > 0.0
    ensures OpenRouterRatio(e).value.completion.Some?
    ensures Approximate(OpenRouterRatio(e).value.model, OpenRouterRatio(e).value.completion.value,
      OrZero(e.prompt) * 500000.0, OrZero(e.completion) / OrZero(e.prompt), OrZero(e.completion) * 500000.0)
  {
    EmittedForm(e);
    QuotientProduct(OrZero(e.prompt), OrZero(e.completion));
    RoundedProduct(OrZero(e.prompt) * 500000.0, OrZero(e.completion) / OrZero(e.prompt),
      OrZero(e.completion) * 500000.0);
  }

  /** x approximates a to half a millionth, where there is one. */
  predicate Near(x: Option<real>, a: Option<real>) {
    x.Some? == a.Some? && (x.Some? ==> Abs(x.value - a.value) <= HALF_UNIT)
  }

  function Over(x: Option<real>, y: real): Option<real>
    requires y != 0.0
  {
    if x.Some? then Some(x.value / y) else None
  }

  lemma {:induction false} RoundedNear(x: Option<real>, y: real)
    requires y > 0.0
    ensures Near(if x.Some? then Some(RoundRatio(x.value / y)) else None, Over(x, y))
  {
    if x.Some? {
      RoundError(x.value / y);
    }
  }

  /** The cache ratio that the OpenRouter converter emits; a negative or unreadable cache price has none. */
  lemma {:induction false} EmittedCacheRatio(e: Entry)
    requires OpenRouterRatio(e).Some? && OrZero(e.prompt) > 0.0
    ensures var price := if e.cacheRead.Some? && e.cacheRead.value >= 0.0 then e.cacheRead else None;
      Near(OpenRouterRatio(e).value.cache, Over(price, OrZero(e.prompt)))
  {
    var price := if e.cacheRead.Some? && e.cacheRead.value >= 0.0 then e.cacheRead else None;
    RoundedNear(price, OrZero(e.prompt));
  }

  /** Everything the models.dev converter emits for a priced candidate is within half a millionth, and the product
      within the product bound; a free one gets a ratio of exactly zero and nothing else. */
  lemma {:induction false} EmittedByModelsDev(provider: string, cost: Cost)
    requires BuildCandidate(provider, cost).Some?
    ensures var c := BuildCandidate(provider, cost).value;
      if c.input == 0.0 then CandidateRatio(c) == Ratio(0.0, None, None) else NearPrices(c, CandidateRatio(c))
  {
    var c := BuildCandidate(provider, cost).value;
    if c.input != 0.0 {
      PricedCandidate(c);
    }
  }

  /** The ratios are those of the candidate's prices, each up to half a millionth, and so is their product up to the
      product bound. */
  predicate NearPrices(c: Candidate, r: Ratio)
    requires c.input != 0.0
  {
    var exact := c.input * USD / 1000.0;
    && Abs(r.model - exact) <= HALF_UNIT
    && Near(r.completion, Over(c.output, c.input)) && Near(r.cache, Over(c.cacheRead, c.input))
    && (c.output.Some? ==>
          Approximate(r.model, r.completion.value, exact, c.output.value / c.input, c.output.value * USD / 1000.0))
  }

  lemma {:induction false} PricedCandidate(c: Candidate)
    requires c.input > 0.0 && (c.output.Some? ==> c.output.value >= 0.0)
    ensures NearPrices(c, CandidateRatio(c))
  {
    var exact := c.input * USD / 1000.0;
    RoundError(exact);
    RoundedNear(c.output, c.input);
    RoundedNear(c.cacheRead, c.input);
    if c.output.Some? {
      HalfQuotient(c.input, c.output.value);
      RoundedProduct(exact, c.output.value / c.input, c.output.value * USD / 1000.0);
    }
  }

  lemma {:induction false} HalfQuotient(input: real, output: real)
    requires input > 0.0 && output >= 0.0
    ensures output / input >= 0.0 && input * USD / 1000.0 >= 0.0
    ensures (input * USD / 1000.0) * (output / input) == output * USD / 1000.0
  {
    var b := output / input;
    assert b * input == output;
    assert input * USD / 1000.0 == input * 0.5 && output * USD / 1000.0 == output * 0.5;
    assert (input * 0.5) * b == (b * input) * 0.5;
  }

  /** The price of model id by provider p is usable and not zero. */
  predicate Priced(data: Catalogue, p: string, id: string, input: real) {
    && p in data && id in data[p] && data[p][id].input == Some(input) && input > 0.0
    && (data[p][id].output.Some? ==> data[p][id].output.value >= 0.0)
  }

  lemma {:induction false} PricedIsCandidate(data: Catalogue, providers: seq<string>, id: string, p: string,
    input: real)
    requires IsProviderOrder(data, providers) && Priced(data, p, id, input)
    ensures exists c :: c in Candidates(data, providers, id) && c.input == input
  {
    var c := BuildCandidate(p, data[p][id]).value;
    CandidatesMembers(data, providers, id, c);
  }

  /** A model with a priced provider gets a model ratio that exceeds half of no provider's input price by more than the
      rounding and half an epsilon, and that is half of some provider's price up to the rounding. */
  lemma {:induction false} CheapestPriceReported(data: Catalogue, providers: seq<string>, r: Ratios, id: string,
    p: string, input: real)
    requires IsProviderOrder(data, providers) && IsResult(data, providers, r) && Priced(data, p, id, input)
    ensures id in r.model && r.model[id] <= input * 0.5 + 0.0000005 + 0.0000000005
    ensures exists q, price :: Priced(data, q, id, price) && Abs(r.model[id] - price * 0.5) <= 0.0000005
  {
    PricedIsCandidate(data, providers, id, p, input);
    ModelsDevPicksCheapest(data, providers, id);
    var cs := Candidates(data, providers, id);
    var best := Select(cs).value;
    assert best.input > 0.0 && best.input < input + EPSILON && best in cs;
    assert Lookup(r, id) == Some(CandidateRatio(best));
    assert best.input * USD / 1000.0 == best.input * 0.5;
    RoundError(best.input * 0.5);
    CandidatesMembers(data, providers, id, best);
    assert Priced(data, best.provider, id, best.input);
  }
}
