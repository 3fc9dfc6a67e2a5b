/** buildDifferences of controller/ratio_sync.go: comparing the local prices with those of several upstream
    channels, field by field, and pruning the channels that never differ. In the result nil means "this
    channel has no such value" and the text "same" means "as locally"; both can also be values. */
module PricingDiff {
  import opened PricingCandidates

  /** A JSON value; Null is Go's nil. */
  datatype Value = Null | Num(x: real) | Text(s: string) | Flag(b: bool)

  /** field -> model -> value */
  type Table = map<string, map<string, Value>>

  datatype Source = Source(name: string, data: Table)

  const SAME := Text("same")

  const FIELDS := ["model_ratio", "completion_ratio", "cache_ratio", "create_cache_ratio", "image_ratio",
                   "audio_ratio", "audio_completion_ratio", "model_price", "billing_mode", "billing_expr"]

  datatype Item = Item(current: Value, upstreams: map<string, Value>, confidence: map<string, bool>)

  type Differences = map<string, map<string, Item>>

  function At(t: Table, f: string, m: string): (r: Value) {
    if f in t && m in t[f] then t[f][m] else Null
  }

  predicate Has(t: Table, f: string, m: string) {
    f in t && m in t[f]
  }

  predicate ValuesEqual(a: Value, b: Value) {
    if a.Num? && b.Num? then NearlyEqual(a.x, b.x) else a == b
  }

  // ---------------------------------------------------------------------------------------------------
  // What is compared
  // ---------------------------------------------------------------------------------------------------

  /** What the table shows for one channel before pruning. */
  function Cell(local: Table, src: Source, m: string, f: string): Value {
    var l, u := At(local, f, m), At(src.data, f, m);
    if Has(src.data, f, m) then (if ValuesEqual(l, u) then SAME else u)
    else if l == Null then SAME else Null
  }

  predicate HasDifference(local: Table, src: Source, m: string, f: string) {
    Has(src.data, f, m) && !ValuesEqual(At(local, f, m), At(src.data, f, m)) &&
    (At(local, f, m) == Null ==> At(src.data, f, m) != SAME)
  }

  /** A difference that shows: the channel's value differs and is neither nil nor the marker. */
  predicate Visible(local: Table, src: Source, m: string, f: string) {
    Cell(local, src, m, f) != Null && Cell(local, src, m, f) != SAME
  }

  /** A difference that does not show: the channel's value differs from an existing local one, but is nil or
      the marker itself. */
  predicate Hidden(local: Table, src: Source, m: string, f: string) {
    && Has(src.data, f, m) && At(local, f, m) != Null && !ValuesEqual(At(local, f, m), At(src.data, f, m))
    && (At(src.data, f, m) == Null || At(src.data, f, m) == SAME)
  }

  /** Before pruning: is the pair listed? */
  predicate Included(local: Table, sources: seq<Source>, m: string, f: string) {
    if At(local, f, m) != Null
    then exists i :: 0 <= i < |sources| && HasDifference(local, sources[i], m, f)
    else exists i :: 0 <= i < |sources| && Has(sources[i].data, f, m)
  }

  /** The channel differs visibly somewhere. */
  ghost predicate Differs(local: Table, src: Source) {
    exists m, f :: f in FIELDS && Visible(local, src, m, f)
  }

  /** The channels by name; results are keyed by name, so of two channels with one name the later counts. */
  function ByName(sources: seq<Source>): map<string, Source> {
    if sources == [] then map[]
    else ByName(sources[..|sources| - 1])[sources[|sources| - 1].name := sources[|sources| - 1]]
  }

  /** The names of the channels that differ visibly somewhere. */
  ghost function Differing(local: Table, chans: map<string, Source>): set<string> {
    set n | n in chans && Differs(local, chans[n])
  }

  ghost predicate Reported(local: Table, sources: seq<Source>, m: string, f: string) {
    var chans := ByName(sources);
    Included(local, sources, m, f) && exists n :: n in Differing(local, chans) && Cell(local, chans[n], m, f) != SAME
  }

  /** A channel's prices of a model are not trusted when they are the placeholder pair 37.5 and 1. */
  predicate Trusted(src: Source, m: string) {
    var a, b := At(src.data, "model_ratio", m), At(src.data, "completion_ratio", m);
    !(a.Num? && b.Num? && NearlyEqual(a.x, 37.5) && NearlyEqual(b.x, 1.0))
  }

  function Row(local: Table, chans: map<string, Source>, m: string, f: string): map<string, Value> {
    map n | n in chans :: Cell(local, chans[n], m, f)
  }

  function Trusts(chans: map<string, Source>, m: string): map<string, bool> {
    map n | n in chans :: Trusted(chans[n], m)
  }

  function Keep<T>(row: map<string, T>, names: set<string>): map<string, T> {
    map n | n in row && n in names :: row[n]
  }

  /** The entry of a pair, for the channels in keep. */
  function Entry(local: Table, chans: map<string, Source>, keep: set<string>, m: string, f: string): Item {
    Item(At(local, f, m), Keep(Row(local, chans, m, f), keep), Keep(Trusts(chans, m), keep))
  }

  // ---------------------------------------------------------------------------------------------------
  // The loops
  // ---------------------------------------------------------------------------------------------------

  ghost predicate Mentions(t: Table, m: string) {
    exists f :: f in FIELDS && Has(t, f, m)
  }

  method ModelsOf(t: Table) returns (models: set<string>)
    ensures forall m :: m in models <==> Mentions(t, m)
  {
    models := {};
    for i := 0 to |FIELDS|
      invariant forall m :: m in models <==> exists j :: 0 <= j < i && Has(t, FIELDS[j], m)
    {
      var f := FIELDS[i];
      if f in t {
        models := models + t[f].Keys;
      }
    }
    forall m ensures m in models <==> Mentions(t, m) {
      if j :| 0 <= j < |FIELDS| && Has(t, FIELDS[j], m) {
        assert FIELDS[j] in FIELDS;
      }
    }
  }

  ghost predicate MentionedBy(sources: seq<Source>, m: string) {
    exists i :: 0 <= i < |sources| && Mentions(sources[i].data, m)
  }

  method AllModels(local: Table, sources: seq<Source>) returns (models: set<string>)
    ensures forall m :: m in models <==> Mentions(local, m) || MentionedBy(sources, m)
  {
    models := ModelsOf(local);
    for i := 0 to |sources|
      invariant forall m :: m in models <==>
        Mentions(local, m) || exists j :: 0 <= j < i && Mentions(sources[j].data, m)
    {
      var more := ModelsOf(sources[i].data);
      models := models + more;
    }
  }

  /** The confidence pass for one channel and one model. */
  method Confidence(src: Source, m: string) returns (trusted: bool)
    ensures trusted == Trusted(src, m)
  {
    trusted := true;
    var modelRatios := if "model_ratio" in src.data then src.data["model_ratio"] else map[];
    var completionRatios := if "completion_ratio" in src.data then src.data["completion_ratio"] else map[];
    if |modelRatios| > 0 && |completionRatios| > 0 {
      if m in modelRatios && m in completionRatios {
        var a, b := modelRatios[m], completionRatios[m];
        if a.Num? && b.Num? && NearlyEqual(a.x, 37.5) && NearlyEqual(b.x, 1.0) {
          trusted := false;
        }
      }
    } else {
      assert m !in modelRatios || m !in completionRatios;
    }
  }

  /** The body of the channel loop: one model, one field, one channel. */
  method Compare(localValue: Value, src: Source, m: string, f: string, ghost local: Table)
    returns (upstreamValue: Value, hasUpstreamValue: bool, hasDifference: bool)
    requires localValue == At(local, f, m)
    ensures upstreamValue == Cell(local, src, m, f)
    ensures hasUpstreamValue == Has(src.data, f, m)
    ensures hasDifference == HasDifference(local, src, m, f)
  {
    upstreamValue, hasUpstreamValue, hasDifference := Null, false, false;
    if Has(src.data, f, m) {
      upstreamValue := src.data[f][m];
      hasUpstreamValue := true;
      if localValue != Null && !ValuesEqual(localValue, upstreamValue) {
        hasDifference := true;
      } else if ValuesEqual(localValue, upstreamValue) {
        upstreamValue := SAME;
      }
    }
    if upstreamValue == Null && localValue == Null {
      upstreamValue := SAME;
    }
    if localValue == Null && upstreamValue != Null && upstreamValue != SAME {
      hasDifference := true;
    }
  }

  lemma {:induction false} RowExtends(local: Table, sources: seq<Source>, i: nat, m: string, f: string)
    requires i < |sources|
    ensures var before, after, src := ByName(sources[..i]), ByName(sources[..i + 1]), sources[i];
      && Row(local, after, m, f) == Row(local, before, m, f)[src.name := Cell(local, src, m, f)]
      && Trusts(after, m) == Trusts(before, m)[src.name := Trusted(src, m)]
  {
    assert sources[..i + 1][..i] == sources[..i];
    assert ByName(sources[..i + 1]) == ByName(sources[..i])[sources[i].name := sources[i]];
  }

  /** The channel loop for one model and one field. */
  method BuildItem(local: Table, sources: seq<Source>, m: string, f: string) returns (shouldInclude: bool, item: Item)
    ensures shouldInclude == Included(local, sources, m, f)
    ensures item == Item(At(local, f, m), Row(local, ByName(sources), m, f), Trusts(ByName(sources), m))
  {
    var localValue := At(local, f, m);
    var upstreamValues: map<string, Value> := map[];
    var confidenceValues: map<string, bool> := map[];
    var hasUpstreamValue, hasDifference := false, false;
    for i := 0 to |sources|
      invariant hasUpstreamValue == exists j :: 0 <= j < i && Has(sources[j].data, f, m)
      invariant hasDifference == exists j :: 0 <= j < i && HasDifference(local, sources[j], m, f)
      invariant upstreamValues == Row(local, ByName(sources[..i]), m, f)
      invariant confidenceValues == Trusts(ByName(sources[..i]), m)
    {
      var src := sources[i];
      var upstreamValue, supplied, differs := Compare(localValue, src, m, f, local);
      hasUpstreamValue := hasUpstreamValue || supplied;
      hasDifference := hasDifference || differs;
      var trusted := Confidence(src, m);
      RowExtends(local, sources, i, m, f);
      upstreamValues := upstreamValues[src.name := upstreamValue];
      confidenceValues := confidenceValues[src.name := trusted];
    }
    assert sources[..|sources|] == sources;
    shouldInclude := if localValue != Null then hasDifference else hasUpstreamValue;
    item := Item(localValue, upstreamValues, confidenceValues);
  }

  // ---------------------------------------------------------------------------------------------------
  // The table before pruning
  // ---------------------------------------------------------------------------------------------------

  function Full(local: Table, sources: seq<Source>, m: string, f: string): Item {
    Item(At(local, f, m), Row(local, ByName(sources), m, f), Trusts(ByName(sources), m))
  }

  predicate Lists(d: Differences, m: string, f: string) {
    m in d && f in d[m]
  }

  predicate NoEmptyModel(d: Differences) {
    forall m :: m in d ==> d[m] != map[]
  }

  ghost predicate FieldsOf(fields: map<string, Item>, local: Table, sources: seq<Source>, m: string) {
    && (forall f :: f in fields <==> f in FIELDS && Included(local, sources, m, f))
    && (forall f :: f in fields ==> fields[f] == Full(local, sources, m, f))
  }

  method BuildFields(local: Table, sources: seq<Source>, m: string) returns (fields: map<string, Item>)
    ensures FieldsOf(fields, local, sources, m)
  {
    fields := map[];
    for k := 0 to |FIELDS|
      invariant forall f :: f in fields <==> f in FIELDS[..k] && Included(local, sources, m, f)
      invariant forall f :: f in fields ==> fields[f] == Full(local, sources, m, f)
    {
      var shouldInclude, item := BuildItem(local, sources, m, FIELDS[k]);
      if shouldInclude {
        fields := fields[FIELDS[k] := item];
      }
    }
    assert FIELDS[..|FIELDS|] == FIELDS;
  }

  ghost predicate Unpruned(d: Differences, local: Table, sources: seq<Source>) {
    && (forall m, f :: Lists(d, m, f) <==> f in FIELDS && Included(local, sources, m, f))
    && (forall m, f :: Lists(d, m, f) ==> d[m][f] == Full(local, sources, m, f))
  }

  /** A model with something to report is one that some table mentions. */
  lemma {:induction false} IncludedIsMentioned(local: Table, sources: seq<Source>, m: string, f: string)
    requires f in FIELDS && Included(local, sources, m, f)
    ensures MentionedBy(sources, m)
  {
    var i :| 0 <= i < |sources| && Has(sources[i].data, f, m);
    assert Mentions(sources[i].data, m);
  }

  /** The table after some of the models, with an entry only where there is something to list. */
  ghost predicate TableOf(d: Differences, local: Table, sources: seq<Source>, models: set<string>) {
    && (forall m :: m in d ==> m in models && FieldsOf(d[m], local, sources, m))
    && (forall m :: m in models && m !in d ==> FieldsOf(map[], local, sources, m))
  }

  method BuildTable(local: Table, sources: seq<Source>) returns (d: Differences)
    ensures Unpruned(d, local, sources)
  {
    var models := AllModels(local, sources);
    d := AddModels(local, sources, models);
    WholeTable(d, local, sources, models);
  }

  method AddModels(local: Table, sources: seq<Source>, models: set<string>) returns (d: Differences)
    ensures TableOf(d, local, sources, models)
  {
    d := map[];
    ghost var done: set<string> := {};
    var rest := models;
    while rest != {}
      invariant done !! rest && done + rest == models
      invariant TableOf(d, local, sources, done)
      decreases |rest|
    {
      var m :| m in rest;
      d := AddModel(d, local, sources, done, m);
      done, rest := done + {m}, rest - {m};
    }
    assert done == models;
  }

  /** One model's fields enter the table. */
  method AddModel(d: Differences, local: Table, sources: seq<Source>, ghost done: set<string>, m: string)
    returns (r: Differences)
    requires TableOf(d, local, sources, done) && m !in done
    ensures TableOf(r, local, sources, done + {m})
  {
    var fields := BuildFields(local, sources, m);
    AddFields(d, local, sources, done, m, fields);
    r := if fields != map[] then d[m := fields] else d;
  }

  lemma {:induction false} AddFields(d: Differences, local: Table, sources: seq<Source>, models: set<string>,
    m: string, fields: map<string, Item>)
    requires TableOf(d, local, sources, models) && m !in models && FieldsOf(fields, local, sources, m)
    ensures TableOf(if fields != map[] then d[m := fields] else d, local, sources, models + {m})
  {
    var r := if fields != map[] then d[m := fields] else d;
    forall x | x in r ensures x in models + {m} && FieldsOf(r[x], local, sources, x) {
      if x != m {
        assert x in d && r[x] == d[x];
      }
    }
    forall x | x in models + {m} && x !in r ensures FieldsOf(map[], local, sources, x) {
      if x != m {
        assert x in models && x !in d;
      }
    }
  }

  lemma {:induction false} WholeTable(d: Differences, local: Table, sources: seq<Source>, models: set<string>)
    requires TableOf(d, local, sources, models)
    requires forall m :: MentionedBy(sources, m) ==> m in models
    ensures Unpruned(d, local, sources)
  {
    forall m, f ensures Lists(d, m, f) <==> f in FIELDS && Included(local, sources, m, f) {
      if f in FIELDS && Included(local, sources, m, f) {
        IncludedIsMentioned(local, sources, m, f);
      }
    }
  }

  // ---------------------------------------------------------------------------------------------------
  // Pruning
  // ---------------------------------------------------------------------------------------------------

  predicate Shows(row: map<string, Value>, n: string) {
    n in row && row[n] != Null && row[n] != SAME
  }

  ghost predicate ShowsIn(fields: map<string, Item>, n: string) {
    exists f :: f in fields && Shows(fields[f].upstreams, n)
  }

  method ShownNames(row: map<string, Value>) returns (names: set<string>)
    ensures forall n :: n in names <==> Shows(row, n)
  {
    names := {};
    var rest := row.Keys;
    while rest != {}
      invariant rest <= row.Keys
      invariant forall n :: n in names <==> n !in rest && Shows(row, n)
      decreases |rest|
    {
      var n :| n in rest;
      if row[n] != Null && row[n] != SAME {
        names := names + {n};
      }
      rest := rest - {n};
    }
  }

  method ShownInFields(fields: map<string, Item>) returns (names: set<string>)
    ensures forall n :: n in names <==> ShowsIn(fields, n)
  {
    names := {};
    var rest := fields.Keys;
    while rest != {}
      invariant rest <= fields.Keys
      invariant forall n :: n in names <==> exists f :: f in fields && f !in rest && Shows(fields[f].upstreams, n)
      decreases |rest|
    {
      var f :| f in rest;
      var more := ShownNames(fields[f].upstreams);
      names := names + more;
      rest := rest - {f};
    }
  }

  /** The set of channels that show a difference anywhere in the table. */
  method ChannelsWithDiff(d: Differences) returns (names: set<string>)
    ensures forall n :: n in names <==> exists m :: m in d && ShowsIn(d[m], n)
  {
    names := {};
    var rest := d.Keys;
    while rest != {}
      invariant rest <= d.Keys
      invariant forall n :: n in names <==> exists m :: m in d && m !in rest && ShowsIn(d[m], n)
      decreases |rest|
    {
      var m :| m in rest;
      var more := ShownInFields(d[m]);
      names := names + more;
      rest := rest - {m};
    }
  }

  function PrunedItem(item: Item, names: set<string>): Item {
    Item(item.current, Keep(item.upstreams, names), Keep(item.confidence, names))
  }

  predicate Survives(item: Item) {
    exists n :: n in item.upstreams && item.upstreams[n] != SAME
  }

  /** Deletes the channels outside names from the entry, and tells whether the entry is to stay. */
  method PruneItem(item: Item, names: set<string>) returns (r: Item, stays: bool)
    requires item.confidence.Keys == item.upstreams.Keys
    ensures r == PrunedItem(item, names)
    ensures stays == Survives(r)
  {
    var upstreams, confidence := item.upstreams, item.confidence;
    var rest := item.upstreams.Keys;
    while rest != {}
      invariant rest <= item.upstreams.Keys
      invariant upstreams == map n | n in item.upstreams && (n in rest || n in names) :: item.upstreams[n]
      invariant confidence == map n | n in item.confidence && (n in rest || n in names) :: item.confidence[n]
      decreases |rest|
    {
      var n :| n in rest;
      if n !in names {
        upstreams := upstreams - {n};
        confidence := confidence - {n};
      }
      rest := rest - {n};
    }
    r := Item(item.current, upstreams, confidence);
    assert upstreams == Keep(item.upstreams, names);
    assert confidence == Keep(item.confidence, names);
    stays := AnyNotSame(upstreams);
  }

  /** The loop with the early exit; an empty row has nothing that differs from the marker. */
  method AnyNotSame(row: map<string, Value>) returns (found: bool)
    ensures found <==> exists n :: n in row && row[n] != SAME
  {
    found := false;
    var rest := row.Keys;
    while rest != {} && !found
      invariant rest <= row.Keys
      invariant found ==> exists n :: n in row && row[n] != SAME
      invariant !found ==> forall n :: n in row && n !in rest ==> row[n] == SAME
      decreases |rest|
    {
      var n :| n in rest;
      found := row[n] != SAME;
      rest := rest - {n};
    }
  }

  ghost predicate PrunedFields(r: map<string, Item>, fields: map<string, Item>, names: set<string>) {
    && (forall f :: f in r <==> f in fields && Survives(PrunedItem(fields[f], names)))
    && (forall f :: f in r ==> r[f] == PrunedItem(fields[f], names))
  }

  predicate Paired(fields: map<string, Item>) {
    forall f :: f in fields ==> fields[f].confidence.Keys == fields[f].upstreams.Keys
  }

  method PruneFields(fields: map<string, Item>, names: set<string>) returns (r: map<string, Item>)
    requires Paired(fields)
    ensures PrunedFields(r, fields, names)
  {
    r := fields;
    var rest := fields.Keys;
    while rest != {}
      invariant rest <= fields.Keys
      invariant forall f :: f in r <==> f in fields && (f in rest || Survives(PrunedItem(fields[f], names)))
      invariant forall f :: f in r ==> r[f] == if f in rest then fields[f] else PrunedItem(fields[f], names)
      decreases |rest|
    {
      var f :| f in rest;
      var item, stays := PruneItem(fields[f], names);
      if stays {
        r := r[f := item];
      } else {
        r := r - {f};
      }
      rest := rest - {f};
    }
  }

  method Prune(d: Differences, names: set<string>) returns (r: Differences)
    requires forall m :: m in d ==> Paired(d[m])
    ensures NoEmptyModel(r)
    ensures forall m, f :: Lists(r, m, f) <==> Lists(d, m, f) && Survives(PrunedItem(d[m][f], names))
    ensures forall m, f :: Lists(r, m, f) ==> Lists(d, m, f) && r[m][f] == PrunedItem(d[m][f], names)
  {
    r := map[];
    var rest := d.Keys;
    while rest != {}
      invariant rest <= d.Keys
      invariant NoEmptyModel(r)
      invariant forall m :: m in r ==> m in d && m !in rest && PrunedFields(r[m], d[m], names)
      invariant forall m :: m in d && m !in rest && m !in r ==> PrunedFields(map[], d[m], names)
      decreases |rest|
    {
      var m :| m in rest;
      var fields := PruneFields(d[m], names);
      if fields != map[] {
        r := r[m := fields];
      }
      rest := rest - {m};
    }
  }

  // ---------------------------------------------------------------------------------------------------
  // The whole
  // ---------------------------------------------------------------------------------------------------

  lemma {:induction false} ByNameFrom(sources: seq<Source>, n: string)
    requires n in ByName(sources)
    ensures exists i :: 0 <= i < |sources| && sources[i] == ByName(sources)[n] && sources[i].name == n
  {
    if sources != [] {
      var k := |sources| - 1;
      if sources[k].name != n {
        ByNameFrom(sources[..k], n);
        var i :| 0 <= i < k && sources[..k][i] == ByName(sources)[n] && sources[..k][i].name == n;
        assert sources[i] == ByName(sources)[n];
      }
    }
  }

  /** What shows for a channel makes its pair part of the table. */
  lemma {:induction false} VisibleIsIncluded(local: Table, sources: seq<Source>, n: string, m: string, f: string)
    requires n in ByName(sources) && Visible(local, ByName(sources)[n], m, f)
    ensures Included(local, sources, m, f)
  {
    ByNameFrom(sources, n);
  }

  lemma {:induction false} DifferingIsShown(d: Differences, local: Table, sources: seq<Source>, n: string)
    requires Unpruned(d, local, sources)
    ensures n in Differing(local, ByName(sources)) <==> exists m :: m in d && ShowsIn(d[m], n)
  {
    var chans := ByName(sources);
    if n in Differing(local, chans) {
      var m, f :| f in FIELDS && Visible(local, chans[n], m, f);
      VisibleIsIncluded(local, sources, n, m, f);
      assert Lists(d, m, f) && Shows(d[m][f].upstreams, n);
    }
    if m :| m in d && ShowsIn(d[m], n) {
      var f :| f in d[m] && Shows(d[m][f].upstreams, n);
      assert Lists(d, m, f);
      assert Visible(local, chans[n], m, f);
    }
  }

  /** buildDifferences: exactly the reported pairs, each with exactly the channels that differ somewhere. */
  method BuildDifferences(local: Table, sources: seq<Source>) returns (d: Differences)
    ensures NoEmptyModel(d)
    ensures forall m, f :: Lists(d, m, f) <==> f in FIELDS && Reported(local, sources, m, f)
    ensures forall m, f :: Lists(d, m, f) ==>
              d[m][f] == Entry(local, ByName(sources), Differing(local, ByName(sources)), m, f)
  {
    var table := BuildTable(local, sources);
    var names := ChannelsWithDiff(table);
    ghost var chans := ByName(sources);
    forall n ensures n in names <==> n in Differing(local, chans) {
      DifferingIsShown(table, local, sources, n);
    }
    assert names == Differing(local, chans);
    forall m | m in table ensures Paired(table[m]) {
      forall f | f in table[m] ensures table[m][f].confidence.Keys == table[m][f].upstreams.Keys {
        assert Lists(table, m, f);
      }
    }
    d := Prune(table, names);
    forall m, f ensures Lists(d, m, f) <==> f in FIELDS && Reported(local, sources, m, f) {
      if f in FIELDS && Included(local, sources, m, f) {
        assert Lists(table, m, f);
        SurvivesWhenReported(local, sources, m, f);
      }
    }
  }

  lemma {:induction false} SurvivesWhenReported(local: Table, sources: seq<Source>, m: string, f: string)
    requires Included(local, sources, m, f)
    ensures Survives(PrunedItem(Full(local, sources, m, f), Differing(local, ByName(sources)))) <==>
      Reported(local, sources, m, f)
  {
    var chans := ByName(sources);
    var row := PrunedItem(Full(local, sources, m, f), Differing(local, chans)).upstreams;
    assert forall n :: n in row <==> n in Differing(local, chans);
    assert forall n :: n in row ==> row[n] == Cell(local, chans[n], m, f);
  }

  // ---------------------------------------------------------------------------------------------------
  // What is reported
  // ---------------------------------------------------------------------------------------------------

  predicate DistinctNames(sources: seq<Source>) {
    forall i, j :: 0 <= i < j < |sources| ==> sources[i].name != sources[j].name
  }

  lemma {:induction false} ByNameAt(sources: seq<Source>, i: nat)
    requires DistinctNames(sources) && i < |sources|
    ensures sources[i].name in ByName(sources) && ByName(sources)[sources[i].name] == sources[i]
  {
    var k := |sources| - 1;
    if i < k {
      ByNameAt(sources[..k], i);
    }
  }

  /** A pair is reported exactly when some channel shows a value for it, or when some channel's value for it is
      hidden and a channel listed for the sake of another pair has no value here. */
  lemma {:induction false} ReportedMeaning(local: Table, sources: seq<Source>, m: string, f: string)
    requires DistinctNames(sources) && f in FIELDS
    ensures Reported(local, sources, m, f) <==>
      (|| (exists i :: 0 <= i < |sources| && Visible(local, sources[i], m, f))
       || (&& (exists i :: 0 <= i < |sources| && Hidden(local, sources[i], m, f))
           && (exists i :: 0 <= i < |sources| && Differs(local, sources[i]) && Cell(local, sources[i], m, f) == Null)))
  {
    var chans := ByName(sources);
    if i :| 0 <= i < |sources| && Visible(local, sources[i], m, f) {
      ByNameAt(sources, i);
      VisibleIsIncluded(local, sources, sources[i].name, m, f);
      assert sources[i].name in Differing(local, chans);
    }
    if i, j :| 0 <= i < |sources| && Hidden(local, sources[i], m, f) &&
               0 <= j < |sources| && Differs(local, sources[j]) && Cell(local, sources[j], m, f) == Null {
      ByNameAt(sources, j);
      assert HasDifference(local, sources[i], m, f);
      assert sources[j].name in Differing(local, chans);
    }
    if Reported(local, sources, m, f) && !exists i :: 0 <= i < |sources| && Visible(local, sources[i], m, f) {
      var n :| n in Differing(local, chans) && Cell(local, chans[n], m, f) != SAME;
      ByNameFrom(sources, n);
      var i :| 0 <= i < |sources| && HasDifference(local, sources[i], m, f);
      assert Hidden(local, sources[i], m, f);
    }
  }

  /** Values that are neither nil nor the marker. */
  ghost predicate Clean(t: Table) {
    forall f, m :: f in FIELDS && Has(t, f, m) ==> t[f][m] != Null && t[f][m] != SAME
  }

  /** The channel's value is there, and the local one is absent or not equal to it. */
  predicate Genuine(local: Table, src: Source, m: string, f: string) {
    Has(src.data, f, m) && (Has(local, f, m) ==> !ValuesEqual(local[f][m], src.data[f][m]))
  }

  lemma {:induction false} GenuineIsVisible(local: Table, src: Source, m: string, f: string)
    requires Clean(local) && Clean(src.data) && f in FIELDS
    ensures Genuine(local, src, m, f) <==> Visible(local, src, m, f)
    ensures !Hidden(local, src, m, f)
  {}

  ghost predicate AllClean(local: Table, sources: seq<Source>) {
    Clean(local) && forall i :: 0 <= i < |sources| ==> Clean(sources[i].data)
  }

  /** On ordinary data the diff is the declarative one: the reported pairs are those for which some channel has a
      value that is not the local one, ... */
  lemma {:induction false} ReportedWhenClean(local: Table, sources: seq<Source>, m: string, f: string)
    requires DistinctNames(sources) && AllClean(local, sources) && f in FIELDS
    ensures Reported(local, sources, m, f) <==> exists i :: 0 <= i < |sources| && Genuine(local, sources[i], m, f)
  {
    forall i | 0 <= i < |sources|
      ensures Genuine(local, sources[i], m, f) <==> Visible(local, sources[i], m, f)
      ensures !Hidden(local, sources[i], m, f)
    {
      GenuineIsVisible(local, sources[i], m, f);
    }
    ReportedMeaning(local, sources, m, f);
  }

  /** The table has a value there that is not the number x, up to a billionth. */
  predicate FarFrom(t: Table, f: string, m: string, x: real) {
    Has(t, f, m) &&
    match t[f][m]
    case Num(y) => y - x >= 0.000000001 || x - y >= 0.000000001
    case _ => true
  }

  /** A pair with a local number is reported exactly if some channel has another number for it, a billionth or more
      away, or a value that is no number; ... */
  lemma {:induction false} NumberReported(local: Table, sources: seq<Source>, m: string, f: string)
    requires DistinctNames(sources) && AllClean(local, sources) && f in FIELDS
    requires Has(local, f, m) && local[f][m].Num?
    ensures Reported(local, sources, m, f) <==>
      exists i :: 0 <= i < |sources| && FarFrom(sources[i].data, f, m, local[f][m].x)
  {
    ReportedWhenClean(local, sources, m, f);
    assert forall i :: 0 <= i < |sources| ==>
      (Genuine(local, sources[i], m, f) <==> FarFrom(sources[i].data, f, m, local[f][m].x));
  }

  /** ... with a local text or flag, exactly if some channel has anything else; with nothing, exactly if some channel
      has anything. */
  lemma {:induction false} OtherReported(local: Table, sources: seq<Source>, m: string, f: string)
    requires DistinctNames(sources) && AllClean(local, sources) && f in FIELDS
    requires Has(local, f, m) ==> !local[f][m].Num?
    ensures Reported(local, sources, m, f) <==>
      exists i :: 0 <= i < |sources| && Has(sources[i].data, f, m) &&
        (Has(local, f, m) ==> sources[i].data[f][m] != local[f][m])
  {
    ReportedWhenClean(local, sources, m, f);
    assert forall i :: 0 <= i < |sources| ==>
      (Genuine(local, sources[i], m, f) <==>
       Has(sources[i].data, f, m) && (Has(local, f, m) ==> sources[i].data[f][m] != local[f][m]));
  }

  /** What a listed channel shows for a pair on ordinary data: its value, or the marker if that is the local one, for
      numbers up to a billionth; without a value nil, or the marker if there is no local one either. */
  function Shown(local: Table, t: Table, m: string, f: string): Value {
    if !Has(t, f, m) then (if Has(local, f, m) then Null else Text("same"))
    else if !Has(local, f, m) then t[f][m]
    else if local[f][m].Num? then (if FarFrom(t, f, m, local[f][m].x) then t[f][m] else Text("same"))
    else if t[f][m] == local[f][m] then Text("same") else t[f][m]
  }

  lemma {:induction false} CellWhenClean(local: Table, src: Source, m: string, f: string)
    requires Clean(local) && Clean(src.data) && f in FIELDS
    ensures Cell(local, src, m, f) == Shown(local, src.data, m, f)
    ensures At(local, f, m) == if Has(local, f, m) then local[f][m] else Null
  {}

  lemma {:induction false} EntryAt(local: Table, chans: map<string, Source>, keep: set<string>, m: string, f: string)
    requires keep <= chans.Keys
    ensures var e := Entry(local, chans, keep, m, f);
      && e.upstreams.Keys == keep && e.confidence.Keys == keep
      && forall n :: n in keep ==>
           e.upstreams[n] == Cell(local, chans[n], m, f) && e.confidence[n] == Trusted(chans[n], m)
  {
    assert Row(local, chans, m, f).Keys == chans.Keys && Trusts(chans, m).Keys == chans.Keys;
  }

  /** The whole entry of a reported pair: the local value, and for each listed channel what it shows and whether its
      prices are not the placeholder pair. */
  lemma {:induction false} EntryMeaning(local: Table, sources: seq<Source>, i: nat, m: string, f: string)
    requires DistinctNames(sources) && AllClean(local, sources) && f in FIELDS && i < |sources|
    requires sources[i].name in Differing(local, ByName(sources))
    ensures var n, t := sources[i].name, sources[i].data;
      var e := Entry(local, ByName(sources), Differing(local, ByName(sources)), m, f);
      && e.upstreams.Keys == e.confidence.Keys == Differing(local, ByName(sources))
      && e.current == (if Has(local, f, m) then local[f][m] else Null)
      && e.upstreams[n] == Shown(local, t, m, f)
      && (e.confidence[n] <==> !IsPlaceholder(t, m))
  {
    ByNameAt(sources, i);
    PlaceholderMeaning(sources[i], m);
    CellWhenClean(local, sources[i], m, f);
    EntryAt(local, ByName(sources), Differing(local, ByName(sources)), m, f);
  }

  /** The placeholder pair: a model ratio of 37.5 and a completion ratio of 1, up to a billionth. */
  predicate IsPlaceholder(t: Table, m: string) {
    && Has(t, "model_ratio", m) && t["model_ratio"][m].Num? && !FarFrom(t, "model_ratio", m, 37.5)
    && Has(t, "completion_ratio", m) && t["completion_ratio"][m].Num? && !FarFrom(t, "completion_ratio", m, 1.0)
  }

  lemma {:induction false} PlaceholderMeaning(src: Source, m: string)
    ensures Trusted(src, m) <==> !IsPlaceholder(src.data, m)
  {}

  ghost predicate GenuineSomewhere(local: Table, src: Source) {
    exists m, f :: f in FIELDS && Genuine(local, src, m, f)
  }

  lemma {:induction false} DiffersWhenClean(local: Table, src: Source)
    requires Clean(local) && Clean(src.data)
    ensures Differs(local, src) <==> GenuineSomewhere(local, src)
  {
    if Differs(local, src) {
      var m, f :| f in FIELDS && Visible(local, src, m, f);
      GenuineIsVisible(local, src, m, f);
    }
    if GenuineSomewhere(local, src) {
      var m, f :| f in FIELDS && Genuine(local, src, m, f);
      GenuineIsVisible(local, src, m, f);
    }
  }

  /** ... and the listed channels are those with such a value somewhere. */
  lemma {:induction false} ListedWhenClean(local: Table, sources: seq<Source>, i: nat)
    requires DistinctNames(sources) && AllClean(local, sources) && i < |sources|
    ensures sources[i].name in Differing(local, ByName(sources)) <==> GenuineSomewhere(local, sources[i])
  {
    ByNameAt(sources, i);
    DiffersWhenClean(local, sources[i]);
  }

  /** Pruning removes no pair for which a channel shows a value, whatever the data. */
  lemma {:induction false} PruningKeepsVisible(local: Table, sources: seq<Source>, n: string, m: string, f: string)
    requires f in FIELDS && n in ByName(sources) && Visible(local, ByName(sources)[n], m, f)
    ensures Reported(local, sources, m, f)
  {
    VisibleIsIncluded(local, sources, n, m, f);
    assert n in Differing(local, ByName(sources));
  }

  /** A channel whose billing mode is the text "same" differs from the local mode, and is not reported. */
  lemma {:induction false} MarkerValueIsLost()
    ensures var local: Table := map["billing_mode" := map["m" := Text("ratio")]];
      var src := Source("c", map["billing_mode" := map["m" := SAME]]);
      Genuine(local, src, "m", "billing_mode") && Included(local, [src], "m", "billing_mode") &&
        !Reported(local, [src], "m", "billing_mode")
  {
    var local: Table := map["billing_mode" := map["m" := Text("ratio")]];
    var src := Source("c", map["billing_mode" := map["m" := SAME]]);
    assert HasDifference(local, [src][0], "m", "billing_mode");
    forall n | n in ByName([src]) ensures ByName([src])[n] == src {
      ByNameFrom([src], n);
    }
    assert Cell(local, src, "m", "billing_mode") == SAME;
  }

  /** The same for a null, of a field that is a number locally. */
  lemma {:induction false} NullValueIsLost()
    ensures var local: Table := map["model_ratio" := map["m" := Num(1.0)]];
      var src := Source("c", map["model_ratio" := map["m" := Null]]);
      Genuine(local, src, "m", "model_ratio") && Included(local, [src], "m", "model_ratio") &&
        !Reported(local, [src], "m", "model_ratio")
  {
    var local: Table := map["model_ratio" := map["m" := Num(1.0)]];
    var src := Source("c", map["model_ratio" := map["m" := Null]]);
    assert HasDifference(local, [src][0], "m", "model_ratio");
    assert DistinctNames([src]);
    assert "model_ratio" in FIELDS by {
      assert FIELDS[0] == "model_ratio";
    }
    ReportedMeaning(local, [src], "m", "model_ratio");
    NothingShows(local, src);
  }

  /** A channel whose only value is a null shows no difference. */
  lemma {:induction false} NothingShows(local: Table, src: Source)
    requires local == map["model_ratio" := map["m" := Num(1.0)]] && src.data == map["model_ratio" := map["m" := Null]]
    ensures !Differs(local, src)
  {
    forall m, f | f in FIELDS ensures !Visible(local, src, m, f) {
    }
  }
}
