/** Detecting upstream model changes of a channel and applying a selection of them
    (controller/channel_upstream_update.go). The claim is that the pending lists a channel stores stay
    those a fresh detection would compute. */
module UpstreamSync {
  import opened Basics
  import opened Text
  import opened UpstreamModels

  datatype Channel = Channel(
    models: string,          // comma-separated, as stored
    ignored: seq<string>,    // UpstreamModelUpdateIgnoredModels
    detected: seq<string>,   // UpstreamModelUpdateLastDetectedModels
    removed: seq<string>,    // UpstreamModelUpdateLastRemovedModels
    lastCheck: int,
    autoSync: bool)
  {
    function GetModels(): seq<string> {
      ReadList(models, ',')
    }
  }

  /** The lists of an apply request, exactly as sent. */
  datatype Selection = Selection(add: seq<string>, ignore: seq<string>, remove: seq<string>)

  function SelectedAdd(ch: Channel, sel: Selection): seq<string> {
    Intersect(sel.add, Normalize(ch.detected))
  }

  function SelectedIgnore(ch: Channel, sel: Selection): seq<string> {
    Intersect(sel.ignore, Normalize(ch.detected))
  }

  function SelectedRemove(ch: Channel, sel: Selection): seq<string> {
    Subtract(Intersect(sel.remove, Normalize(ch.removed)), SelectedAdd(ch, sel))
  }

  function NextModels(ch: Channel, sel: Selection): seq<string> {
    ApplySelected(Normalize(ch.GetModels()), SelectedAdd(ch, sel), SelectedRemove(ch, sel))
  }

  function NextIgnored(ch: Channel, sel: Selection): seq<string> {
    var merged := Merge(ch.ignored, SelectedIgnore(ch, sel));
    if |SelectedAdd(ch, sel)| > 0 then Subtract(merged, SelectedAdd(ch, sel)) else merged
  }

  /** applyChannelUpstreamModelUpdates, its database writes succeeding. */
  function Apply(ch: Channel, sel: Selection, now: int): Channel {
    var origin := Normalize(ch.GetModels());
    var next := NextModels(ch, sel);
    ch.(models := if origin != next then Join(next, ',') else ch.models,
        ignored := NextIgnored(ch, sel),
        detected := Subtract(Normalize(ch.detected), SelectedAdd(ch, sel) + SelectedIgnore(ch, sel)),
        removed := Subtract(Normalize(ch.removed), SelectedRemove(ch, sel)),
        lastCheck := now)
  }

  /** checkAndPersistChannelUpstreamModelUpdates once the upstream list is fetched. */
  function Detect(ch: Channel, up: Upstream, allowAutoApply: bool, now: int): Channel {
    var add := PendingAdd(up, ch.GetModels(), ch.ignored);
    var ch1 := ch.(lastCheck := now, removed := PendingRemove(up, ch.GetModels()));
    if allowAutoApply && ch.autoSync && |add| > 0 then
      var origin := Normalize(ch.GetModels());
      var merged := Merge(origin, add);
      ch1.(detected := [], models := if |merged| > |origin| then Join(merged, ',') else ch.models)
    else
      ch1.(detected := add)
  }

  /** How many models a detection adds by itself. */
  function AutoAdded(ch: Channel, up: Upstream, allowAutoApply: bool): nat {
    var add := PendingAdd(up, ch.GetModels(), ch.ignored);
    var origin := Normalize(ch.GetModels());
    var grown := |Merge(origin, add)| - |origin|;
    if allowAutoApply && ch.autoSync && |add| > 0 && grown > 0 then grown else 0
  }

  // ---------------------------------------------------------------------------------------------------
  // The channel record that the two operations update in place
  // ---------------------------------------------------------------------------------------------------

  class ChannelRecord {
    var models: string
    var ignored: seq<string>
    var detected: seq<string>
    var removed: seq<string>
    var lastCheck: int
    var autoSync: bool

    constructor (ch: Channel)
      ensures Value() == ch
    {
      models, ignored, detected, removed := ch.models, ch.ignored, ch.detected, ch.removed;
      lastCheck, autoSync := ch.lastCheck, ch.autoSync;
    }

    function Value(): Channel
      reads this
    {
      Channel(models, ignored, detected, removed, lastCheck, autoSync)
    }

    /** fetched is None when the upstream request failed. */
    method CheckAndPersist(fetched: Option<Upstream>, force: bool, minInterval: int, allowAutoApply: bool, now: int)
      returns (modelsChanged: bool, autoAdded: nat)
      modifies this
      ensures !force && old(lastCheck) > 0 && now - old(lastCheck) < minInterval ==>
        Value() == old(Value()) && autoAdded == 0
      ensures force || old(lastCheck) <= 0 || now - old(lastCheck) >= minInterval ==>
        match fetched
        case None => Value() == old(Value()).(lastCheck := now) && autoAdded == 0
        case Some(up) =>
          Value() == Detect(old(Value()), up, allowAutoApply, now) &&
            autoAdded == AutoAdded(old(Value()), up, allowAutoApply)
      ensures modelsChanged <==> autoAdded > 0
    {
      modelsChanged, autoAdded := false, 0;
      if !force {
        if lastCheck > 0 && now - lastCheck < minInterval {
          return;
        }
      }
      if fetched == None {
        lastCheck := now;
        return;
      }
      var ch := Value();
      var up := fetched.value;
      var pendingAdd := PendingAdd(up, ch.GetModels(), ch.ignored);
      var pendingRemove := PendingRemove(up, ch.GetModels());
      if allowAutoApply && autoSync && |pendingAdd| > 0 {
        var origin := Normalize(ch.GetModels());
        var merged := MergeModelNames(origin, pendingAdd);
        if |merged| > |origin| {
          models := Join(merged, ',');
          autoAdded := |merged| - |origin|;
          modelsChanged := true;
        }
        lastCheck, detected, removed := now, [], pendingRemove;
      } else {
        lastCheck, detected, removed := now, pendingAdd, pendingRemove;
      }
    }

    method ApplyUpdates(sel: Selection, now: int)
      returns (added: seq<string>, taken: seq<string>, modelsChanged: bool)
      modifies this
      ensures Value() == Apply(old(Value()), sel, now)
      ensures added == SelectedAdd(old(Value()), sel) && taken == SelectedRemove(old(Value()), sel)
      ensures modelsChanged <==> Normalize(old(Value()).GetModels()) != NextModels(old(Value()), sel)
    {
      var ch := Value();
      var pendingAdd := Normalize(ch.detected);
      var pendingRemove := Normalize(ch.removed);
      added := Intersect(sel.add, pendingAdd);
      var ignoredNow := Intersect(sel.ignore, pendingAdd);
      taken := Intersect(sel.remove, pendingRemove);
      taken := Subtract(taken, added);
      var origin := Normalize(ch.GetModels());
      var next := ApplySelected(origin, added, taken);
      modelsChanged := origin != next;
      var rules := MergeModelNames(ch.ignored, ignoredNow);
      if |added| > 0 {
        rules := Subtract(rules, added);
      }
      if modelsChanged {
        models := Join(next, ',');
      }
      ignored, detected, removed, lastCheck :=
        rules, Subtract(pendingAdd, added + ignoredNow), Subtract(pendingRemove, taken), now;
    }
  }

  // ---------------------------------------------------------------------------------------------------
  // Detect and apply commute
  // ---------------------------------------------------------------------------------------------------

  /** The stored pending lists are, order included, those a detection against up would return now. */
  predicate InSync(ch: Channel, up: Upstream) {
    && ch.detected == PendingAdd(up, ch.GetModels(), ch.ignored)
    && ch.removed == PendingRemove(up, ch.GetModels())
  }

  lemma {:induction false} TrimAllCommaFree(s: seq<string>)
    requires CommaFree(s)
    ensures CommaFree(TrimAll(s))
  {
    if s != [] {
      assert s[0] in s;
      TrimMeaning(s[0], IsSpace);
      assert forall x :: x in s[1..] ==> x in s;
      TrimAllCommaFree(s[1..]);
    }
  }

  lemma {:induction false} LocalCommaFree(ch: Channel)
    ensures CommaFree(Normalize(ch.GetModels()))
  {
    SplitParts(Trim(ch.models, c => c == ','), ',');
    TrimAllCommaFree(ch.GetModels());
    UniqMeaning(TrimAll(ch.GetModels()));
  }

  lemma {:induction false} PendingNormal(ch: Channel, up: Upstream)
    requires InSync(ch, up)
    ensures IsNormal(ch.detected) && IsNormal(ch.removed)
  {
    NormalizeNormal(Filter(Normalize(up.models), x => Addable(up, ch.GetModels(), ch.ignored, x)));
    NormalizeNormal(Filter(Normalize(ch.GetModels()), x => Removable(up, x)));
  }

  /** What an in-sync channel selects from. */
  lemma {:induction false} SelectionFacts(ch: Channel, up: Upstream, sel: Selection)
    requires InSync(ch, up)
    ensures IsNormal(SelectedAdd(ch, sel)) && IsNormal(SelectedIgnore(ch, sel)) && IsNormal(SelectedRemove(ch, sel))
    ensures Normalize(ch.detected) == ch.detected && Normalize(ch.removed) == ch.removed
    ensures forall x :: x in SelectedAdd(ch, sel) <==> x in Normalize(sel.add) && x in ch.detected
    ensures forall x :: x in SelectedIgnore(ch, sel) <==> x in Normalize(sel.ignore) && x in ch.detected
    ensures forall x :: x in SelectedRemove(ch, sel) <==> x in Normalize(sel.remove) && x in ch.removed
    ensures forall x :: x in ch.detected <==> x in Normalize(up.models) && Addable(up, ch.GetModels(), ch.ignored, x)
    ensures forall x :: x in ch.removed <==> x in Normalize(ch.GetModels()) && Removable(up, x)
  {
    PendingMembers(up, ch.GetModels(), ch.ignored);
    PendingNormal(ch, up);
    NormalizeNormal(sel.add);
    NormalizeNormal(sel.ignore);
    NormalizeNormal(sel.remove);
    NormalizeFixed(ch.detected);
    NormalizeFixed(ch.removed);
    KeepMeaning(Normalize(sel.add), ch.detected);
    KeepMeaning(Normalize(sel.ignore), ch.detected);
    KeepMeaning(Normalize(sel.remove), ch.removed);
    var rem := Intersect(sel.remove, ch.removed);
    SubtractNormal(rem, SelectedAdd(ch, sel));
    DropMeaning(rem, SelectedAdd(ch, sel));
  }

  /** The new model list: the kept local models in order, then the added ones. */
  lemma {:induction false} NextModelsMeaning(ch: Channel, up: Upstream, sel: Selection)
    requires InSync(ch, up)
    ensures NextModels(ch, sel) ==
      Drop(Normalize(ch.GetModels()), SelectedRemove(ch, sel)) + SelectedAdd(ch, sel)
    ensures IsNormal(NextModels(ch, sel))
  {
    var local, add, rem := Normalize(ch.GetModels()), SelectedAdd(ch, sel), SelectedRemove(ch, sel);
    SelectionFacts(ch, up, sel);
    NormalizeNormal(ch.GetModels());
    NormalizeFixed(local);
    NormalizeFixed(add);
    NormalizeFixed(rem);
    DropNothing(rem, add);
    DropNothing(add, local);
    DropNothing(add, rem);
    AppendNormal(local, add);
    NormalizeFixed(local + add);
    DropAppend(local, add, rem);
    DropMeaning(local + add, rem);
  }

  /** The local models that are kept. */
  function Kept(ch: Channel, sel: Selection): seq<string> {
    Drop(Normalize(ch.GetModels()), SelectedRemove(ch, sel))
  }

  lemma {:induction false} KeptMeaning(ch: Channel, sel: Selection)
    ensures IsNormal(Kept(ch, sel)) && CommaFree(Kept(ch, sel))
    ensures forall x :: x in Kept(ch, sel) <==> x in Normalize(ch.GetModels()) && x !in SelectedRemove(ch, sel)
  {
    NormalizeNormal(ch.GetModels());
    LocalCommaFree(ch);
    DropMeaning(Normalize(ch.GetModels()), SelectedRemove(ch, sel));
  }

  /** The models that are read back after applying: the kept ones, then the pieces of the added names. */
  lemma {:induction false} AppliedModels(ch: Channel, up: Upstream, sel: Selection, now: int)
    requires InSync(ch, up)
    ensures Normalize(Apply(ch, sel, now).GetModels()) ==
      Kept(ch, sel) + Drop(Pieces(SelectedAdd(ch, sel)), Kept(ch, sel))
  {
    var kept, add := Kept(ch, sel), SelectedAdd(ch, sel);
    NextModelsMeaning(ch, up, sel);
    KeptMeaning(ch, sel);
    PiecesAppend(kept, add);
    if Normalize(ch.GetModels()) == kept + add {
      NormalizeNormal(ch.GetModels());
      LocalCommaFree(ch);
      PiecesFixed(kept + add);
    } else {
      StoredAsPieces(kept + add);
    }
  }

  /** The new ignore list as a set of rules. */
  lemma {:induction false} NextIgnoredMeaning(ch: Channel, up: Upstream, sel: Selection)
    requires InSync(ch, up)
    ensures IsNormal(NextIgnored(ch, sel))
    ensures forall x :: x in NextIgnored(ch, sel) <==>
      (x in Normalize(ch.ignored) || x in SelectedIgnore(ch, sel)) && x !in SelectedAdd(ch, sel)
  {
    var add, ign, merged := SelectedAdd(ch, sel), SelectedIgnore(ch, sel), Merge(ch.ignored, SelectedIgnore(ch, sel));
    assert IsNormal(add) && IsNormal(ign) && Normalize(ign) == ign by {
      SelectionFacts(ch, up, sel);
      NormalizeFixed(ign);
    }
    assert IsNormal(merged) && forall x :: x in merged <==> x in Normalize(ch.ignored) || x in ign by {
      MergeNormal(ch.ignored, ign);
      MergeMeaning(ch.ignored, ign);
    }
    SubtractNormal(merged, add);
    DropMeaning(merged, add);
  }

  // What the selection and the stored rules say before anything is applied.

  /** A rule of the given list that is not withdrawn by being added covers the name. */
  ghost predicate CoveredBy(rules: seq<string>, ch: Channel, up: Upstream, sel: Selection, u: string) {
    exists r :: r in rules && r !in SelectedAdd(ch, sel) && Covers(r, u, up.matches)
  }

  /** An upstream name that is neither local nor a redirect target is treated as the user chose: if it was ignored
      some rule or added piece still accounts for it; otherwise a newly ignored rule or an added piece accounts for
      it exactly if it is selected. */
  ghost predicate NameAgrees(ch: Channel, up: Upstream, sel: Selection, u: string) {
    var piece := u in Pieces(SelectedAdd(ch, sel));
    u !in Normalize(ch.GetModels()) && u !in up.mapping.Values ==>
      if Ignored(Normalize(ch.ignored), u, up.matches)
      then piece || CoveredBy(Normalize(ch.ignored) + SelectedIgnore(ch, sel), ch, up, sel, u)
      else (piece || CoveredBy(SelectedIgnore(ch, sel), ch, up, sel, u) <==>
            u in SelectedAdd(ch, sel) || u in SelectedIgnore(ch, sel))
  }

  ghost predicate NamesAgree(ch: Channel, up: Upstream, sel: Selection) {
    forall u :: u in Normalize(up.models) ==> NameAgrees(ch, up, sel, u)
  }

  /** No piece of an added name would be offered for removal, unless it is a local model that stays anyway. */
  predicate PiecesAgree(ch: Channel, up: Upstream, sel: Selection) {
    forall p :: p in Pieces(SelectedAdd(ch, sel)) && Removable(up, p) ==>
      p in Normalize(ch.GetModels()) && p !in SelectedRemove(ch, sel)
  }

  /** Filters of one list are equal exactly when they keep the same elements. */
  lemma {:induction false} FilterEqual(s: seq<string>, p: string -> bool, q: string -> bool)
    ensures Filter(s, p) == Filter(s, q) <==> forall x :: x in s ==> p(x) == q(x)
  {
    FilterMembers(s, p);
    FilterMembers(s, q);
    if forall x :: x in s ==> p(x) == q(x) {
      FilterSame(s, p, q);
    } else {
      var x :| x in s && p(x) != q(x);
      assert (x in Filter(s, p)) != (x in Filter(s, q));
    }
  }

  lemma {:induction false} RemovalsLeft(ch: Channel, up: Upstream, sel: Selection, now: int)
    requires InSync(ch, up)
    ensures Apply(ch, sel, now).removed == Filter(Kept(ch, sel), x => Removable(up, x))
  {
    var local, rem := Normalize(ch.GetModels()), SelectedRemove(ch, sel);
    SelectionFacts(ch, up, sel);
    PendingNormal(ch, up);
    SubtractNormal(ch.removed, rem);
    PendingMeaning(up, ch.GetModels(), ch.ignored);
    DropSelect(local, rem, x => Removable(up, x));
  }

  /** Appended names add nothing to a filtered list exactly if those that pass are there already. */
  lemma {:induction false} FilterAppended(kept: seq<string>, pieces: seq<string>, p: string -> bool)
    ensures Filter(kept + Drop(pieces, kept), p) == Filter(kept, p) <==> forall x :: x in pieces && p(x) ==> x in kept
  {
    var added := Drop(pieces, kept);
    FilterAppend(kept, added, p);
    DropMembers(pieces, kept);
    FilterMembers(added, p);
    if forall x :: x in pieces && p(x) ==> x in kept {
      FilterNone(added, p);
    } else {
      var x :| x in pieces && p(x) && x !in kept;
      assert x in Filter(added, p);
    }
  }

  /** After applying, detection finds exactly the removals that were not taken, if and only if no piece of an added
      name is removable. */
  lemma {:induction false} RemovalsCommute(ch: Channel, up: Upstream, sel: Selection, now: int)
    requires InSync(ch, up)
    ensures Apply(ch, sel, now).removed == PendingRemove(up, Apply(ch, sel, now).GetModels()) <==>
      PiecesAgree(ch, up, sel)
  {
    var ch', kept, pieces := Apply(ch, sel, now), Kept(ch, sel), Pieces(SelectedAdd(ch, sel));
    assert ch'.removed == Filter(kept, x => Removable(up, x)) by {
      RemovalsLeft(ch, up, sel, now);
    }
    assert PendingRemove(up, ch'.GetModels()) == Filter(kept + Drop(pieces, kept), x => Removable(up, x)) by {
      AppliedModels(ch, up, sel, now);
      PendingMeaning(up, ch'.GetModels(), ch'.ignored);
    }
    FilterAppended(kept, pieces, x => Removable(up, x));
    KeptMeaning(ch, sel);
  }

  /** The rules after applying are the old and the newly ignored ones that are not added. */
  lemma {:induction false} IgnoredAfter(ch: Channel, up: Upstream, sel: Selection, u: string)
    requires InSync(ch, up)
    ensures Ignored(NextIgnored(ch, sel), u, up.matches) <==>
      CoveredBy(Normalize(ch.ignored) + SelectedIgnore(ch, sel), ch, up, sel, u)
  {
    NextIgnoredMeaning(ch, up, sel);
    IgnoredMember(NextIgnored(ch, sel), u, up.matches);
  }

  /** What is addable after applying, name by name. */
  lemma {:induction false} AddableAfter(ch: Channel, up: Upstream, sel: Selection, now: int, u: string)
    requires InSync(ch, up) && u in Normalize(up.models)
    ensures Addable(up, Apply(ch, sel, now).GetModels(), Apply(ch, sel, now).ignored, u) <==>
      (&& u !in Normalize(ch.GetModels()) && u !in Pieces(SelectedAdd(ch, sel)) && u !in up.mapping.Values
       && !CoveredBy(Normalize(ch.ignored) + SelectedIgnore(ch, sel), ch, up, sel, u))
  {
    SelectionFacts(ch, up, sel);
    AppliedModels(ch, up, sel, now);
    NextIgnoredMeaning(ch, up, sel);
    NormalizeFixed(NextIgnored(ch, sel));
    IgnoredAfter(ch, up, sel, u);
    KeptMeaning(ch, sel);
    DropMembers(Pieces(SelectedAdd(ch, sel)), Kept(ch, sel));
  }

  /** The pending additions that a selection leaves. */
  predicate LeftPending(ch: Channel, up: Upstream, sel: Selection, x: string) {
    Addable(up, ch.GetModels(), ch.ignored, x) && x !in SelectedAdd(ch, sel) && x !in SelectedIgnore(ch, sel)
  }

  lemma {:induction false} RemainingMeaning(ch: Channel, up: Upstream, sel: Selection, now: int)
    requires InSync(ch, up)
    ensures Apply(ch, sel, now).detected == Filter(Normalize(up.models), x => LeftPending(ch, up, sel, x))
  {
    var add, ign, names := SelectedAdd(ch, sel), SelectedIgnore(ch, sel), Normalize(up.models);
    assert Apply(ch, sel, now).detected == Filter(ch.detected, x => x !in add && x !in ign) by {
      SelectionFacts(ch, up, sel);
      PendingNormal(ch, up);
      SubtractBoth(ch.detected, add, ign);
    }
    PendingMeaning(up, ch.GetModels(), ch.ignored);
    FilterFilter(names, x => Addable(up, ch.GetModels(), ch.ignored, x), x => x !in add && x !in ign,
      x => LeftPending(ch, up, sel, x));
  }

  lemma {:induction false} RemainingMembers(ch: Channel, up: Upstream, sel: Selection, now: int)
    requires InSync(ch, up)
    ensures forall x :: x in Apply(ch, sel, now).detected <==> x in Normalize(up.models) && LeftPending(ch, up, sel, x)
  {
    RemainingMeaning(ch, up, sel, now);
    FilterMembers(Normalize(up.models), x => LeftPending(ch, up, sel, x));
  }

  lemma {:induction false} NameDecides(ch: Channel, up: Upstream, sel: Selection, now: int, u: string)
    requires InSync(ch, up) && u in Normalize(up.models)
    ensures var ch' := Apply(ch, sel, now);
      LeftPending(ch, up, sel, u) == Addable(up, ch'.GetModels(), ch'.ignored, u) <==> NameAgrees(ch, up, sel, u)
  {
    var was, ign := Normalize(ch.ignored), SelectedIgnore(ch, sel);
    AddableAfter(ch, up, sel, now, u);
    SelectionFacts(ch, up, sel);
    IgnoredMember(was, u, up.matches);
    assert !Ignored(was, u, up.matches) ==>
      (CoveredBy(was + ign, ch, up, sel, u) <==> CoveredBy(ign, ch, up, sel, u));
  }

  /** After applying, detection finds exactly the additions neither taken nor ignored, if and only if the selection
      treats every upstream name as the user chose. */
  lemma {:induction false} AdditionsCommute(ch: Channel, up: Upstream, sel: Selection, now: int)
    requires InSync(ch, up)
    ensures Apply(ch, sel, now).detected ==
            PendingAdd(up, Apply(ch, sel, now).GetModels(), Apply(ch, sel, now).ignored) <==>
            NamesAgree(ch, up, sel)
  {
    var ch' := Apply(ch, sel, now);
    PendingMeaning(up, ch'.GetModels(), ch'.ignored);
    RemainingMeaning(ch, up, sel, now);
    FilterEqual(Normalize(up.models), x => LeftPending(ch, up, sel, x),
      x => Addable(up, ch'.GetModels(), ch'.ignored, x));
    forall u | u in Normalize(up.models)
      ensures LeftPending(ch, up, sel, u) == Addable(up, ch'.GetModels(), ch'.ignored, u) <==>
        NameAgrees(ch, up, sel, u)
    {
      NameDecides(ch, up, sel, now, u);
    }
  }

  /** Detect and apply commute. For every selection the pending lists after applying are, order included, what a new
      detection returns, exactly when no piece of an added name is removable and every upstream name is treated as
      the user chose; both are known before the call. */
  lemma {:induction false} ApplyKeepsSync(ch: Channel, up: Upstream, sel: Selection, now: int)
    requires InSync(ch, up)
    ensures InSync(Apply(ch, sel, now), up) <==> PiecesAgree(ch, up, sel) && NamesAgree(ch, up, sel)
  {
    RemovalsCommute(ch, up, sel, now);
    AdditionsCommute(ch, up, sel, now);
  }

  /** Without commas only the rules matter: an upstream name that was ignored keeps a rule, and another is covered by a
      newly ignored rule exactly if it is itself selected to be ignored. */
  ghost predicate RulesAgree(ch: Channel, up: Upstream, sel: Selection) {
    forall u :: u in Normalize(up.models) && u !in Normalize(ch.GetModels()) && u !in up.mapping.Values &&
                u !in SelectedAdd(ch, sel) ==>
      if Ignored(Normalize(ch.ignored), u, up.matches)
      then CoveredBy(Normalize(ch.ignored) + SelectedIgnore(ch, sel), ch, up, sel, u)
      else CoveredBy(SelectedIgnore(ch, sel), ch, up, sel, u) <==> u in SelectedIgnore(ch, sel)
  }

  lemma {:induction false} ApplyKeepsSyncCommaFree(ch: Channel, up: Upstream, sel: Selection, now: int)
    requires InSync(ch, up) && CommaFree(SelectedAdd(ch, sel))
    ensures InSync(Apply(ch, sel, now), up) <==> RulesAgree(ch, up, sel)
  {
    SelectionFacts(ch, up, sel);
    PiecesFixed(SelectedAdd(ch, sel));
    ApplyKeepsSync(ch, up, sel, now);
    assert NamesAgree(ch, up, sel) <==> RulesAgree(ch, up, sel);
  }

  predicate NoRegexNames(s: seq<string>) {
    forall x :: x in s ==> !IsRegexRule(x)
  }

  lemma {:induction false} IgnoredMember(rules: seq<string>, u: string, matches: Matcher)
    ensures Ignored(rules, u, matches) <==> exists r :: r in rules && Covers(r, u, matches)
  {
    if r :| r in rules && Covers(r, u, matches) {
      var i :| 0 <= i < |rules| && rules[i] == r;
      assert Covers(rules[i], u, matches);
    }
  }

  /** The rules can only disagree when a selected name reads as a regular expression. */
  lemma {:induction false} PlainNamesAgree(ch: Channel, up: Upstream, sel: Selection)
    requires InSync(ch, up)
    requires NoRegexNames(SelectedAdd(ch, sel)) && NoRegexNames(SelectedIgnore(ch, sel))
    ensures RulesAgree(ch, up, sel)
  {
    var was, ign := Normalize(ch.ignored), SelectedIgnore(ch, sel);
    forall u | u !in SelectedAdd(ch, sel)
      ensures Ignored(was, u, up.matches) ==> CoveredBy(was + ign, ch, up, sel, u)
      ensures CoveredBy(ign, ch, up, sel, u) <==> u in ign
    {
      IgnoredMember(was, u, up.matches);
      if u in ign {
        assert Covers(u, u, up.matches);
      }
    }
  }

  /** With plain names the commas are the whole story: apply keeps the lists in sync if and only if no
      added name contains one. */
  lemma {:induction false} ApplyKeepsSyncPlain(ch: Channel, up: Upstream, sel: Selection, now: int)
    requires InSync(ch, up)
    requires NoRegexNames(SelectedAdd(ch, sel)) && NoRegexNames(SelectedIgnore(ch, sel))
    ensures InSync(Apply(ch, sel, now), up) <==> CommaFree(SelectedAdd(ch, sel))
  {
    var add := SelectedAdd(ch, sel);
    PlainNamesAgree(ch, up, sel);
    if CommaFree(add) {
      ApplyKeepsSyncCommaFree(ch, up, sel, now);
    } else {
      var a :| a in add && ',' in a;
      CommaNameIsDetectedForEver(ch, up, sel, now, a);
    }
  }

  /** A name selected for both is added and not ignored. */
  lemma {:induction false} AddWinsOverIgnore(ch: Channel, up: Upstream, sel: Selection, now: int, x: string)
    requires InSync(ch, up) && x in SelectedAdd(ch, sel) && ',' !in x
    ensures x in Normalize(Apply(ch, sel, now).GetModels()) && x !in Apply(ch, sel, now).ignored
    ensures x !in Apply(ch, sel, now).detected
  {
    var add, kept := SelectedAdd(ch, sel), Kept(ch, sel);
    assert x in Normalize(Apply(ch, sel, now).GetModels()) by {
      SelectionFacts(ch, up, sel);
      NameIsPiece(add, x);
      AppliedModels(ch, up, sel, now);
      DropMembers(Pieces(add), kept);
    }
    assert x !in NextIgnored(ch, sel) by {
      NextIgnoredMeaning(ch, up, sel);
    }
    RemainingMembers(ch, up, sel, now);
  }

  /** Applying everything that is pending, as ApplyAllChannelUpstreamModelUpdates does. */
  function ApplyAll(ch: Channel, now: int): Channel {
    Apply(ch, Everything(ch), now)
  }

  function Everything(ch: Channel): Selection {
    Selection(Normalize(ch.detected), [], Normalize(ch.removed))
  }

  lemma {:induction false} ApplyAllSelection(ch: Channel, up: Upstream)
    requires InSync(ch, up)
    ensures
      var sel := Everything(ch);
      && (forall x :: x in SelectedAdd(ch, sel) <==> x in ch.detected)
      && SelectedIgnore(ch, sel) == []
      && (forall x :: x in SelectedRemove(ch, sel) <==> x in ch.removed)
  {
    var sel := Everything(ch);
    SelectionFacts(ch, up, sel);
  }

  lemma {:induction false} ApplyAllEmpties(ch: Channel, up: Upstream, now: int)
    requires InSync(ch, up)
    ensures ApplyAll(ch, now).detected == [] && ApplyAll(ch, now).removed == []
  {
    var sel := Everything(ch);
    ApplyAllSelection(ch, up);
    SelectionFacts(ch, up, sel);
    RemainingMeaning(ch, up, sel, now);
    FilterNone(Normalize(up.models), x => LeftPending(ch, up, sel, x));
    PendingNormal(ch, up);
    SubtractNormal(ch.removed, SelectedRemove(ch, sel));
    DropIsFilter(ch.removed, SelectedRemove(ch, sel));
    FilterNone(ch.removed, x => x !in SelectedRemove(ch, sel));
  }

  lemma {:induction false} ApplyNothing(ch: Channel, up: Upstream, now: int)
    requires InSync(ch, up) && ch.detected == [] && ch.removed == []
    ensures Normalize(ApplyAll(ch, now).GetModels()) == Normalize(ch.GetModels())
  {
    var sel := Everything(ch);
    ApplyAllSelection(ch, up);
    SelectionFacts(ch, up, sel);
    PiecesFixed(SelectedAdd(ch, sel));
    AppliedModels(ch, up, sel, now);
    DropNothing(Normalize(ch.GetModels()), SelectedRemove(ch, sel));
  }

  /** Applying everything leaves nothing pending; it reaches a fixed point (a new detection finds nothing, and applying
      everything again changes no model) exactly when that selection agrees, as for plain, comma-free names. */
  lemma {:induction false} ApplyAllFixedPoint(ch: Channel, up: Upstream, now: int, later: int)
    requires InSync(ch, up)
    ensures
      var ch', sel := ApplyAll(ch, now), Everything(ch);
      && ch'.detected == [] && ch'.removed == []
      && (InSync(ch', up) <==> PiecesAgree(ch, up, sel) && NamesAgree(ch, up, sel))
      && (InSync(ch', up) ==> Normalize(ApplyAll(ch', later).GetModels()) == Normalize(ch'.GetModels()))
      && (NoRegexNames(ch.detected) ==> (InSync(ch', up) <==> CommaFree(ch.detected)))
  {
    var ch', sel := ApplyAll(ch, now), Everything(ch);
    ApplyAllEmpties(ch, up, now);
    ApplyKeepsSync(ch, up, sel, now);
    if InSync(ch', up) {
      ApplyNothing(ch', up, later);
    }
    if NoRegexNames(ch.detected) {
      ApplyAllSelection(ch, up);
      ApplyKeepsSyncPlain(ch, up, sel, now);
    }
  }

  /** Automatic synchronisation leaves the lists in sync if and only if every added name can be stored. */
  lemma {:induction false} AutoSyncInSync(ch: Channel, up: Upstream, now: int)
    requires ch.autoSync
    ensures InSync(Detect(ch, up, true, now), up) <==> CommaFree(PendingAdd(up, ch.GetModels(), ch.ignored))
  {
    var add := PendingAdd(up, ch.GetModels(), ch.ignored);
    if |add| > 0 {
      if CommaFree(add) {
        AutoSyncStored(ch, up, now);
      } else {
        var a :| a in add && ',' in a;
        var ch' := Detect(ch, up, true, now);
        PendingMembers(up, ch.GetModels(), ch.ignored);
        LocalCommaFree(ch');
        PendingMembers(up, ch'.GetModels(), ch'.ignored);
        assert a in PendingAdd(up, ch'.GetModels(), ch'.ignored);
      }
    }
  }

  /** The models after automatic additions that can be stored. */
  lemma {:induction false} AutoSyncModels(ch: Channel, up: Upstream, now: int)
    requires ch.autoSync && PendingAdd(up, ch.GetModels(), ch.ignored) != []
    requires CommaFree(PendingAdd(up, ch.GetModels(), ch.ignored))
    ensures Normalize(Detect(ch, up, true, now).GetModels()) ==
      Normalize(ch.GetModels()) + PendingAdd(up, ch.GetModels(), ch.ignored)
  {
    var local, add := Normalize(ch.GetModels()), PendingAdd(up, ch.GetModels(), ch.ignored);
    NormalizeNormal(ch.GetModels());
    NormalizeNormal(Filter(Normalize(up.models), x => Addable(up, ch.GetModels(), ch.ignored, x)));
    PendingMembers(up, ch.GetModels(), ch.ignored);
    NormalizeFixed(local);
    NormalizeFixed(add);
    DropNothing(add, local);
    AppendNormal(local, add);
    LocalCommaFree(ch);
    StoredAsPieces(local + add);
    PiecesFixed(local + add);
  }

  lemma {:induction false} AutoSyncStored(ch: Channel, up: Upstream, now: int)
    requires ch.autoSync && PendingAdd(up, ch.GetModels(), ch.ignored) != []
    requires CommaFree(PendingAdd(up, ch.GetModels(), ch.ignored))
    ensures InSync(Detect(ch, up, true, now), up)
  {
    var local, add := Normalize(ch.GetModels()), PendingAdd(up, ch.GetModels(), ch.ignored);
    var ch' := Detect(ch, up, true, now);
    AutoSyncModels(ch, up, now);
    PendingMembers(up, ch.GetModels(), ch.ignored);
    assert PendingAdd(up, ch'.GetModels(), ch'.ignored) == [] by {
      PendingMeaning(up, ch'.GetModels(), ch'.ignored);
      FilterNone(Normalize(up.models), x => Addable(up, ch'.GetModels(), ch'.ignored, x));
    }
    assert PendingRemove(up, ch'.GetModels()) == PendingRemove(up, ch.GetModels()) by {
      PendingMeaning(up, ch.GetModels(), ch.ignored);
      PendingMeaning(up, ch'.GetModels(), ch'.ignored);
      FilterAppend(local, add, x => Removable(up, x));
      FilterNone(add, x => Removable(up, x));
    }
  }

  /** After a detection the stored pending lists are those a new one would return; only automatic additions can break
      that, exactly if one of them has a comma. */
  lemma {:induction false} DetectInSync(ch: Channel, up: Upstream, allowAutoApply: bool, now: int)
    ensures InSync(Detect(ch, up, allowAutoApply, now), up) <==>
      !(allowAutoApply && ch.autoSync) || CommaFree(PendingAdd(up, ch.GetModels(), ch.ignored))
  {
    if allowAutoApply && ch.autoSync {
      AutoSyncInSync(ch, up, now);
    }
  }

  /** The commas matter: every added name with a comma that no newly ignored rule covers is left out of the stored
      list and offered again by the next detection. */
  lemma {:induction false} CommaNameIsDetectedForEver(ch: Channel, up: Upstream, sel: Selection, now: int, a: string)
    requires InSync(ch, up) && a in SelectedAdd(ch, sel) && ',' in a
    requires !CoveredBy(SelectedIgnore(ch, sel), ch, up, sel, a)
    ensures var ch' := Apply(ch, sel, now);
      a !in ch'.detected && a in PendingAdd(up, ch'.GetModels(), ch'.ignored) && !InSync(ch', up)
  {
    var ch' := Apply(ch, sel, now);
    SelectionFacts(ch, up, sel);
    PiecesCommaFree(SelectedAdd(ch, sel));
    IgnoredMember(Normalize(ch.ignored), a, up.matches);
    AddableAfter(ch, up, sel, now, a);
    PendingMembers(up, ch'.GetModels(), ch'.ignored);
    RemainingMembers(ch, up, sel, now);
  }

  lemma {:induction false} PiecesCommaFree(names: seq<string>)
    ensures CommaFree(Pieces(names))
  {
    SplitAllCommaFree(names);
    TrimAllCommaFree(SplitAll(names, ','));
    UniqMeaning(TrimAll(SplitAll(names, ',')));
  }

  lemma {:induction false} SplitAllCommaFree(names: seq<string>)
    ensures CommaFree(SplitAll(names, ','))
  {
    if names != [] {
      SplitParts(names[0], ',');
      SplitAllCommaFree(names[1..]);
    }
  }

  /** The regular-expression reading matters too: a name that begins with "regex:" is read as a pattern once it is
      ignored, and if neither it nor another newly ignored rule matches it (it does not compile, say, as in "regex:[")
      it is offered again although it was ignored. */
  lemma {:induction false} RegexNameIsNotIgnored(ch: Channel, up: Upstream, sel: Selection, now: int, u: string)
    requires InSync(ch, up) && u in SelectedIgnore(ch, sel) && u !in Pieces(SelectedAdd(ch, sel))
    requires !CoveredBy(SelectedIgnore(ch, sel), ch, up, sel, u)
    ensures var ch' := Apply(ch, sel, now);
      u !in ch'.detected && u in PendingAdd(up, ch'.GetModels(), ch'.ignored) && !InSync(ch', up)
  {
    var ch' := Apply(ch, sel, now);
    SelectionFacts(ch, up, sel);
    IgnoredMember(Normalize(ch.ignored), u, up.matches);
    AddableAfter(ch, up, sel, now, u);
    PendingMembers(up, ch'.GetModels(), ch'.ignored);
    RemainingMembers(ch, up, sel, now);
  }

  /** The smallest such request: when one pending name beginning with "regex:" is ignored and nothing else is selected,
      the lists stay in sync if and only if its pattern matches it and no other pending name. */
  lemma {:induction false} IgnoringOneRegexName(ch: Channel, up: Upstream, now: int, u: string)
    requires InSync(ch, up) && u in ch.detected && IsRegexRule(u)
    ensures InSync(Apply(ch, Selection([], [u], []), now), up) <==>
      forall v :: v in ch.detected ==> (up.matches(TrimSpace(u[|REGEX_PREFIX|..]), v) <==> v == u)
  {
    var sel := Selection([], [u], []);
    SelectionFacts(ch, up, sel);
    PendingNormal(ch, up);
    NormalizeFixed([u]);
    assert SelectedAdd(ch, sel) == [];
    assert forall r :: r in SelectedIgnore(ch, sel) <==> r == u;
    ApplyKeepsSyncCommaFree(ch, up, sel, now);
    forall v ensures CoveredBy(SelectedIgnore(ch, sel), ch, up, sel, v) <==> Covers(u, v, up.matches) {
    }
    forall v | Ignored(Normalize(ch.ignored), v, up.matches)
      ensures CoveredBy(Normalize(ch.ignored) + SelectedIgnore(ch, sel), ch, up, sel, v)
    {
      IgnoredMember(Normalize(ch.ignored), v, up.matches);
    }
  }

  /** An empty channel on which an upstream has been detected that offers one name. */
  function Offered(name: string): Channel {
    Channel("", [], [name], [], 0, false)
  }

  lemma {:induction false} OfferedInSync(up: Upstream, name: string)
    requires up.models == [name] && up.mapping == map[] && IsName(name)
    ensures InSync(Offered(name), up)
  {
    var ch := Offered(name);
    NormalizeFixed([name]);
    PendingMeaning(up, ch.GetModels(), ch.ignored);
    assert Addable(up, ch.GetModels(), ch.ignored, name);
    FilterAll([name], x => Addable(up, ch.GetModels(), ch.ignored, x));
  }

  /** Adding the name "a,b" to an empty channel. */
  lemma {:induction false} AddingOneCommaName(matches: Matcher)
    ensures var up, ch := Upstream(["a,b"], map[], matches), Offered("a,b");
      InSync(ch, up) && !InSync(Apply(ch, Selection(["a,b"], [], []), 1), up)
  {
    var up, ch, sel := Upstream(["a,b"], map[], matches), Offered("a,b"), Selection(["a,b"], [], []);
    OfferedInSync(up, "a,b");
    SelectionFacts(ch, up, sel);
    NormalizeFixed(["a,b"]);
    assert "a,b" in SelectedAdd(ch, sel);
    assert "a,b"[1] == ',';
    assert SelectedIgnore(ch, sel) == [];
    CommaNameIsDetectedForEver(ch, up, sel, 1, "a,b");
  }

  /** Ignoring the name "regex:[", whose pattern does not compile and so matches nothing. */
  lemma {:induction false} IgnoringABrokenPattern(matches: Matcher)
    requires forall name :: !matches("[", name)
    ensures var up, ch := Upstream(["regex:["], map[], matches), Offered("regex:[");
      InSync(ch, up) && !InSync(Apply(ch, Selection([], ["regex:["], []), 1), up)
  {
    var up, ch := Upstream(["regex:["], map[], matches), Offered("regex:[");
    OfferedInSync(up, "regex:[");
    assert "regex:["[|REGEX_PREFIX|..] == "[";
    TrimFixed("[", IsSpace);
    IgnoringOneRegexName(ch, up, 1, "regex:[");
  }

  // ---------------------------------------------------------------------------------------------------
  // The operations name by name, whatever the channel holds
  // ---------------------------------------------------------------------------------------------------

  /** The name is pending and the request adds it. */
  predicate Adds(ch: Channel, sel: Selection, x: string) {
    x in Normalize(sel.add) && x in Normalize(ch.detected)
  }

  lemma {:induction false} SelectedMembers(ch: Channel, sel: Selection, x: string)
    ensures IsNormal(SelectedAdd(ch, sel)) && IsNormal(SelectedIgnore(ch, sel)) && IsNormal(SelectedRemove(ch, sel))
    ensures x in SelectedAdd(ch, sel) <==> Adds(ch, sel, x)
    ensures x in SelectedIgnore(ch, sel) <==> x in Normalize(sel.ignore) && x in Normalize(ch.detected)
    ensures x in SelectedRemove(ch, sel) <==>
      x in Normalize(sel.remove) && x in Normalize(ch.removed) && !Adds(ch, sel, x)
  {
    var det, rem := Normalize(ch.detected), Normalize(ch.removed);
    assert IsNormal(det) && IsNormal(rem) && Normalize(det) == det && Normalize(rem) == rem by {
      NormalizeNormal(ch.detected);
      NormalizeNormal(ch.removed);
      NormalizeFixed(det);
      NormalizeFixed(rem);
    }
    NormalizeNormal(sel.add);
    NormalizeNormal(sel.ignore);
    NormalizeNormal(sel.remove);
    KeepMeaning(Normalize(sel.add), det);
    KeepMeaning(Normalize(sel.ignore), det);
    KeepMeaning(Normalize(sel.remove), rem);
    SubtractNormal(Intersect(sel.remove, rem), SelectedAdd(ch, sel));
    DropMeaning(Intersect(sel.remove, rem), SelectedAdd(ch, sel));
  }

  /** A name stays on the pending list of additions exactly if the request neither adds nor ignores it. */
  lemma {:induction false} StillDetected(ch: Channel, sel: Selection, now: int, x: string)
    ensures x in Apply(ch, sel, now).detected <==>
      x in Normalize(ch.detected) && x !in Normalize(sel.add) && x !in Normalize(sel.ignore)
  {
    var det, add, ign := Normalize(ch.detected), SelectedAdd(ch, sel), SelectedIgnore(ch, sel);
    SelectedMembers(ch, sel, x);
    NormalizeNormal(ch.detected);
    SubtractBoth(det, add, ign);
    FilterMembers(det, x => x !in add && x !in ign);
  }

  /** A name stays on the pending list of removals exactly if the request does not remove it, or adds it as well. */
  lemma {:induction false} StillRemoved(ch: Channel, sel: Selection, now: int, x: string)
    ensures x in Apply(ch, sel, now).removed <==>
      x in Normalize(ch.removed) && (x !in Normalize(sel.remove) || Adds(ch, sel, x))
  {
    SelectedMembers(ch, sel, x);
    NormalizeNormal(ch.removed);
    SubtractNormal(Normalize(ch.removed), SelectedRemove(ch, sel));
    DropMeaning(Normalize(ch.removed), SelectedRemove(ch, sel));
  }

  /** A rule is on the ignore list afterwards exactly if it was there or is pending and ignored by the request, and the
      request does not add it. */
  lemma {:induction false} StillIgnored(ch: Channel, sel: Selection, now: int, x: string)
    ensures x in Apply(ch, sel, now).ignored <==>
      && (x in Normalize(ch.ignored) || (x in Normalize(sel.ignore) && x in Normalize(ch.detected)))
      && !Adds(ch, sel, x)
  {
    var ign, add := SelectedIgnore(ch, sel), SelectedAdd(ch, sel);
    var merged := Merge(ch.ignored, ign);
    SelectedMembers(ch, sel, x);
    NormalizeFixed(ign);
    MergeNormal(ch.ignored, ign);
    MergeMeaning(ch.ignored, ign);
    SubtractNormal(merged, add);
    DropMeaning(merged, add);
  }

  /** A name is among the next models exactly if it is local and not removed, or added; the text that is stored is
      theirs, or the old one if nothing changed. Nothing else but the time of the check changes. */
  lemma {:induction false} NextModelsMembers(ch: Channel, sel: Selection, now: int, x: string)
    ensures x in NextModels(ch, sel) <==>
      || Adds(ch, sel, x)
      || (x in Normalize(ch.GetModels()) && !(x in Normalize(sel.remove) && x in Normalize(ch.removed)))
    ensures var ch' := Apply(ch, sel, now);
      && (ch'.models == Join(NextModels(ch, sel), ',') ||
          (ch'.models == ch.models && NextModels(ch, sel) == Normalize(ch.GetModels())))
      && ch'.lastCheck == now && ch'.autoSync == ch.autoSync
  {
    var origin, add, rem := Normalize(ch.GetModels()), SelectedAdd(ch, sel), SelectedRemove(ch, sel);
    SelectedMembers(ch, sel, x);
    NormalizeNormal(ch.GetModels());
    NormalizeFixed(origin);
    NormalizeFixed(add);
    NormalizeFixed(rem);
    ApplySelectedMeaning(origin, add, rem);
    FilterMembers(origin, x => x !in Normalize(rem) || x in Normalize(add));
    FilterMembers(Normalize(add), x => x !in Normalize(origin));
  }

  /** A detection that may apply its findings adds all of them, and counts them; it touches neither the rules nor the
      switch. */
  lemma {:induction false} DetectMeaning(ch: Channel, up: Upstream, allowAutoApply: bool, now: int)
    ensures var add, ch' := PendingAdd(up, ch.GetModels(), ch.ignored), Detect(ch, up, allowAutoApply, now);
      && ch'.removed == PendingRemove(up, ch.GetModels())
      && ch'.lastCheck == now && ch'.ignored == ch.ignored && ch'.autoSync == ch.autoSync
      && (if allowAutoApply && ch.autoSync
          then AutoAdded(ch, up, allowAutoApply) == |add| && ch'.detected == [] &&
               ch'.models == (if add == [] then ch.models else Join(Normalize(ch.GetModels()) + add, ','))
          else AutoAdded(ch, up, allowAutoApply) == 0 && ch'.detected == add && ch'.models == ch.models)
  {
    var origin, add := Normalize(ch.GetModels()), PendingAdd(up, ch.GetModels(), ch.ignored);
    assert Merge(origin, add) == origin + add by {
      NormalizeNormal(ch.GetModels());
      NormalizeFixed(origin);
      NormalizeNormal(Filter(Normalize(up.models), x => Addable(up, ch.GetModels(), ch.ignored, x)));
      NormalizeFixed(add);
      PendingMembers(up, ch.GetModels(), ch.ignored);
      DropNothing(add, origin);
    }
  }
}
