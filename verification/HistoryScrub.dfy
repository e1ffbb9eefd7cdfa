/** The history-merging scrubber: variant keys are merged into history lists and
    removed, then unwanted keys are dropped. */
module HistoryScrub {

  // A number is kept as JSON spells it; two values are equal exactly when their sorted
  // JSON renderings are.
  datatype Value = Null | Flag(b: bool) | Number(spelling: string) | Scalar(s: string) | List(vs: seq<Value>) | Object(fields: map<string, Value>)

  type Doc = map<string, Value>

  datatype Group = Group(canonical: string, history: string, variants: seq<string>)

  const TITLES := Group("title", "title_history", [
    "title", "Title", "Item Title", "Listing title", "item_title",
    "title0", "title1", "title2", "title3", "title4",
    "202112_Title", "tgw_name", "tgw_product_name",
    "name", "Name", "product_name", "m2_name"])

  const DESCRIPTIONS := Group("description", "description_history", [
    "description", "Description", "description1", "description22",
    "ms_description", "condition_description", "gpt_desc", "m2_additional_attributes"])

  const LOCATIONS := Group("location", "location_history", ["location", "#LOCATION", "tgw_location"])

  const GROUPS: seq<Group> := [TITLES, DESCRIPTIONS, LOCATIONS]

  predicate IsVariant(g: Group, k: string) { k in g.variants && k != g.canonical }

  // History keys are no variants, and no key belongs to two groups.
  ghost predicate Separate(gs: seq<Group>) {
    && (forall i, j :: 0 <= i < |gs| && 0 <= j < |gs| ==> !IsVariant(gs[i], gs[j].history))
    && (forall i, j :: 0 <= i < j < |gs| ==> gs[i].history != gs[j].history)
    && (forall i, j, k :: 0 <= i < j < |gs| && IsVariant(gs[i], k) ==> !IsVariant(gs[j], k))
  }

  /* ---- merging without duplicates ---- */

  function Unique(vs: seq<Value>): seq<Value> {
    if vs == [] then []
    else
      var rest, v := Unique(vs[..|vs| - 1]), vs[|vs| - 1];
      if v in rest then rest else rest + [v]
  }

  ghost predicate NoDuplicates(vs: seq<Value>) {
    forall i, j :: 0 <= i < j < |vs| ==> vs[i] != vs[j]
  }

  lemma {:induction false} UniqueKeeps(vs: seq<Value>)
    ensures NoDuplicates(Unique(vs))
    ensures forall v :: v in Unique(vs) <==> v in vs
  {
    if vs != [] {
      UniqueKeeps(vs[..|vs| - 1]);
      assert vs == vs[..|vs| - 1] + [vs[|vs| - 1]];
    }
  }

  lemma UniqueSnoc(vs: seq<Value>, v: Value)
    ensures Unique(vs + [v]) == if v in Unique(vs) then Unique(vs) else Unique(vs) + [v]
  {}

  // The candidates that are not blank.
  function Scalars(cs: seq<string>): seq<Value> {
    if cs == [] then []
    else
      var rest, c := Scalars(cs[..|cs| - 1]), cs[|cs| - 1];
      if c == "" then rest else rest + [Scalar(c)]
  }

  lemma ScalarsSnoc(cs: seq<string>, c: string)
    ensures Scalars(cs + [c]) == if c == "" then Scalars(cs) else Scalars(cs) + [Scalar(c)]
  {}

  lemma {:induction false} ScalarsHold(cs: seq<string>)
    ensures forall c :: c in cs && c != "" ==> Scalar(c) in Scalars(cs)
  {
    if cs != [] {
      ScalarsHold(cs[..|cs| - 1]);
      assert cs == cs[..|cs| - 1] + [cs[|cs| - 1]];
    }
  }

  function Listed(doc: Doc, key: string): seq<Value> {
    if key in doc && doc[key].List? then doc[key].vs else []
  }

  method CollectUnique(existing: seq<Value>, candidates: seq<string>) returns (result: seq<Value>)
    ensures result == Unique(existing + Scalars(candidates))
  {
    hide Unique, Scalars;
    var seen: set<Value> := {};
    result := [];
    UniqueEmpty();
    for i := 0 to |existing|
      invariant result == Unique(existing[..i]) && forall v :: v in seen <==> v in result
    {
      UniqueSnoc(existing[..i], existing[i]);
      assert existing[..i + 1] == existing[..i] + [existing[i]];
      if existing[i] !in seen {
        seen, result := seen + {existing[i]}, result + [existing[i]];
      }
    }
    assert existing[..|existing|] == existing == existing + [] && candidates[..0] == [];
    for i := 0 to |candidates|
      invariant result == Unique(existing + Scalars(candidates[..i])) && forall v :: v in seen <==> v in result
    {
      var c := candidates[i];
      ghost var before := Scalars(candidates[..i]);
      ScalarsSnoc(candidates[..i], c);
      assert candidates[..i + 1] == candidates[..i] + [c];
      if c == "" { continue; }
      UniqueSnoc(existing + before, Scalar(c));
      assert existing + (before + [Scalar(c)]) == existing + before + [Scalar(c)];
      if Scalar(c) !in seen {
        seen, result := seen + {Scalar(c)}, result + [Scalar(c)];
      }
    }
    assert candidates[..|candidates|] == candidates;
  }

  lemma UniqueEmpty()
    ensures Unique([]) == [] && Scalars([]) == []
  {}

  /* ---- one group ---- */

  // `render` is str(...).strip(), for any rendering of values.
  predicate Speaks(render: Value -> string, doc: Doc, g: Group, k: string) {
    k != g.canonical && k in doc && doc[k] != Null && render(doc[k]) != ""
  }

  function Candidates(render: Value -> string, doc: Doc, g: Group, ks: seq<string>): seq<string> {
    if ks == [] then []
    else
      var rest, k := Candidates(render, doc, g, ks[..|ks| - 1]), ks[|ks| - 1];
      if Speaks(render, doc, g, k) then rest + [render(doc[k])] else rest
  }

  lemma {:induction false} CandidatesHold(render: Value -> string, doc: Doc, g: Group, ks: seq<string>)
    ensures forall k :: k in ks && Speaks(render, doc, g, k) ==> render(doc[k]) in Candidates(render, doc, g, ks)
    ensures forall c :: c in Candidates(render, doc, g, ks) ==> c != ""
    ensures (forall k :: k in ks ==> !Speaks(render, doc, g, k)) <==> Candidates(render, doc, g, ks) == []
  {
    if ks != [] {
      CandidatesHold(render, doc, g, ks[..|ks| - 1]);
      assert ks == ks[..|ks| - 1] + [ks[|ks| - 1]];
    }
  }

  function Merged(render: Value -> string, doc: Doc, g: Group): Doc {
    var cs := Candidates(render, doc, g, g.variants);
    if cs == [] then doc else doc[g.history := List(Unique(Listed(doc, g.history) + Scalars(cs)))]
  }

  function Folded(render: Value -> string, doc: Doc, g: Group): Doc {
    Merged(render, doc, g) - (set k | k in g.variants && k != g.canonical)
  }

  function Built(render: Value -> string, doc: Doc, gs: seq<Group>): Doc {
    if gs == [] then doc else Folded(render, Built(render, doc, gs[..|gs| - 1]), gs[|gs| - 1])
  }

  method MergeGroup(render: Value -> string, doc: Doc, g: Group) returns (out: Doc, changed: bool)
    requires !IsVariant(g, g.history)
    ensures out == Folded(render, doc, g)
    ensures changed <==> out != doc
  {
    var candidates: seq<string>, remove: seq<string> := [], [];
    for i := 0 to |g.variants|
      invariant candidates == Candidates(render, doc, g, g.variants[..i])
      invariant forall k :: k in remove <==> k in g.variants[..i] && k != g.canonical && k in doc
    {
      var k := g.variants[i];
      assert g.variants[..i + 1][..i] == g.variants[..i];
      if k == g.canonical { continue; }
      if k in doc {
        if doc[k] != Null && render(doc[k]) != "" { candidates := candidates + [render(doc[k])]; }
        remove := remove + [k];
      }
    }
    assert g.variants[..|g.variants|] == g.variants;
    CandidatesHold(render, doc, g, g.variants);
    out, changed := doc, false;
    if candidates != [] {
      var merged := CollectUnique(Listed(doc, g.history), candidates);
      if g.history !in doc || doc[g.history] != List(merged) {
        out, changed := doc[g.history := List(merged)], true;
      }
    }
    assert out == Merged(render, doc, g);
    out := DeleteKeys(out, remove);
    changed := changed || remove != [];
    assert out == Folded(render, doc, g);
    if remove != [] { assert remove[0] in remove; }
  }

  method DeleteKeys(doc: Doc, ks: seq<string>) returns (out: Doc)
    ensures out == doc - (set k | k in ks)
  {
    out := doc;
    for i := 0 to |ks|
      invariant out == doc - (set k | k in ks[..i])
    {
      assert ks[..i + 1] == ks[..i] + [ks[i]];
      out := out - {ks[i]};
    }
    assert ks[..|ks|] == ks;
  }

  method BuildHistories(render: Value -> string, doc: Doc) returns (out: Doc, changed: bool)
    ensures out == Built(render, doc, GROUPS)
    ensures !changed ==> out == doc
  {
    hide IsVariant, Folded;
    ActualGroups();
    var gs := GROUPS;
    out, changed := doc, false;
    for i := 0 to |gs|
      invariant out == Built(render, doc, gs[..i]) && (!changed ==> out == doc)
    {
      assert gs[..i + 1][..i] == gs[..i];
      var more;
      out, more := MergeGroup(render, out, gs[i]);
      changed := changed || more;
    }
    assert gs[..|gs|] == gs;
  }

  // Telling the key groups apart by a few characters.
  predicate Titleish(k: string) {
    |k| >= 2 && (k[|k| - 1] == 'e' || ('0' <= k[|k| - 1] <= '9' && k[|k| - 2] == 'e'))
  }

  predicate Placeish(k: string) { |k| >= 2 && (k[0] == '#' || k[0] == 't') }

  predicate Historical(k: string) { k != "" && k[|k| - 1] == 'y' }

  lemma TitleKeys()
    ensures forall k :: IsVariant(TITLES, k) ==> Titleish(k) && !Historical(k)
  {
  }

  lemma DescriptionKeys()
    ensures forall k :: IsVariant(DESCRIPTIONS, k) ==> !Titleish(k) && !Placeish(k) && !Historical(k)
  {}

  lemma LocationKeys()
    ensures forall k :: IsVariant(LOCATIONS, k) ==> !Titleish(k) && Placeish(k) && !Historical(k)
  {}

  lemma HistoryKeys()
    ensures Historical(TITLES.history) && Historical(DESCRIPTIONS.history) && Historical(LOCATIONS.history)
    ensures TITLES.history[0] == 't' && DESCRIPTIONS.history[0] == 'd' && LOCATIONS.history[0] == 'l'
  {}

  lemma ActualGroups()
    ensures Separate(GROUPS)
  {
    hide IsVariant, Titleish, Placeish, Historical;
    TitleKeys();
    DescriptionKeys();
    LocationKeys();
    HistoryKeys();
    var gs := GROUPS;
    assert gs[0] == TITLES && gs[1] == DESCRIPTIONS && gs[2] == LOCATIONS && |gs| == 3;
    forall i, j | 0 <= i < |gs| && 0 <= j < |gs| ensures !IsVariant(gs[i], gs[j].history) {
      assert Historical(gs[j].history);
    }
  }

  /* ---- what a whole pass guarantees ---- */

  ghost predicate NoVariants(doc: Doc, gs: seq<Group>) {
    forall i, k :: 0 <= i < |gs| && k in doc ==> !IsVariant(gs[i], k)
  }

  lemma {:induction false} BuiltHasNoVariants(render: Value -> string, doc: Doc, gs: seq<Group>)
    requires Separate(gs)
    ensures NoVariants(Built(render, doc, gs), gs)
  {
    if gs != [] {
      var n := |gs| - 1;
      var mid := Built(render, doc, gs[..n]);
      BuiltHasNoVariants(render, doc, gs[..n]);
      forall i, k | 0 <= i < |gs| && k in Built(render, doc, gs) ensures !IsVariant(gs[i], k) {
        if i < n {
          assert gs[..n][i] == gs[i];
          assert k in mid || k == gs[n].history;
        }
      }
    }
  }

  lemma FoldedUnchanged(render: Value -> string, doc: Doc, g: Group)
    requires forall k :: k in doc ==> !IsVariant(g, k)
    ensures Folded(render, doc, g) == doc
  {
    CandidatesHold(render, doc, g, g.variants);
  }

  lemma {:induction false} BuiltUnchanged(render: Value -> string, doc: Doc, gs: seq<Group>)
    requires NoVariants(doc, gs)
    ensures Built(render, doc, gs) == doc
  {
    if gs != [] {
      var n := |gs| - 1;
      forall i, k | 0 <= i < n && k in doc ensures !IsVariant(gs[..n][i], k) { assert gs[..n][i] == gs[i]; }
      BuiltUnchanged(render, doc, gs[..n]);
      assert forall k :: k in doc ==> !IsVariant(gs[n], k);
      FoldedUnchanged(render, doc, gs[n]);
    }
  }

  // One group: what is said is kept, what was listed is kept, nothing twice.
  lemma FoldedKeeps(render: Value -> string, doc: Doc, g: Group)
    requires !IsVariant(g, g.history)
    ensures forall k :: IsVariant(g, k) && Speaks(render, doc, g, k) ==>
      Scalar(render(doc[k])) in Listed(Folded(render, doc, g), g.history)
    ensures forall v :: v in Listed(doc, g.history) ==> v in Listed(Folded(render, doc, g), g.history)
    ensures NoDuplicates(Listed(doc, g.history)) ==> NoDuplicates(Listed(Folded(render, doc, g), g.history))
    ensures (exists k :: IsVariant(g, k) && Speaks(render, doc, g, k)) ==> NoDuplicates(Listed(Folded(render, doc, g), g.history))
    ensures forall k :: !IsVariant(g, k) && k != g.history && k in doc ==> k in Folded(render, doc, g) && Folded(render, doc, g)[k] == doc[k]
  {
    var cs := Candidates(render, doc, g, g.variants);
    var all := Listed(doc, g.history) + Scalars(cs);
    CandidatesHold(render, doc, g, g.variants);
    ScalarsHold(cs);
    UniqueKeeps(all);
  }

  lemma {:induction false} OtherKeysStay(render: Value -> string, doc: Doc, gs: seq<Group>, k: string)
    requires Separate(gs) && k in doc
    requires forall i :: 0 <= i < |gs| ==> !IsVariant(gs[i], k) && k != gs[i].history
    ensures k in Built(render, doc, gs) && Built(render, doc, gs)[k] == doc[k]
  {
    if gs != [] {
      var n := |gs| - 1;
      OtherKeysStay(render, doc, gs[..n], k);
      FoldedKeeps(render, Built(render, doc, gs[..n]), gs[n]);
    }
  }

  // A group leaves another group's history list alone.
  lemma OtherHistoryStays(render: Value -> string, doc: Doc, g: Group, h: string)
    requires !IsVariant(g, g.history) && !IsVariant(g, h) && h != g.history
    ensures Listed(Folded(render, doc, g), h) == Listed(doc, h)
  {}

  /** Every non-blank variant value ends up in the history list of its group. */
  lemma {:induction false} VariantSurvives(render: Value -> string, doc: Doc, gs: seq<Group>, i: nat, k: string)
    requires Separate(gs) && i < |gs| && IsVariant(gs[i], k) && Speaks(render, doc, gs[i], k)
    ensures Scalar(render(doc[k])) in Listed(Built(render, doc, gs), gs[i].history)
    ensures NoDuplicates(Listed(Built(render, doc, gs), gs[i].history))
  {
    hide IsVariant, Listed, Folded, NoDuplicates;
    var n := |gs| - 1;
    var mid := Built(render, doc, gs[..n]);
    if i < n {
      VariantSurvives(render, doc, gs[..n], i, k);
      OtherHistoryStays(render, mid, gs[n], gs[i].history);
    } else {
      OtherKeysStay(render, doc, gs[..n], k);
      FoldedKeeps(render, mid, gs[n]);
      assert IsVariant(gs[n], k) && Speaks(render, mid, gs[n], k);
    }
  }

  /** Every earlier entry of a list-valued history survives. */
  lemma {:induction false} EarlierSurvives(render: Value -> string, doc: Doc, gs: seq<Group>, i: nat, v: Value)
    requires Separate(gs) && i < |gs| && v in Listed(doc, gs[i].history)
    ensures v in Listed(Built(render, doc, gs), gs[i].history)
  {
    hide IsVariant, Folded;
    var n := |gs| - 1;
    var mid := Built(render, doc, gs[..n]);
    if i < n {
      EarlierSurvives(render, doc, gs[..n], i, v);
      OtherHistoryStays(render, mid, gs[n], gs[i].history);
    } else {
      OtherKeysStay(render, doc, gs[..n], gs[n].history);
      FoldedKeeps(render, mid, gs[n]);
    }
  }

  // Some variant of the group has something to say.
  ghost predicate Spoken(render: Value -> string, doc: Doc, g: Group) {
    exists k :: IsVariant(g, k) && Speaks(render, doc, g, k)
  }

  ghost predicate Keeps(was: Doc, doc: Doc, h: string)
    requires h in was
  {
    h in doc && doc[h] == was[h]
  }

  /** A history value that is no list survives its group's merge exactly when no variant
      of the group has anything to say; otherwise a list takes its place. */
  lemma ScalarHistoryExactly(render: Value -> string, doc: Doc, g: Group)
    requires !IsVariant(g, g.history) && g.history in doc && !doc[g.history].List?
    ensures Keeps(doc, Folded(render, doc, g), g.history) <==> !Spoken(render, doc, g)
  {
    CandidatesHold(render, doc, g, g.variants);
    if !Spoken(render, doc, g) {
      forall k | k in g.variants ensures !Speaks(render, doc, g, k) {
        assert IsVariant(g, k) || k == g.canonical;
      }
    } else {
      var k :| IsVariant(g, k) && Speaks(render, doc, g, k);
      assert render(doc[k]) in Candidates(render, doc, g, g.variants);
    }
  }

  // A pass adds no key but the groups' histories.
  lemma {:induction false} NoNewKeys(render: Value -> string, doc: Doc, gs: seq<Group>, k: string)
    requires k !in doc && forall i :: 0 <= i < |gs| ==> k != gs[i].history
    ensures k !in Built(render, doc, gs)
  {
    if gs != [] { NoNewKeys(render, doc, gs[..|gs| - 1], k); }
  }

  // What a group's variants say is not touched by the groups before it.
  lemma SpokenBefore(render: Value -> string, doc: Doc, gs: seq<Group>)
    requires Separate(gs) && gs != []
    ensures var n := |gs| - 1; Spoken(render, Built(render, doc, gs[..n]), gs[n]) <==> Spoken(render, doc, gs[n])
  {
    hide Built;
    var n := |gs| - 1;
    var mid := Built(render, doc, gs[..n]);
    forall k | IsVariant(gs[n], k) ensures Speaks(render, mid, gs[n], k) <==> Speaks(render, doc, gs[n], k) {
      if k in doc { OtherKeysStay(render, doc, gs[..n], k); } else { NoNewKeys(render, doc, gs[..n], k); }
    }
  }

  /** The same for a whole pass: it turns on that one group alone. */
  lemma {:induction false} ScalarHistoryInPass(render: Value -> string, doc: Doc, gs: seq<Group>, i: nat)
    requires Separate(gs) && i < |gs| && gs[i].history in doc && !doc[gs[i].history].List?
    ensures Keeps(doc, Built(render, doc, gs), gs[i].history) <==> !Spoken(render, doc, gs[i])
  {
    hide IsVariant, Spoken, Folded;
    var n := |gs| - 1;
    var mid, h := Built(render, doc, gs[..n]), gs[i].history;
    if i < n {
      ScalarHistoryInPass(render, doc, gs[..n], i);
      OneKeyStays(render, mid, gs[n], h);
    } else {
      OtherKeysStay(render, doc, gs[..n], h);
      ScalarHistoryExactly(render, mid, gs[n]);
      SpokenBefore(render, doc, gs);
    }
  }

  lemma OneKeyStays(render: Value -> string, doc: Doc, g: Group, h: string)
    requires !IsVariant(g, g.history) && !IsVariant(g, h) && h != g.history
    ensures h in Folded(render, doc, g) <==> h in doc
    ensures h in doc ==> Folded(render, doc, g)[h] == doc[h]
  {}

  /* ---- the second pass ---- */

  datatype Rules = Rules(preserve: set<string>, exact: set<string>, matches: string -> bool)

  predicate ShouldRemove(r: Rules, k: string) {
    if k in {TITLES.history, DESCRIPTIONS.history, LOCATIONS.history} then false
    else if k in r.preserve then false
    else k in r.exact || r.matches(k)
  }

  function Scrubbed(r: Rules, doc: Doc): Doc {
    map k | k in doc && !ShouldRemove(r, k) :: doc[k]
  }

  method ScrubKeys(r: Rules, doc: Doc) returns (cleaned: Doc, removed: set<string>)
    ensures cleaned == Scrubbed(r, doc)
    ensures removed == set k | k in doc && ShouldRemove(r, k)
  {
    cleaned, removed := map[], {};
    var todo := doc.Keys;
    while todo != {}
      invariant todo <= doc.Keys
      invariant cleaned == map k | k in doc && k !in todo && !ShouldRemove(r, k) :: doc[k]
      invariant removed == set k | k in doc && k !in todo && ShouldRemove(r, k)
      decreases todo
    {
      var k :| k in todo;
      todo := todo - {k};
      if ShouldRemove(r, k) {
        removed := removed + {k};
      } else {
        cleaned := cleaned[k := doc[k]];
      }
    }
  }

  function Processed(render: Value -> string, r: Rules, doc: Doc): Doc {
    Scrubbed(r, Built(render, doc, GROUPS))
  }

  /** Merging and scrubbing twice is the same as once. */
  lemma Idempotent(render: Value -> string, r: Rules, doc: Doc)
    ensures Processed(render, r, Processed(render, r, doc)) == Processed(render, r, doc)
  {
    hide IsVariant;
    var once := Processed(render, r, doc);
    ActualGroups();
    BuiltHasNoVariants(render, doc, GROUPS);
    assert NoVariants(once, GROUPS);
    BuiltUnchanged(render, once, GROUPS);
  }

  /** The scrub never drops a history list, so whatever the merge kept stays. */
  lemma HistoriesStay(r: Rules, doc: Doc, i: nat)
    requires i < |GROUPS|
    ensures Listed(Scrubbed(r, doc), GROUPS[i].history) == Listed(doc, GROUPS[i].history)
  {}

  /** Which keys the scrub keeps: the history lists, what the rules preserve, and whatever
      neither list nor pattern removes. */
  lemma KeptExactly(r: Rules, doc: Doc, k: string)
    requires k in doc
    ensures k in Scrubbed(r, doc) <==>
      || k == "title_history" || k == "description_history" || k == "location_history"
      || k in r.preserve || (k !in r.exact && !r.matches(k))
    ensures k in Scrubbed(r, doc) ==> Scrubbed(r, doc)[k] == doc[k]
  {}

  /** Removing duplicates keeps the first occurrence of every value, in order. */
  lemma {:induction false} FirstOccurrences(vs: seq<Value>) returns (at: seq<nat>)
    ensures FirstAt(vs, Unique(vs), at)
  {
    at := [];
    if vs != [] {
      hide FirstAt;
      var n := |vs| - 1;
      at := FirstOccurrences(vs[..n]);
      UniqueKeeps(vs[..n]);
      FirstMore(vs[..n], vs[n], Unique(vs[..n]), at);
      assert vs == vs[..n] + [vs[n]];
      if vs[n] !in Unique(vs[..n]) { at := at + [n]; }
    }
  }

  // `us` are the values at the positions `at`, which increase, and none stands earlier.
  ghost predicate FirstAt(vs: seq<Value>, us: seq<Value>, at: seq<nat>) {
    && |at| == |us|
    && (forall x :: 0 <= x < |at| ==> at[x] < |vs| && us[x] == vs[at[x]])
    && (forall x, y :: 0 <= x < y < |at| ==> at[x] < at[y])
    && (forall x, i :: 0 <= x < |at| && 0 <= i < at[x] ==> vs[i] != us[x])
  }

  lemma FirstMore(vs: seq<Value>, v: Value, us: seq<Value>, at: seq<nat>)
    requires FirstAt(vs, us, at)
    ensures FirstAt(vs + [v], us, at)
    ensures v !in vs ==> FirstAt(vs + [v], us + [v], at + [|vs|])
  {}

  lemma {:induction false} ScalarsOnly(cs: seq<string>)
    ensures forall v :: v in Scalars(cs) ==> v.Scalar? && v.s in cs && v.s != ""
  {
    if cs != [] {
      ScalarsOnly(cs[..|cs| - 1]);
      assert cs == cs[..|cs| - 1] + [cs[|cs| - 1]];
    }
  }

  lemma {:induction false} CandidatesOnly(render: Value -> string, doc: Doc, g: Group, ks: seq<string>)
    ensures forall c :: c in Candidates(render, doc, g, ks) ==>
      exists k :: k in ks && Speaks(render, doc, g, k) && c == render(doc[k])
  {
    if ks != [] {
      CandidatesOnly(render, doc, g, ks[..|ks| - 1]);
      assert ks == ks[..|ks| - 1] + [ks[|ks| - 1]];
    }
  }

  /** A merged history holds nothing but earlier entries and values of the group's
      variants. */
  lemma NothingElse(render: Value -> string, doc: Doc, g: Group, v: Value)
    requires !IsVariant(g, g.history) && v in Listed(Folded(render, doc, g), g.history)
    ensures v in Listed(doc, g.history)
      || exists k :: IsVariant(g, k) && Speaks(render, doc, g, k) && v == Scalar(render(doc[k]))
  {
    var cs := Candidates(render, doc, g, g.variants);
    UniqueKeeps(Listed(doc, g.history) + Scalars(cs));
    ScalarsOnly(cs);
    CandidatesOnly(render, doc, g, g.variants);
    if v !in Listed(doc, g.history) {
      assert v in Scalars(cs);
      var k :| k in g.variants && Speaks(render, doc, g, k) && v.s == render(doc[k]);
      assert IsVariant(g, k);
    }
  }
}
