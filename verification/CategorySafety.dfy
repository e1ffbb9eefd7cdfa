/** The legacy-category scrub together with the category recompile: an item
    never loses its category signal, whatever the order of runs. */
module CategorySafety {
  import opened Wrappers

  datatype Value = Null | Flag(b: bool) | Number(n: int) | Text(s: string) | Items(vs: seq<Value>) | Record(fields: map<string, Value>)

  type Doc = map<string, Value>

  const NUMBER := "eBay category 1 number"
  const NAME := "eBay category 1 name"
  const CATEGORY_ID := "ebay_category_id"
  const CATEGORY_NAME := "ebay_category_name"
  const DRAFT := "draft_listing"
  const VERIFIED := "catalog_verified"

  const FIELDS_TO_CHECK: seq<string> := [
    "Item number", "#STATUS", "attribute_set", "m2_categories", "category_ids",
    "ebay_condition_number", NAME, NUMBER,
    "C:Brand", "C:Type", "C:MPN", "C:Model", "C:Language", "C:Movie/TV Title", "input_voltage"]

  const LEGACY: set<string> := {NAME, NUMBER}

  predicate Truthy(v: Value) {
    match v
    case Null => false
    case Flag(b) => b
    case Number(n) => n != 0
    case Text(s) => s != ""
    case Items(vs) => vs != []
    case Record(fields) => fields != map[]
  }

  predicate Has(doc: Doc, f: string) { f in doc && Truthy(doc[f]) }

  // A truthy draft listing that is no mapping makes the reader raise.
  predicate Readable(doc: Doc) { Has(doc, DRAFT) ==> doc[DRAFT].Record? }

  predicate Canonical(doc: Doc)
    requires Readable(doc)
  {
    (Has(doc, DRAFT) && Has(doc[DRAFT].fields, "category_id")) || Has(doc, CATEGORY_ID)
  }

  // `render` is str(...).strip(), for any rendering of values.
  function LegacyId(render: Value -> string, doc: Doc): string {
    if Has(doc, NUMBER) then render(doc[NUMBER]) else ""
  }

  predicate Signal(render: Value -> string, doc: Doc)
    requires Readable(doc)
  {
    Canonical(doc) || LegacyId(render, doc) != ""
  }

  /* ---- the scan of one item ---- */

  datatype Class = Safe | Exceptional | NoHistory | Held

  function Classify(render: Value -> string, doc: Doc, hist: Doc, f: string): Class
    requires Readable(doc) && f in doc
  {
    if f in LEGACY && !Canonical(doc) then Held
    else if f in hist && render(hist[f]) == render(doc[f]) then Safe
    else if f !in hist then NoHistory
    else Exceptional
  }

  // The checked fields of the document in one class, in order.
  function Chosen(render: Value -> string, doc: Doc, hist: Doc, c: Class, fs: seq<string>): seq<string>
    requires Readable(doc)
  {
    if fs == [] then []
    else
      var rest := Chosen(render, doc, hist, c, fs[..|fs| - 1]);
      var f := fs[|fs| - 1];
      if f in doc && Classify(render, doc, hist, f) == c then rest + [f] else rest
  }

  function Present(doc: Doc, fs: seq<string>): nat {
    if fs == [] then 0 else Present(doc, fs[..|fs| - 1]) + if fs[|fs| - 1] in doc then 1 else 0
  }

  lemma ScanNext(render: Value -> string, doc: Doc, hist: Doc, fs: seq<string>, i: nat)
    requires Readable(doc) && i < |fs|
    ensures forall c ::
      Chosen(render, doc, hist, c, fs[..i + 1]) ==
      Chosen(render, doc, hist, c, fs[..i]) + if fs[i] in doc && Classify(render, doc, hist, fs[i]) == c then [fs[i]] else []
    ensures Present(doc, fs[..i + 1]) == Present(doc, fs[..i]) + if fs[i] in doc then 1 else 0
  {
    assert fs[..i + 1][..i] == fs[..i];
  }

  lemma ScanNone(render: Value -> string, doc: Doc, hist: Doc)
    requires Readable(doc)
    ensures Present(doc, []) == 0 && forall c :: Chosen(render, doc, hist, c, []) == []
  {}

  method ScanItem(render: Value -> string, doc: Doc, hist: Doc)
    returns (safe: seq<string>, exceptions: seq<string>, noHistory: nat, held: seq<string>)
    requires Readable(doc)
    ensures safe == Chosen(render, doc, hist, Safe, FIELDS_TO_CHECK)
    ensures exceptions == Chosen(render, doc, hist, Exceptional, FIELDS_TO_CHECK)
    ensures held == Chosen(render, doc, hist, Held, FIELDS_TO_CHECK)
    ensures noHistory == |Chosen(render, doc, hist, NoHistory, FIELDS_TO_CHECK)|
    ensures |safe| + |exceptions| + noHistory + |held| == Present(doc, FIELDS_TO_CHECK)
  {
    hide Chosen, Present, Canonical;
    safe, exceptions, noHistory, held := [], [], 0, [];
    ScanNone(render, doc, hist);
    var canonical, fs := Canonical(doc), FIELDS_TO_CHECK;
    for i := 0 to |fs|
      invariant safe == Chosen(render, doc, hist, Safe, fs[..i])
      invariant exceptions == Chosen(render, doc, hist, Exceptional, fs[..i])
      invariant held == Chosen(render, doc, hist, Held, fs[..i])
      invariant noHistory == |Chosen(render, doc, hist, NoHistory, fs[..i])|
      invariant |safe| + |exceptions| + noHistory + |held| == Present(doc, fs[..i])
    {
      var f := fs[i];
      ScanNext(render, doc, hist, fs, i);
      if f !in doc { continue; }
      if f in LEGACY && !canonical {
        held := held + [f];
      } else if f in hist && render(hist[f]) == render(doc[f]) {
        safe := safe + [f];
      } else if f !in hist {
        noHistory := noHistory + 1;
      } else {
        exceptions := exceptions + [f];
      }
    }
    assert fs[..|fs|] == fs;
  }

  /* ---- writes ---- */

  // items.strip_fields
  function Strip(doc: Doc, fs: seq<string>): Doc {
    var present := set f | f in fs && f in doc;
    if present == {} then doc else doc - present - {VERIFIED}
  }

  // items.set_fields with only_if_absent
  function Fill(doc: Doc, id: string, name: string): Doc {
    var setId, setName := !Has(doc, CATEGORY_ID), !Has(doc, CATEGORY_NAME);
    if !setId && !setName then doc
    else
      var a := if setId then doc[CATEGORY_ID := Text(id)] else doc;
      var b := if setName then a[CATEGORY_NAME := Text(name)] else a;
      b - {VERIFIED}
  }

  /* ---- the recompile ---- */

  datatype Found = Found(id: string, name: string)

  datatype Source = LegacyPromotion | TgwCatalog | MasterBySkuOld | SearchCsv

  // The three catalogs, each holding non-empty category ids only, under lower-case
  // keys; `lower` is str.lower.
  datatype Sources = Sources(bySku: map<string, Found>, bySkuOld: map<string, Found>, bySearch: map<string, Found>,
                             lower: string -> string)

  predicate Usable(src: Sources) {
    && (forall k :: k in src.bySku ==> src.bySku[k].id != "")
    && (forall k :: k in src.bySkuOld ==> src.bySkuOld[k].id != "")
    && (forall k :: k in src.bySearch ==> src.bySearch[k].id != "")
  }

  // First match wins; the old SKU comes stripped and in lower case.
  function Lookup(src: Sources, sku: string, skuOld: string): Option<(Found, Source)> {
    var key := src.lower(sku);
    if key in src.bySku then Some((src.bySku[key], TgwCatalog))
    else if skuOld in src.bySkuOld then Some((src.bySkuOld[skuOld], MasterBySkuOld))
    else if key in src.bySearch then Some((src.bySearch[key], SearchCsv))
    else None
  }

  function Recovery(render: Value -> string, src: Sources, sku: string, skuOld: string, doc: Doc): Option<(Found, Source)>
    requires Readable(doc)
  {
    if Canonical(doc) then None
    else if LegacyId(render, doc) != "" then
      Some((Found(LegacyId(render, doc), if Has(doc, NAME) then render(doc[NAME]) else ""), LegacyPromotion))
    else Lookup(src, sku, skuOld)
  }

  method Recompile(render: Value -> string, src: Sources, skus: seq<string>, docs: map<string, Doc>, skuOld: map<string, string>)
    returns (recovered: map<string, (Found, Source)>, already: nat, promoted: nat, missing: nat, scanned: nat)
    requires forall k :: k in docs ==> Readable(docs[k]) && k in skuOld
    requires forall i, j :: 0 <= i < j < |skus| ==> skus[i] != skus[j]
    ensures forall k :: k in recovered <==> k in skus && k in docs && Recovery(render, src, k, skuOld[k], docs[k]).Some?
    ensures forall k :: k in recovered ==> Recovery(render, src, k, skuOld[k], docs[k]) == Some(recovered[k])
    ensures scanned == already + |recovered| + missing && promoted <= |recovered|
  {
    hide Lookup;
    recovered, already, promoted, missing, scanned := map[], 0, 0, 0, 0;
    for i := 0 to |skus|
      invariant forall k :: k in recovered <==> k in skus[..i] && k in docs && Recovery(render, src, k, skuOld[k], docs[k]).Some?
      invariant forall k :: k in recovered ==> Recovery(render, src, k, skuOld[k], docs[k]) == Some(recovered[k])
      invariant scanned == already + |recovered| + missing && promoted <= |recovered|
    {
      var sku := skus[i];
      assert skus[..i + 1] == skus[..i] + [sku] && sku !in skus[..i];
      if sku !in docs { continue; }
      var doc := docs[sku];
      scanned := scanned + 1;
      if Canonical(doc) {
        already := already + 1;
        continue;
      }
      var legacy := LegacyId(render, doc);
      if legacy != "" {
        recovered := recovered[sku := (Found(legacy, if Has(doc, NAME) then render(doc[NAME]) else ""), LegacyPromotion)];
        promoted := promoted + 1;
        continue;
      }
      var hit := Lookup(src, sku, skuOld[sku]);
      if hit == None {
        missing := missing + 1;
      } else {
        recovered := recovered[sku := hit.value];
      }
    }
    assert skus[..|skus|] == skus;
  }

  /* ---- any interleaving of runs ---- */

  // Every plan and every recovery report ever written may be applied, late or
  // more than once.
  datatype System = System(docs: map<string, Doc>, plans: seq<map<string, seq<string>>>, reports: seq<map<string, Found>>)

  datatype Event =
    | Scan(hist: map<string, Doc>)
    | ApplyPlan(k: nat)
    | Report(src: Sources, skuOld: map<string, string>)
    | ApplyReport(k: nat)

  function ScanPlan(render: Value -> string, docs: map<string, Doc>, hist: map<string, Doc>): map<string, seq<string>> {
    map sku | sku in docs && Readable(docs[sku]) ::
      Chosen(render, docs[sku], if sku in hist then hist[sku] else map[], Safe, FIELDS_TO_CHECK)
  }

  function RecoveryReport(render: Value -> string, docs: map<string, Doc>, src: Sources, skuOld: map<string, string>): map<string, Found> {
    map sku | sku in docs && Readable(docs[sku]) &&
              Recovery(render, src, sku, if sku in skuOld then skuOld[sku] else "", docs[sku]).Some? ::
      Recovery(render, src, sku, if sku in skuOld then skuOld[sku] else "", docs[sku]).value.0
  }

  function Step(render: Value -> string, s: System, ev: Event): System {
    match ev
    case Scan(hist) => s.(plans := s.plans + [ScanPlan(render, s.docs, hist)])
    case ApplyPlan(k) =>
      if k >= |s.plans| then s
      else s.(docs := map sku | sku in s.docs :: if sku in s.plans[k] then Strip(s.docs[sku], s.plans[k][sku]) else s.docs[sku])
    case Report(src, skuOld) => s.(reports := s.reports + [RecoveryReport(render, s.docs, src, skuOld)])
    case ApplyReport(k) =>
      if k >= |s.reports| then s
      else s.(docs := map sku | sku in s.docs ::
        if sku in s.reports[k] then Fill(s.docs[sku], s.reports[k][sku].id, s.reports[k][sku].name) else s.docs[sku])
  }

  function Run(render: Value -> string, s: System, evs: seq<Event>): System
    decreases |evs|
  {
    if evs == [] then s else Run(render, Step(render, s, evs[0]), evs[1..])
  }

  ghost predicate LegalEvent(ev: Event) { ev.Report? ==> Usable(ev.src) }

  // A plan that strips a category field was made for an item whose canonical
  // category is (still) there; a report carries real ids.
  ghost predicate Inv(s: System) {
    && (forall sku :: sku in s.docs ==> Readable(s.docs[sku]))
    && (forall k, sku :: 0 <= k < |s.plans| && sku in s.plans[k] && sku in s.docs ==> PlanOk(s.docs[sku], s.plans[k][sku]))
    && (forall k, sku :: 0 <= k < |s.reports| && sku in s.reports[k] ==> s.reports[k][sku].id != "")
  }

  ghost predicate PlanOk(doc: Doc, fs: seq<string>)
    requires Readable(doc)
  {
    && (forall f :: f in fs ==> f in FIELDS_TO_CHECK)
    && (NUMBER in fs ==> Canonical(doc))
  }

  lemma {:induction false} ChosenSafe(render: Value -> string, doc: Doc, hist: Doc, fs: seq<string>)
    requires Readable(doc)
    ensures forall f :: f in Chosen(render, doc, hist, Safe, fs) ==> f in fs
    ensures NUMBER in Chosen(render, doc, hist, Safe, fs) ==> Canonical(doc)
  {
    if fs != [] {
      ChosenSafe(render, doc, hist, fs[..|fs| - 1]);
    }
  }

  lemma StripKeeps(render: Value -> string, doc: Doc, fs: seq<string>)
    requires Readable(doc) && PlanOk(doc, fs)
    ensures Readable(Strip(doc, fs)) && (Canonical(doc) ==> Canonical(Strip(doc, fs)))
    ensures Signal(render, doc) ==> Signal(render, Strip(doc, fs))
  {
    assert CATEGORY_ID !in FIELDS_TO_CHECK && DRAFT !in FIELDS_TO_CHECK;
    assert CATEGORY_ID != VERIFIED && DRAFT != VERIFIED && NUMBER != VERIFIED;
    var t := Strip(doc, fs);
    assert forall f :: f !in fs && f != VERIFIED && f in doc ==> f in t && t[f] == doc[f];
  }

  lemma FillKeeps(render: Value -> string, doc: Doc, id: string, name: string)
    requires Readable(doc) && id != ""
    ensures Readable(Fill(doc, id, name)) && Canonical(Fill(doc, id, name))
    ensures forall f :: f != VERIFIED && Has(doc, f) ==> f in Fill(doc, id, name) && Fill(doc, id, name)[f] == doc[f]
  {}

  lemma StepKeeps(render: Value -> string, s: System, ev: Event, sku: string)
    requires Inv(s) && LegalEvent(ev) && sku in s.docs
    ensures var t := Step(render, s, ev);
      && Inv(t) && sku in t.docs
      && (Signal(render, s.docs[sku]) ==> Signal(render, t.docs[sku]))
  {
    var t := Step(render, s, ev);
    match ev
    case Scan(hist) =>
      forall k | k in s.docs ensures PlanOk(s.docs[k], ScanPlan(render, s.docs, hist)[k]) {
        ChosenSafe(render, s.docs[k], if k in hist then hist[k] else map[], FIELDS_TO_CHECK);
      }
    case ApplyPlan(k) =>
      if k < |s.plans| {
        forall x | x in s.docs && x in s.plans[k]
          ensures Readable(t.docs[x]) && (Canonical(s.docs[x]) ==> Canonical(t.docs[x]))
          ensures Signal(render, s.docs[x]) ==> Signal(render, t.docs[x])
        {
          StripKeeps(render, s.docs[x], s.plans[k][x]);
        }
      }
    case Report(src, skuOld) =>
    case ApplyReport(k) =>
      if k < |s.reports| {
        forall x | x in s.docs && x in s.reports[k] ensures Readable(t.docs[x]) && Canonical(t.docs[x]) {
          FillKeeps(render, s.docs[x], s.reports[k][x].id, s.reports[k][x].name);
        }
      }
  }

  /** Over every interleaving of scans, late or repeated applications and
      promotions, an item that has a category signal keeps one. */
  lemma {:induction false} SignalNeverLost(render: Value -> string, s: System, evs: seq<Event>, sku: string)
    requires Inv(s) && sku in s.docs && (forall ev :: ev in evs ==> LegalEvent(ev))
    ensures var t := Run(render, s, evs);
      && Inv(t) && sku in t.docs
      && (Signal(render, s.docs[sku]) ==> Signal(render, t.docs[sku]))
    decreases |evs|
  {
    if evs != [] {
      StepKeeps(render, s, evs[0], sku);
      SignalNeverLost(render, Step(render, s, evs[0]), evs[1..], sku);
    }
  }

  /** Which values count as absent, and which items are canonical: those with any other
      value under the draft's category id or the item's own. */
  lemma CanonicalExactly(doc: Doc)
    requires Readable(doc)
    ensures var falsy := {Null, Flag(false), Number(0), Text(""), Items([]), Record(map[])};
      && (forall v: Value {:trigger Truthy(v)} :: Truthy(v) <==> v !in falsy)
      && (Canonical(doc) <==>
            || ("ebay_category_id" in doc && doc["ebay_category_id"] !in falsy)
            || ("draft_listing" in doc && doc["draft_listing"].Record? && "category_id" in doc["draft_listing"].fields
                && doc["draft_listing"].fields["category_id"] !in falsy))
  {}

  /** Which class a field falls in, said without the classifier: held is a category field of
      an item without a canonical one; of the others, safe and exceptional are those with a
      history that renders alike or not. */
  lemma ClassExactly(render: Value -> string, doc: Doc, hist: Doc, f: string)
    requires Readable(doc) && f in doc
    ensures var held := f in {"eBay category 1 name", "eBay category 1 number"} && !Canonical(doc);
      var c := Classify(render, doc, hist, f);
      && (c == Held <==> held)
      && (c == NoHistory <==> !held && f !in hist)
      && (c == Safe <==> !held && f in hist && render(hist[f]) == render(doc[f]))
      && (c == Exceptional <==> !held && f in hist && render(hist[f]) != render(doc[f]))
  {}

  /** A class's list holds exactly the checked fields of that class that are present. */
  lemma {:induction false} ChosenExactly(render: Value -> string, doc: Doc, hist: Doc, c: Class, fs: seq<string>, f: string)
    requires Readable(doc)
    ensures f in Chosen(render, doc, hist, c, fs) <==> f in fs && f in doc && Classify(render, doc, hist, f) == c
  {
    hide Classify;
    if fs != [] {
      ChosenExactly(render, doc, hist, c, fs[..|fs| - 1], f);
      assert fs == fs[..|fs| - 1] + [fs[|fs| - 1]];
    }
  }

  /** A later catalog is used only when every earlier one has nothing. */
  lemma LookupOrder(src: Sources, sku: string, skuOld: string)
    ensures var r := Lookup(src, sku, skuOld);
      && (r.Some? <==> src.lower(sku) in src.bySku || skuOld in src.bySkuOld || src.lower(sku) in src.bySearch)
      && (src.lower(sku) in src.bySku ==> r == Some((src.bySku[src.lower(sku)], TgwCatalog)))
      && (r.Some? && r.value.1 == MasterBySkuOld ==>
            src.lower(sku) !in src.bySku && skuOld in src.bySkuOld && r.value.0 == src.bySkuOld[skuOld])
      && (r.Some? && r.value.1 == SearchCsv ==>
            && src.lower(sku) !in src.bySku && skuOld !in src.bySkuOld
            && src.lower(sku) in src.bySearch && r.value.0 == src.bySearch[src.lower(sku)])
  {}

  /** What an item that is not canonical gets: the id and the name its legacy fields
      render to, if the id is not blank, and otherwise what the catalogs have. Writing it
      leaves exactly that id in the item. */
  lemma RecoveredExactly(render: Value -> string, src: Sources, sku: string, skuOld: string, doc: Doc)
    requires Readable(doc)
    ensures var r := Recovery(render, src, sku, skuOld, doc);
      var id := if Has(doc, "eBay category 1 number") then render(doc["eBay category 1 number"]) else "";
      var name := if Has(doc, "eBay category 1 name") then render(doc["eBay category 1 name"]) else "";
      && (Canonical(doc) ==> r == None)
      && (!Canonical(doc) && id != "" ==> r == Some((Found(id, name), LegacyPromotion)))
      && (!Canonical(doc) && id == "" ==> r == Lookup(src, sku, skuOld))
      && (r.Some? ==> "ebay_category_id" in Fill(doc, r.value.0.id, r.value.0.name)
                      && Fill(doc, r.value.0.id, r.value.0.name)["ebay_category_id"] == Text(r.value.0.id))
  {
    var r := Recovery(render, src, sku, skuOld, doc);
    if r.Some? { FillExactly(doc, r.value.0.id, r.value.0.name); }
  }

  /** What a strip removes: the named fields that are there, and the verification mark if
      there was one to remove. */
  lemma StripExactly(doc: Doc, fs: seq<string>)
    ensures forall f :: f in Strip(doc, fs) <==>
      f in doc && f !in fs && (f == "catalog_verified" ==> forall g :: g in fs ==> g !in doc)
    ensures forall f :: f in Strip(doc, fs) ==> Strip(doc, fs)[f] == doc[f]
  {
    var present := set f | f in fs && f in doc;
    assert present == {} <==> forall g :: g in fs ==> g !in doc by {
      if g :| g in fs && g in doc { assert g in present; }
    }
  }

  /** What a promotion writes: the id and the name, each where nothing counts as present;
      a write removes the verification mark, and nothing else changes. */
  lemma FillExactly(doc: Doc, id: string, name: string)
    ensures var t := Fill(doc, id, name);
      && (!Has(doc, "ebay_category_id") ==> "ebay_category_id" in t && t["ebay_category_id"] == Text(id))
      && (!Has(doc, "ebay_category_name") ==> "ebay_category_name" in t && t["ebay_category_name"] == Text(name))
      && (forall f :: f !in {"ebay_category_id", "ebay_category_name", "catalog_verified"} ==>
            (f in t <==> f in doc) && (f in t && f in doc ==> t[f] == doc[f]))
      && ("catalog_verified" in t <==>
            "catalog_verified" in doc && Has(doc, "ebay_category_id") && Has(doc, "ebay_category_name"))
  {
    assert |CATEGORY_ID| == 16 && |CATEGORY_NAME| == 18;
    assert VERIFIED[0] == 'c' && CATEGORY_ID[0] == 'e' && CATEGORY_NAME[0] == 'e';
  }
}
