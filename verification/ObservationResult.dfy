/** Terminals, persistence contexts and the validator of host-state observation
    results. */
module ObservationResult {
  import opened Wrappers

  datatype Verdict = PASS | HOLD | FAILED | AMBIGUOUS

  datatype Stage = Complete | Prelaunch | Remote | Authority | Dispatch | Persistence

  datatype Code =
    | NONE | NOT_READY | VALIDATION_FAILED | HOST_NOT_READY | HELPER_FAILED
    | TOKEN_UNCERTAIN | DISPATCH_UNCERTAIN | PERSISTENCE_UNCERTAIN

  datatype Kind = Kind(verdict: Verdict, stage: Stage, code: Code, dispatched: bool)

  datatype Terminal = Terminal(kind: Kind, request: string, diagnostic: string)

  const Passed := Kind(PASS, Complete, NONE, true)
  const HostNotReady := Kind(HOLD, Remote, HOST_NOT_READY, true)
  const HelperFailed := Kind(FAILED, Remote, HELPER_FAILED, true)
  const TokenUncertain := Kind(AMBIGUOUS, Authority, TOKEN_UNCERTAIN, false)
  const DispatchUncertain := Kind(AMBIGUOUS, Dispatch, DISPATCH_UNCERTAIN, true)

  function PersistenceUncertain(dispatched: bool): Kind {
    Kind(AMBIGUOUS, Persistence, PERSISTENCE_UNCERTAIN, dispatched)
  }

  const AllTerminals: set<Kind> := {
    Passed, Kind(HOLD, Prelaunch, NOT_READY, false), Kind(FAILED, Prelaunch, VALIDATION_FAILED, false),
    HostNotReady, HelperFailed, TokenUncertain, DispatchUncertain,
    PersistenceUncertain(false), PersistenceUncertain(true)
  }

  const Origins: set<Kind> := {Passed, HostNotReady, HelperFailed, TokenUncertain, DispatchUncertain}

  const Produced: set<Kind> := Origins + {PersistenceUncertain(false), PersistenceUncertain(true)}

  // The documents of an evidence bundle, reduced to the fields that the
  // validator compares.
  datatype Doc =
    | RequestDoc(sha: string)
    | ReceiptDoc(sha: string)
    | FailureDoc(request: string, terminal: string, composition: string, sha: string)
    | TerminalDoc(terminalValue: Terminal)
    | GrantDoc(sha: string, compositionSha: string, tokenRoot: string, evidenceRoot: string)
    | GrantAuthorityDoc(grant: string, authority: string, stable: bool)
    | TokenRootDoc(root: string)
    | CompositionDoc(sha: string, tokenRoot: string, evidenceRoot: string)
    | DependencyDoc(receipt: string, ssh: string, descriptor: string)
    | ManifestDoc(requestItem: Item, receiptItem: Item, archive: Item, items: map<string, Item>)
    | ContextDoc(bare: Context)

  datatype Item = Item(sha: string, size: nat)

  type Bundle = map<string, Doc>

  // canonical JSON and SHA-256; nothing is assumed of either.
  datatype Codec = Codec(canonical: Doc -> string, digest: string -> string)

  // What the controller has validated before it consumes the token.
  datatype World = World(request: string, ssh: string, composition: string, grant: string,
                         authority: string, tokenRoot: string, evidenceRoot: string,
                         receiptOk: Doc -> bool, readinessDiagnostics: set<string>)

  datatype Context = Context(attempt: string, path: string, attempted: Doc, original: Terminal,
                             observedReceipt: Option<Doc>, observedDependency: Option<Doc>,
                             attachments: Bundle, expected: map<string, Item>, sha: string)

  datatype Result = Result(composition: string, evidenceRoot: string, terminal: Terminal,
                           receipt: Option<Doc>, dependency: Option<Doc>, evidence: bool,
                           persistence: Option<Context>)

  function ItemOf(c: Codec, d: Doc): Item {
    Item(c.digest(c.canonical(d)), |c.canonical(d)|)
  }

  function Sha(c: Codec, d: Doc): string { c.digest(c.canonical(d)) }

  function Archive(c: Codec): Item { Item(c.digest(""), 0) }

  predicate ValidTerminal(w: World, t: Terminal) {
    && t.kind in AllTerminals && t.request == w.request && |t.diagnostic| <= 256
    && (t.kind == HostNotReady ==> t.diagnostic in w.readinessDiagnostics)
  }

  function Grant(w: World): Doc { GrantDoc(w.grant, w.composition, w.tokenRoot, w.evidenceRoot) }

  function Composition(w: World): Doc { CompositionDoc(w.composition, w.tokenRoot, w.evidenceRoot) }

  function Project(w: World, receipt: Doc): Doc
    requires receipt.ReceiptDoc?
  {
    DependencyDoc(receipt.sha, w.ssh, w.composition)
  }

  function Failure(c: Codec, w: World, t: Terminal): Doc {
    var terminal := Sha(c, TerminalDoc(t));
    FailureDoc(w.request, terminal, w.composition, Sha(c, FailureDoc(w.request, terminal, w.composition, "")))
  }

  // The receipt hash that names the attempt directory.
  function ReceiptSha(d: Doc): string {
    if d.ReceiptDoc? || d.FailureDoc? then d.sha else ""
  }

  function Expected(c: Codec, w: World, receipt: Doc, attachments: Bundle): map<string, Item> {
    var request := ItemOf(c, RequestDoc(w.request));
    var items := map n | n in attachments :: ItemOf(c, attachments[n]);
    var manifest := ManifestDoc(request, ItemOf(c, receipt), Archive(c), items);
    map["request.json" := request, "receipt.json" := ItemOf(c, receipt), "archive.tar" := Archive(c)]
    + items + map["manifest.json" := ItemOf(c, manifest)]
  }

  // The hash of a context covers every field but itself.
  function ContextSha(c: Codec, x: Context): string { Sha(c, ContextDoc(x.(sha := ""))) }

  // The files of an attempt that are no attachments.
  const OwnNames: set<string> := {"request.json", "receipt.json", "archive.tar", "manifest.json"}

  /** The inventory of an attempt names its own four files and every attachment, each
      attachment and the receipt by their own hash and length. */
  lemma ExpectedExactly(c: Codec, w: World, receipt: Doc, attachments: Bundle)
    requires attachments.Keys !! OwnNames
    ensures var x := Expected(c, w, receipt, attachments);
      && x.Keys == attachments.Keys + OwnNames
      && x["receipt.json"] == ItemOf(c, receipt) && x["request.json"] == ItemOf(c, RequestDoc(w.request))
      && x["archive.tar"] == Item(c.digest(""), 0)
      && (forall n :: n in attachments ==> x[n].sha == Sha(c, attachments[n]) && x[n].size == |c.canonical(attachments[n])|)
  {
    assert "manifest.json" in OwnNames && "request.json" in OwnNames && "receipt.json" in OwnNames && "archive.tar" in OwnNames;
  }

  /* ---- what the evidence store attaches and builds ---- */

  function Attached(w: World, t: Terminal, stable: bool): Bundle {
    map["terminal.json" := TerminalDoc(t), "grant.json" := Grant(w),
        "grant-authority.json" := GrantAuthorityDoc(w.grant, w.authority, stable),
        "token-root.json" := TokenRootDoc(w.tokenRoot), "composition.json" := Composition(w)]
  }

  function AttachedPass(w: World, t: Terminal, stable: bool, dependency: Doc): Bundle {
    Attached(w, t, stable)["dependency.json" := dependency]
  }

  function Published(w: World, receipt: Doc, attachments: Bundle): Bundle {
    attachments["request.json" := RequestDoc(w.request)]["receipt.json" := receipt]
  }

  function BuildContext(c: Codec, w: World, receipt: Doc, attachments: Bundle, original: Terminal,
                        observedReceipt: Option<Doc>, observedDependency: Option<Doc>): Context
  {
    var attempt := ReceiptSha(receipt);
    var bare := Context(attempt, w.evidenceRoot + "/" + attempt, receipt, original, observedReceipt,
                        observedDependency, attachments, Expected(c, w, receipt, attachments), "");
    bare.(sha := ContextSha(c, bare))
  }

  /* ---- the validator ---- */

  const CommonNames: set<string> :=
    {"terminal.json", "grant.json", "grant-authority.json", "token-root.json", "composition.json"}

  // The five authority documents that every bundle carries.
  predicate AuthorityOk(w: World, b: Bundle, t: Terminal) {
    && "terminal.json" in b && b["terminal.json"] == TerminalDoc(t)
    && "grant.json" in b && b["grant.json"] == Grant(w)
    && "grant-authority.json" in b && b["grant-authority.json"].GrantAuthorityDoc?
    && b["grant-authority.json"].grant == w.grant && b["grant-authority.json"].authority == w.authority
    && (t.kind.verdict != AMBIGUOUS ==> b["grant-authority.json"].stable)
    && "token-root.json" in b && b["token-root.json"] == TokenRootDoc(w.tokenRoot)
    && "composition.json" in b && b["composition.json"] == Composition(w)
  }

  predicate ValidContext(c: Codec, w: World, x: Context, dispatched: bool) {
    && x.sha == ContextSha(c, x)
    && ValidTerminal(w, x.original) && x.original.kind in Origins && x.original.kind.dispatched == dispatched
    && x.attachments.Keys == CommonNames + (if x.original.kind.verdict == PASS then {"dependency.json"} else {})
    && AuthorityOk(w, x.attachments, x.original)
    && (if x.original.kind.verdict == PASS then
          && x.observedReceipt.Some? && x.observedReceipt.value.ReceiptDoc? && w.receiptOk(x.observedReceipt.value)
          && x.attempted == x.observedReceipt.value
          && x.observedDependency == Some(Project(w, x.observedReceipt.value))
          && x.attachments["dependency.json"] == x.observedDependency.value
        else
          x.observedReceipt == None && x.observedDependency == None && x.attempted == Failure(c, w, x.original))
    && x.attempt == ReceiptSha(x.attempted) && x.path == w.evidenceRoot + "/" + x.attempt
    && x.expected == Expected(c, w, x.attempted, x.attachments)
  }

  // `found` is what reading the evidence references back yields; None when the
  // result carries none.
  predicate ValidResult(c: Codec, w: World, r: Result, found: Option<Bundle>) {
    && r.composition == w.composition && r.evidenceRoot == w.evidenceRoot
    && ValidTerminal(w, r.terminal) && r.terminal.kind in Produced
    && r.evidence == found.Some?
    && (if r.terminal.kind.code == PERSISTENCE_UNCERTAIN then
          !r.evidence && r.persistence.Some? && ValidContext(c, w, r.persistence.value, r.terminal.kind.dispatched)
        else r.persistence == None)
    && (found.Some? ==>
          && "request.json" in found.value && found.value["request.json"] == RequestDoc(w.request)
          && AuthorityOk(w, found.value, r.terminal))
    && (if r.terminal.kind.verdict == PASS then
          && r.receipt.Some? && r.receipt.value.ReceiptDoc? && w.receiptOk(r.receipt.value)
          && r.dependency == Some(Project(w, r.receipt.value))
          && found.Some?
          && "receipt.json" in found.value && found.value["receipt.json"] == r.receipt.value
          && "dependency.json" in found.value && found.value["dependency.json"] == r.dependency.value
        else
          && r.receipt == None && r.dependency == None
          && (r.terminal.kind.dispatched && r.terminal.kind.code != PERSISTENCE_UNCERTAIN ==> found.Some?)
          && (found.Some? ==>
                && "receipt.json" in found.value && found.value["receipt.json"] == Failure(c, w, r.terminal)
                && "dependency.json" !in found.value))
  }

  /* ---- what the controller produces is what the validator accepts ---- */

  function Bare(w: World, t: Terminal): Result {
    Result(w.composition, w.evidenceRoot, t, None, None, true, None)
  }

  lemma FailureResultValid(c: Codec, w: World, t: Terminal, stable: bool)
    requires ValidTerminal(w, t) && t.kind in Origins && t.kind != Passed
    requires t.kind.verdict != AMBIGUOUS ==> stable
    ensures ValidResult(c, w, Bare(w, t), Some(Published(w, Failure(c, w, t), Attached(w, t, stable))))
  {
  }

  lemma PassResultValid(c: Codec, w: World, t: Terminal, receipt: Doc)
    requires ValidTerminal(w, t) && t.kind == Passed && receipt.ReceiptDoc? && w.receiptOk(receipt)
    ensures var dep := Project(w, receipt);
      ValidResult(c, w, Bare(w, t).(receipt := Some(receipt), dependency := Some(dep)),
                  Some(Published(w, receipt, AttachedPass(w, t, true, dep))))
  {
  }

  lemma FailureContextValid(c: Codec, w: World, t: Terminal, stable: bool)
    requires ValidTerminal(w, t) && t.kind in Origins && t.kind != Passed
    requires t.kind.verdict != AMBIGUOUS ==> stable
    ensures ValidContext(c, w, BuildContext(c, w, Failure(c, w, t), Attached(w, t, stable), t, None, None), t.kind.dispatched)
  {
  }

  lemma PassContextValid(c: Codec, w: World, t: Terminal, receipt: Doc)
    requires ValidTerminal(w, t) && t.kind == Passed && receipt.ReceiptDoc? && w.receiptOk(receipt)
    ensures var dep := Project(w, receipt);
      ValidContext(c, w, BuildContext(c, w, receipt, AttachedPass(w, t, true, dep), t, Some(receipt), Some(dep)), true)
  {
    hide Expected, Failure, Sha;
  }

  // The only context the validator accepts for a given origin: the one the
  // evidence store builds.
  function Rebuilt(c: Codec, w: World, x: Context, stable: bool): Context {
    if x.original.kind.verdict == PASS && x.observedReceipt.Some? && x.observedReceipt.value.ReceiptDoc? then
      var receipt := x.observedReceipt.value;
      var dep := Project(w, receipt);
      BuildContext(c, w, receipt, AttachedPass(w, x.original, stable, dep), x.original, Some(receipt), Some(dep))
    else
      BuildContext(c, w, Failure(c, w, x.original), Attached(w, x.original, stable), x.original, None, None)
  }

  lemma CommonDetermined(w: World, b: Bundle, t: Terminal)
    requires AuthorityOk(w, b, t) && b.Keys == CommonNames
    ensures b == Attached(w, t, b["grant-authority.json"].stable)
  {}

  lemma PassDetermined(w: World, b: Bundle, t: Terminal)
    requires AuthorityOk(w, b, t) && b.Keys == CommonNames + {"dependency.json"}
    ensures b == AttachedPass(w, t, b["grant-authority.json"].stable, b["dependency.json"])
  {}

  lemma ContextDetermined(c: Codec, w: World, x: Context, dispatched: bool)
    requires ValidContext(c, w, x, dispatched)
    ensures x == Rebuilt(c, w, x, x.attachments["grant-authority.json"].stable)
  {
    if x.original.kind.verdict == PASS {
      PassDetermined(w, x.attachments, x.original);
    } else {
      assert x.attachments.Keys == CommonNames;
      CommonDetermined(w, x.attachments, x.original);
    }
  }

  /* ---- what acceptance means to a reader of the result ---- */

  lemma AcceptedShape(c: Codec, w: World, r: Result, found: Option<Bundle>)
    requires ValidResult(c, w, r, found)
    ensures r.receipt.Some? <==> r.terminal.kind.verdict == PASS
    ensures r.dependency.Some? <==> r.terminal.kind.verdict == PASS
    ensures r.persistence.Some? <==> r.terminal.kind.code == PERSISTENCE_UNCERTAIN
    ensures r.terminal.kind.dispatched ==> (r.evidence <==> r.persistence.None?)
  {}

  /** An origin is accepted without evidence references exactly when it is
      TOKEN_UNCERTAIN. */
  lemma WithoutEvidenceExactly(c: Codec, w: World, t: Terminal)
    requires ValidTerminal(w, t) && t.kind in Origins
    ensures ValidResult(c, w, Bare(w, t).(evidence := false), None) <==> t.kind == TokenUncertain
  {}

  /** Whatever is accepted without evidence references is TOKEN_UNCERTAIN or
      PERSISTENCE_UNCERTAIN. */
  lemma WithoutEvidence(c: Codec, w: World, r: Result, found: Option<Bundle>)
    requires ValidResult(c, w, r, found) && !r.evidence
    ensures r.terminal.kind == TokenUncertain || r.terminal.kind.code == PERSISTENCE_UNCERTAIN
  {}
}
