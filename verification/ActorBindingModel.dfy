/** Directory entries, effects, retirements and the local phases that one
    actor-binding transaction moves through. */
module ActorBindingModel {
  import opened Wrappers

  type Name = string

  datatype Meta = Meta(uid: nat, gid: nat, mode: nat)

  // What a name holds.  `Other` stands for directories, devices and the like,
  // which no comparison of the transaction accepts.
  datatype Kind =
    | Link(target: string, meta: Meta)
    | Regular(content: string, meta: Meta)
    | Other

  datatype Entry = Entry(ino: nat, kind: Kind)

  type Dir = map<Name, Entry>

  // The desired binding.  A link is compared by its target alone; a file by
  // content and metadata.
  datatype Want = WantLink(source: string) | WantFile(content: string, meta: Meta)

  // Where a link is followed from: the directory of a destination-parent name, or
  // the transaction root.
  datatype Site = Beside(n: Name) | Inside

  // What the transaction reads and does not own: the content a link target leads to
  // from a site, and the registration projected into a composite store, which may be
  // refused.
  datatype Host = Host(refer: (Site, string) -> Option<string>, project: (Name, string) -> Option<string>)

  // `projected`: the desired file is the registration projected into the store that
  // was there.  `referent`: the recorded content behind an adopted link.
  datatype Effect = Effect(dest: Name, stage: Name, backup: Option<Name>, pre: Option<Kind>, want: Want,
                           projected: bool, referent: Option<string>)

  datatype Retirement = Retirement(path: Name, retained: Name, pre: Kind, referent: string, adopted: bool)

  datatype Observation = Observation(dest: Name, pre: Option<Kind>)

  datatype Plan = Plan(effects: seq<Effect>, retirements: seq<Retirement>, observations: seq<Observation>)

  datatype Status = PLANNED | APPLYING | APPLIED | ROLLING_BACK | ROLLED_BACK

  datatype Journal = Journal(status: Status, retired: set<Name>, completed: set<Name>)

  // How one attempt ends: it returns, it raises, or the process dies.
  datatype Outcome = Done | Raised | Cut

  function Look(d: Dir, n: Name): Option<Kind> {
    if n in d then Some(d[n].kind) else None
  }

  predicate IsWant(k: Option<Kind>, w: Want) {
    match (k, w)
    case (Some(Link(target, _)), WantLink(source)) => target == source
    case (Some(Regular(content, meta)), WantFile(c, m)) => content == c && meta == m
    case _ => false
  }

  function Made(w: Want, ino: nat, meta: Meta): (e: Entry)
    ensures IsWant(Some(e.kind), w)
  {
    match w
    case WantLink(source) => Entry(ino, Link(source, meta))
    case WantFile(content, m) => Entry(ino, Regular(content, m))
  }

  /** An entry passes for the desired one exactly when it is what writing the stage
      makes, for some owner and mode of a link. */
  lemma WantedExactly(k: Option<Kind>, w: Want)
    ensures IsWant(k, w) <==> exists meta :: k == Some(Made(w, 0, meta).kind)
    ensures forall meta :: Made(w, 0, meta).kind == (if w.WantLink? then Link(w.source, meta) else Regular(w.content, w.meta))
  {
    if IsWant(k, w) {
      var meta := if k.value.Link? then k.value.meta else Meta(0, 0, 0);
      assert k == Some(Made(w, 0, meta).kind);
    }
  }

  // renameat2(RENAME_NOREPLACE) between two directories: None when the source
  // is missing or the target name is taken.
  function Move(src: Dir, dst: Dir, s: Name, d: Name): Option<(Dir, Dir)> {
    if s in src && d !in dst then Some((src - {s}, dst[d := src[s]])) else None
  }

  function Held(e: Effect, t: Dir): Option<Kind> {
    if e.backup.Some? then Look(t, e.backup.value) else None
  }

  // An entry is the recorded one: same kind, and a link still leads, from where it is
  // now, to the recorded content.
  predicate Matches(h: Host, site: Site, found: Option<Kind>, pre: Option<Kind>, referent: Option<string>) {
    found == pre && (found.Some? && referent.Some? ==> Leads(h, site, found.value, referent.value))
  }

  predicate Leads(h: Host, site: Site, k: Kind, referent: string) {
    k.Link? ==> h.refer(site, k.target) == Some(referent)
  }

  predicate PreAt(h: Host, e: Effect, p: Dir) { Matches(h, Beside(e.dest), Look(p, e.dest), e.pre, e.referent) }

  predicate PreHeld(h: Host, e: Effect, t: Dir)
    requires e.backup.Some?
  {
    Matches(h, Inside, Look(t, e.backup.value), e.pre, e.referent)
  }

  // A rollback finds the preimage at the destination and a backup beside it.
  predicate AmbiguousBackup(h: Host, e: Effect, p: Dir, t: Dir) {
    PreAt(h, e, p) && e.backup.Some? && e.backup.value in t
  }

  predicate SiblingAt(h: Host, r: Retirement, p: Dir) {
    Matches(h, Beside(r.path), Look(p, r.path), Some(r.pre), Some(r.referent))
  }

  predicate SiblingHeld(h: Host, r: Retirement, t: Dir) {
    Matches(h, Inside, Look(t, r.retained), Some(r.pre), Some(r.referent))
  }

  // The sibling is neither where it was found nor recognizably retained.
  predicate SiblingRefused(h: Host, r: Retirement, p: Dir, t: Dir) {
    !SiblingAt(h, r, p) && !SiblingHeld(h, r, t)
  }

  // Moved to the transaction root, the link still leads to the recorded content.
  predicate Portable(h: Host, r: Retirement) { Leads(h, Inside, r.pre, r.referent) }

  ghost predicate AllPortable(h: Host, plan: Plan) {
    forall j :: 0 <= j < |plan.retirements| ==> Portable(h, plan.retirements[j])
  }

  // Both comparisons of an effect's preimage come down to its kind.
  ghost predicate Followed(h: Host, e: Effect) {
    e.pre.Some? && e.referent.Some? ==>
      Leads(h, Beside(e.dest), e.pre.value, e.referent.value) && Leads(h, Inside, e.pre.value, e.referent.value)
  }

  /* ---- local phases of one effect ---- */

  ghost predicate Untouched(e: Effect, p: Dir, t: Dir) {
    Look(p, e.dest) == e.pre && Look(t, e.stage) == None && Held(e, t) == None
  }

  ghost predicate Staged(e: Effect, p: Dir, t: Dir) {
    Look(p, e.dest) == e.pre && IsWant(Look(t, e.stage), e.want) && Held(e, t) == None
  }

  ghost predicate Parted(e: Effect, p: Dir, t: Dir) {
    e.pre.Some? && Look(p, e.dest) == None && IsWant(Look(t, e.stage), e.want) && Held(e, t) == e.pre
  }

  ghost predicate Emptied(e: Effect, p: Dir, t: Dir) {
    e.pre.Some? && Look(p, e.dest) == None && Look(t, e.stage) == None && Held(e, t) == e.pre
  }

  ghost predicate Placed(e: Effect, p: Dir, t: Dir) {
    IsWant(Look(p, e.dest), e.want) && Look(t, e.stage) == None && Held(e, t) == e.pre
  }

  // An adopted effect whose legacy sibling has not been retired yet.
  ghost predicate Waiting(e: Effect, p: Dir, t: Dir) {
    Look(p, e.dest) == None && Look(t, e.stage) == None && Held(e, t) == None
  }

  ghost predicate Forward(e: Effect, p: Dir, t: Dir) {
    Emptied(e, p, t) || Parted(e, p, t) || Placed(e, p, t)
  }

  ghost predicate Backward(e: Effect, p: Dir, t: Dir) {
    Untouched(e, p, t) || Staged(e, p, t)
  }

  /* ---- local phases of one retirement ---- */

  ghost predicate InPlace(r: Retirement, p: Dir, t: Dir) {
    Look(p, r.path) == Some(r.pre) && Look(t, r.retained) == None
  }

  ghost predicate Retired(r: Retirement, p: Dir, t: Dir) {
    Look(p, r.path) == None && Look(t, r.retained) == Some(r.pre)
  }

  // Neither the sibling nor its retained copy is there any more.
  predicate Gone(r: Retirement, p: Dir, t: Dir) {
    Look(p, r.path) == None && Look(t, r.retained) == None
  }

  /* ---- whole plans ---- */

  ghost predicate AdoptedName(plan: Plan, n: Name) {
    exists j :: 0 <= j < |plan.retirements| && plan.retirements[j].adopted && plan.retirements[j].retained == n
  }

  ghost predicate Adopts(plan: Plan, e: Effect) {
    e.backup.Some? && AdoptedName(plan, e.backup.value)
  }

  ghost predicate EffectNames(es: seq<Effect>) {
    && (forall i, j :: 0 <= i < j < |es| ==> es[i].dest != es[j].dest)
    && (forall i, j :: 0 <= i < j < |es| ==> es[i].stage != es[j].stage)
    && (forall i, j :: 0 <= i < j < |es| && es[i].backup.Some? ==> es[i].backup != es[j].backup)
    && (forall i, j :: 0 <= i < |es| && 0 <= j < |es| ==> es[i].backup != Some(es[j].stage))
  }

  ghost predicate RetirementNames(rs: seq<Retirement>) {
    && (forall i, j :: 0 <= i < j < |rs| ==> rs[i].path != rs[j].path)
    && (forall i, j :: 0 <= i < j < |rs| ==> rs[i].retained != rs[j].retained)
  }

  ghost predicate Crossing(es: seq<Effect>, rs: seq<Retirement>) {
    forall i, j :: 0 <= i < |es| && 0 <= j < |rs| ==>
      && es[i].dest != rs[j].path
      && es[i].stage != rs[j].retained
      && (es[i].backup == Some(rs[j].retained) ==> rs[j].adopted && es[i].pre == Some(rs[j].pre))
  }

  ghost predicate SameBut(a: Dir, b: Dir, but: set<Name>) {
    forall n :: n !in but ==> (n in a <==> n in b) && (n in a && n in b ==> a[n] == b[n])
  }

  ghost function TxNames(e: Effect): set<Name> {
    {e.stage} + if e.backup.Some? then {e.backup.value} else {}
  }

  ghost predicate ValidEffect(e: Effect) {
    (e.backup.Some? <==> e.pre.Some?) && !IsWant(e.pre, e.want)
  }

  // What planning guarantees: names derived from distinct paths are distinct,
  // a backup exists exactly for a non-absent preimage, and no effect is
  // planned for a destination that is already current.  Of an adopted sibling
  // planning does not check that it differs from the desired link; that is assumed.
  ghost predicate ValidPlan(plan: Plan) {
    && EffectNames(plan.effects)
    && RetirementNames(plan.retirements)
    && Crossing(plan.effects, plan.retirements)
    && (forall i :: 0 <= i < |plan.effects| ==> ValidEffect(plan.effects[i]))
    && (forall j :: 0 <= j < |plan.retirements| ==> plan.retirements[j].pre.Link?)
    && (forall j :: 0 <= j < |plan.retirements| && plan.retirements[j].adopted ==>
          exists i :: 0 <= i < |plan.effects| && plan.effects[i].backup == Some(plan.retirements[j].retained))
    && (forall k, i :: 0 <= k < |plan.observations| && 0 <= i < |plan.effects| ==>
          plan.observations[k].dest != plan.effects[i].dest)
    && (forall k, j :: 0 <= k < |plan.observations| && 0 <= j < |plan.retirements| ==>
          plan.observations[k].dest != plan.retirements[j].path)
  }

  // The content a projection was made from.
  function Projectable(e: Effect): Option<string> {
    match e.pre
    case None => Some("")
    case Some(Regular(content, _)) => Some(content)
    case Some(Link(_, _)) => e.referent
    case Some(Other) => None
  }

  // What planning read of the host: links lead to the recorded contents from where
  // they were found, and every projected effect wants the projection of its preimage.
  ghost predicate GroundedEffect(h: Host, plan: Plan, i: nat)
    requires i < |plan.effects|
  {
    var e := plan.effects[i];
    && (e.referent.Some? && e.pre.Some? ==> Leads(h, Beside(e.dest), e.pre.value, e.referent.value))
    && (e.referent.Some? ==>
          exists j :: 0 <= j < |plan.retirements| && e.backup == Some(plan.retirements[j].retained)
                      && e.referent == Some(plan.retirements[j].referent))
    && (e.projected ==>
          && e.want.WantFile? && Projectable(e).Some?
          && h.project(e.dest, Projectable(e).value) == Some(e.want.content))
  }

  ghost predicate Grounded(h: Host, plan: Plan) {
    && (forall j :: 0 <= j < |plan.retirements| ==>
          Leads(h, Beside(plan.retirements[j].path), plan.retirements[j].pre, plan.retirements[j].referent))
    && (forall i :: 0 <= i < |plan.effects| ==> GroundedEffect(h, plan, i))
  }

  lemma AllFollowed(h: Host, plan: Plan, i: nat)
    requires ValidPlan(plan) && Grounded(h, plan) && AllPortable(h, plan) && i < |plan.effects|
    ensures Followed(h, plan.effects[i])
  {
    var e := plan.effects[i];
    assert GroundedEffect(h, plan, i);
    if e.pre.Some? && e.referent.Some? {
      var j :| 0 <= j < |plan.retirements| && e.backup == Some(plan.retirements[j].retained)
               && e.referent == Some(plan.retirements[j].referent);
      assert Portable(h, plan.retirements[j]);
    }
  }

  ghost predicate ParentName(plan: Plan, n: Name) {
    || (exists i :: 0 <= i < |plan.effects| && plan.effects[i].dest == n)
    || (exists j :: 0 <= j < |plan.retirements| && plan.retirements[j].path == n)
  }

  ghost predicate TxName(plan: Plan, n: Name) {
    || (exists i :: 0 <= i < |plan.effects| && (plan.effects[i].stage == n || plan.effects[i].backup == Some(n)))
    || (exists j :: 0 <= j < |plan.retirements| && plan.retirements[j].retained == n)
  }

  ghost predicate SameAt(a: Dir, b: Dir, n: Name) {
    (n in a <==> n in b) && (n in a && n in b ==> a[n] == b[n])
  }

  ghost predicate Elsewhere(plan: Plan, p0: Dir, t0: Dir, p: Dir, t: Dir) {
    && (forall n :: !ParentName(plan, n) ==> SameAt(p0, p, n))
    && (forall n :: !TxName(plan, n) ==> SameAt(t0, t, n))
  }

  // The disk as planning found it.
  ghost predicate Start(plan: Plan, p: Dir, t: Dir) {
    && (forall i :: 0 <= i < |plan.effects| ==>
          if Adopts(plan, plan.effects[i]) then Waiting(plan.effects[i], p, t)
          else Untouched(plan.effects[i], p, t))
    && (forall j :: 0 <= j < |plan.retirements| ==> InPlace(plan.retirements[j], p, t))
  }

  // Every binding that was current at planning is still so.
  ghost predicate Observed(plan: Plan, p: Dir) {
    forall k :: 0 <= k < |plan.observations| ==> Look(p, plan.observations[k].dest) == plan.observations[k].pre
  }

  ghost predicate ApplyingEffect(plan: Plan, e: Effect, p: Dir, t: Dir) {
    if Adopts(plan, e) then Waiting(e, p, t) || Forward(e, p, t)
    else Backward(e, p, t) || Forward(e, p, t)
  }

  // Every disk an apply that was cut off any number of times can leave.
  ghost predicate ApplyInv(plan: Plan, p: Dir, t: Dir) {
    && (forall i :: 0 <= i < |plan.effects| ==> ApplyingEffect(plan, plan.effects[i], p, t))
    && (forall j :: 0 <= j < |plan.retirements| ==>
          InPlace(plan.retirements[j], p, t) || Retired(plan.retirements[j], p, t))
  }

  ghost predicate RollingEffect(plan: Plan, e: Effect, p: Dir, t: Dir) {
    Backward(e, p, t) || Forward(e, p, t) || (Adopts(plan, e) && Waiting(e, p, t))
  }

  ghost predicate RollingRetirement(r: Retirement, p: Dir, t: Dir) {
    InPlace(r, p, t) || Retired(r, p, t) || (r.adopted && Gone(r, p, t))
  }

  // Every disk a rollback that was cut off any number of times can leave.
  ghost predicate RollInv(plan: Plan, p: Dir, t: Dir) {
    && (forall i :: 0 <= i < |plan.effects| ==> RollingEffect(plan, plan.effects[i], p, t))
    && (forall j :: 0 <= j < |plan.retirements| ==> RollingRetirement(plan.retirements[j], p, t))
    && Linked(plan, p, t)
  }

  // Effect i adopts sibling j.
  ghost predicate Pair(plan: Plan, i: nat, j: nat) {
    i < |plan.effects| && j < |plan.retirements| && plan.effects[i].backup == Some(plan.retirements[j].retained)
  }

  // An adopted preimage is at its destination exactly when its sibling is gone.
  ghost predicate Linked(plan: Plan, p: Dir, t: Dir) {
    forall i, j :: 0 <= i < |plan.effects| && 0 <= j < |plan.retirements| && Pair(plan, i, j) ==>
      (Backward(plan.effects[i], p, t) <==> Gone(plan.retirements[j], p, t))
  }

  // Some adopted sibling has already been handed to its destination.
  ghost predicate HandedBack(plan: Plan, p: Dir, t: Dir) {
    exists j :: 0 <= j < |plan.retirements| && Gone(plan.retirements[j], p, t)
  }

  ghost predicate AllRetired(plan: Plan, p: Dir, t: Dir) {
    forall j :: 0 <= j < |plan.retirements| ==> Retired(plan.retirements[j], p, t)
  }

  ghost predicate AllPlaced(plan: Plan, p: Dir, t: Dir) {
    forall i :: 0 <= i < |plan.effects| ==> Placed(plan.effects[i], p, t)
  }

  ghost predicate Converged(plan: Plan, p: Dir, t: Dir) {
    AllPlaced(plan, p, t) && AllRetired(plan, p, t)
  }

  ghost predicate Restored(plan: Plan, p: Dir, t: Dir) {
    && (forall i :: 0 <= i < |plan.effects| ==> Untouched(plan.effects[i], p, t))
    && (forall j :: 0 <= j < |plan.retirements| ==>
          if plan.retirements[j].adopted then Gone(plan.retirements[j], p, t)
          else InPlace(plan.retirements[j], p, t))
  }

  // The journal never runs ahead of the disk.
  ghost predicate Truthful(plan: Plan, j: Journal, p: Dir, t: Dir) {
    && (j.status in {PLANNED, APPLYING, APPLIED} ==>
          && (forall i :: 0 <= i < |plan.effects| && plan.effects[i].dest in j.completed ==>
                Placed(plan.effects[i], p, t))
          && (forall k :: 0 <= k < |plan.retirements| && plan.retirements[k].path in j.retired ==>
                Retired(plan.retirements[k], p, t)))
    && (j.status == APPLIED ==> Converged(plan, p, t))
    && (j.status == ROLLED_BACK ==> Restored(plan, p, t))
  }

  ghost predicate Inv(plan: Plan, p0: Dir, t0: Dir, j: Journal, p: Dir, t: Dir) {
    && Elsewhere(plan, p0, t0, p, t)
    && (if j.status in {PLANNED, APPLYING, APPLIED} then ApplyInv(plan, p, t) else RollInv(plan, p, t))
    && Truthful(plan, j, p, t)
    && (j.status == APPLIED ==> Observed(plan, p))
  }

  lemma StartIsApplying(plan: Plan, p: Dir, t: Dir)
    requires ValidPlan(plan) && Start(plan, p, t)
    ensures Inv(plan, p, t, Journal(PLANNED, {}, {}), p, t)
  {}

  lemma ApplyingIsRolling(plan: Plan, p: Dir, t: Dir)
    requires ValidPlan(plan) && ApplyInv(plan, p, t)
    ensures RollInv(plan, p, t) && !HandedBack(plan, p, t)
  {
    forall i, j | 0 <= i < |plan.effects| && 0 <= j < |plan.retirements| && Pair(plan, i, j)
      ensures !Backward(plan.effects[i], p, t)
    {
      assert Adopts(plan, plan.effects[i]);
      assert ApplyingEffect(plan, plan.effects[i], p, t);
    }
  }

  // Without adoption a completed rollback leaves the very disk planning saw.
  lemma RestoredIsStart(plan: Plan, p0: Dir, t0: Dir, p: Dir, t: Dir)
    requires ValidPlan(plan) && Start(plan, p0, t0)
    requires forall j :: 0 <= j < |plan.retirements| ==> !plan.retirements[j].adopted
    requires Restored(plan, p, t) && Elsewhere(plan, p0, t0, p, t)
    ensures forall n :: Look(p, n) == Look(p0, n) && Look(t, n) == Look(t0, n)
  {
    forall n ensures Look(p, n) == Look(p0, n) && Look(t, n) == Look(t0, n) {
      if !ParentName(plan, n) { assert SameAt(p0, p, n); }
      if !TxName(plan, n) { assert SameAt(t0, t, n); }
    }
  }

  /* ---- a step on one effect or retirement leaves the others alone ---- */

  lemma OtherEffect(plan: Plan, i: nat, k: nat, p: Dir, t: Dir, p': Dir, t': Dir)
    requires ValidPlan(plan) && i < |plan.effects| && k < |plan.effects| && i != k
    requires SameBut(p, p', {plan.effects[i].dest}) && SameBut(t, t', TxNames(plan.effects[i]))
    ensures var e := plan.effects[k];
      Look(p, e.dest) == Look(p', e.dest) && Look(t, e.stage) == Look(t', e.stage) && Held(e, t) == Held(e, t')
  {}

  lemma EffectThenRetirement(plan: Plan, i: nat, j: nat, p: Dir, t: Dir, p': Dir, t': Dir)
    requires ValidPlan(plan) && i < |plan.effects| && j < |plan.retirements|
    requires SameBut(p, p', {plan.effects[i].dest}) && SameBut(t, t', TxNames(plan.effects[i]))
    ensures Look(p, plan.retirements[j].path) == Look(p', plan.retirements[j].path)
    ensures plan.effects[i].backup != Some(plan.retirements[j].retained) ==>
      Look(t, plan.retirements[j].retained) == Look(t', plan.retirements[j].retained)
  {}

  lemma RetirementThenEffect(plan: Plan, j: nat, i: nat, p: Dir, t: Dir, p': Dir, t': Dir)
    requires ValidPlan(plan) && i < |plan.effects| && j < |plan.retirements|
    requires SameBut(p, p', {plan.retirements[j].path}) && SameBut(t, t', {plan.retirements[j].retained})
    ensures var e := plan.effects[i];
      && Look(p, e.dest) == Look(p', e.dest) && Look(t, e.stage) == Look(t', e.stage)
      && (e.backup != Some(plan.retirements[j].retained) ==> Held(e, t) == Held(e, t'))
  {}

  lemma StepElsewhere(plan: Plan, p0: Dir, t0: Dir, p: Dir, t: Dir, p': Dir, t': Dir, ps: set<Name>, ts: set<Name>)
    requires Elsewhere(plan, p0, t0, p, t) && SameBut(p, p', ps) && SameBut(t, t', ts)
    requires forall n :: n in ps ==> ParentName(plan, n)
    requires forall n :: n in ts ==> TxName(plan, n)
    ensures Elsewhere(plan, p0, t0, p', t')
  {}

  /* ---- apply steps keep the apply invariant ---- */

  // One (possibly cut-off) run of apply on effect i.
  ghost predicate EffectMoved(plan: Plan, i: nat, p: Dir, t: Dir, p': Dir, t': Dir)
    requires i < |plan.effects|
  {
    var e := plan.effects[i];
    && SameBut(p, p', {e.dest}) && SameBut(t, t', TxNames(e))
    && (Backward(e, p', t') || Forward(e, p', t'))
    && (Forward(e, p, t) ==> Forward(e, p', t'))
    && (Placed(e, p, t) ==> Placed(e, p', t'))
  }

  // One (possibly cut-off) run of a retirement.
  ghost predicate RetirementMoved(plan: Plan, k: nat, p: Dir, t: Dir, p': Dir, t': Dir)
    requires k < |plan.retirements|
  {
    var r := plan.retirements[k];
    && SameBut(p, p', {r.path}) && SameBut(t, t', {r.retained})
    && (InPlace(r, p', t') || Retired(r, p', t'))
    && (Retired(r, p, t) ==> Retired(r, p', t'))
  }

  lemma EffectMovedEffect(plan: Plan, i: nat, k: nat, p: Dir, t: Dir, p': Dir, t': Dir)
    requires ValidPlan(plan) && i < |plan.effects| && k < |plan.effects|
    requires EffectMoved(plan, i, p, t, p', t')
    requires ApplyingEffect(plan, plan.effects[i], p, t) && !(Adopts(plan, plan.effects[i]) && Waiting(plan.effects[i], p, t))
    ensures ApplyingEffect(plan, plan.effects[k], p, t) ==> ApplyingEffect(plan, plan.effects[k], p', t')
    ensures Placed(plan.effects[k], p, t) ==> Placed(plan.effects[k], p', t')
  {
    if k != i {
      OtherEffect(plan, i, k, p, t, p', t');
    }
  }

  lemma EffectMovedRetirement(plan: Plan, i: nat, k: nat, p: Dir, t: Dir, p': Dir, t': Dir)
    requires ValidPlan(plan) && i < |plan.effects| && k < |plan.retirements|
    requires EffectMoved(plan, i, p, t, p', t')
    requires Retired(plan.retirements[k], p, t)
    requires ApplyingEffect(plan, plan.effects[i], p, t)
    ensures Retired(plan.retirements[k], p', t')
  {}

  lemma RetirementMovedEffect(plan: Plan, k: nat, i: nat, p: Dir, t: Dir, p': Dir, t': Dir)
    requires ValidPlan(plan) && i < |plan.effects| && k < |plan.retirements|
    requires RetirementMoved(plan, k, p, t, p', t')
    requires InPlace(plan.retirements[k], p, t) || Retired(plan.retirements[k], p, t)
    requires ApplyingEffect(plan, plan.effects[i], p, t)
    ensures ApplyingEffect(plan, plan.effects[i], p', t')
    ensures Placed(plan.effects[i], p, t) ==> Placed(plan.effects[i], p', t')
  {
    RetirementThenEffect(plan, k, i, p, t, p', t');
    var e, r := plan.effects[i], plan.retirements[k];
    if e.backup == Some(r.retained) {
      assert Adopts(plan, e);
      assert Held(e, t) == Look(t, r.retained) && Held(e, t') == Look(t', r.retained);
    }
  }

  lemma EffectStep(plan: Plan, i: nat, p: Dir, t: Dir, p': Dir, t': Dir)
    requires ValidPlan(plan) && i < |plan.effects|
    requires ApplyInv(plan, p, t) && AllRetired(plan, p, t) && EffectMoved(plan, i, p, t, p', t')
    ensures ApplyInv(plan, p', t') && AllRetired(plan, p', t')
    ensures forall k :: 0 <= k < |plan.effects| && Placed(plan.effects[k], p, t) ==> Placed(plan.effects[k], p', t')
  {
    NotWaiting(plan, i, p, t);
    forall k | 0 <= k < |plan.effects|
      ensures ApplyingEffect(plan, plan.effects[k], p', t')
      ensures Placed(plan.effects[k], p, t) ==> Placed(plan.effects[k], p', t')
    {
      EffectMovedEffect(plan, i, k, p, t, p', t');
    }
    forall k | 0 <= k < |plan.retirements| ensures Retired(plan.retirements[k], p', t') {
      EffectMovedRetirement(plan, i, k, p, t, p', t');
    }
  }

  lemma NotWaiting(plan: Plan, i: nat, p: Dir, t: Dir)
    requires ValidPlan(plan) && i < |plan.effects| && AllRetired(plan, p, t)
    ensures !(Adopts(plan, plan.effects[i]) && Waiting(plan.effects[i], p, t))
  {}

  lemma RetirementStep(plan: Plan, k: nat, p: Dir, t: Dir, p': Dir, t': Dir)
    requires ValidPlan(plan) && k < |plan.retirements|
    requires ApplyInv(plan, p, t) && RetirementMoved(plan, k, p, t, p', t')
    ensures ApplyInv(plan, p', t')
    ensures forall i :: 0 <= i < |plan.effects| && Placed(plan.effects[i], p, t) ==> Placed(plan.effects[i], p', t')
    ensures forall m :: 0 <= m < |plan.retirements| && Retired(plan.retirements[m], p, t) ==>
      Retired(plan.retirements[m], p', t')
  {
    hide ApplyingEffect, Placed, IsWant;
    forall i | 0 <= i < |plan.effects|
      ensures ApplyingEffect(plan, plan.effects[i], p', t')
      ensures Placed(plan.effects[i], p, t) ==> Placed(plan.effects[i], p', t')
    {
      RetirementMovedEffect(plan, k, i, p, t, p', t');
    }
    forall m | 0 <= m < |plan.retirements|
      ensures InPlace(plan.retirements[m], p', t') || Retired(plan.retirements[m], p', t')
      ensures Retired(plan.retirements[m], p, t) ==> Retired(plan.retirements[m], p', t')
    {
      if m != k {
        assert plan.retirements[m].path != plan.retirements[k].path;
        assert plan.retirements[m].retained != plan.retirements[k].retained;
      }
    }
  }

  lemma TruthfulMono(plan: Plan, j: Journal, p: Dir, t: Dir, p': Dir, t': Dir)
    requires j.status in {PLANNED, APPLYING, APPLIED} && Truthful(plan, j, p, t)
    requires forall i :: 0 <= i < |plan.effects| && Placed(plan.effects[i], p, t) ==> Placed(plan.effects[i], p', t')
    requires forall m :: 0 <= m < |plan.retirements| && Retired(plan.retirements[m], p, t) ==>
      Retired(plan.retirements[m], p', t')
    ensures Truthful(plan, j, p', t')
  {}

  ghost predicate Live(plan: Plan, p0: Dir, t0: Dir, j: Journal, p: Dir, t: Dir) {
    j.status in {PLANNED, APPLYING, APPLIED} && Inv(plan, p0, t0, j, p, t)
  }

  lemma LiveAfterRetirement(plan: Plan, k: nat, p0: Dir, t0: Dir, j: Journal, p: Dir, t: Dir, p': Dir, t': Dir)
    requires ValidPlan(plan) && k < |plan.retirements|
    requires Live(plan, p0, t0, j, p, t) && RetirementMoved(plan, k, p, t, p', t')
    ensures Live(plan, p0, t0, j, p', t')
    ensures forall m :: 0 <= m < |plan.retirements| && Retired(plan.retirements[m], p, t) ==>
      Retired(plan.retirements[m], p', t')
  {
    var r := plan.retirements[k];
    RetirementStep(plan, k, p, t, p', t');
    TruthfulMono(plan, j, p, t, p', t');
    StepElsewhere(plan, p0, t0, p, t, p', t', {r.path}, {r.retained});
  }

  lemma LiveAfterEffect(plan: Plan, i: nat, p0: Dir, t0: Dir, j: Journal, p: Dir, t: Dir, p': Dir, t': Dir)
    requires ValidPlan(plan) && i < |plan.effects|
    requires Live(plan, p0, t0, j, p, t) && AllRetired(plan, p, t) && EffectMoved(plan, i, p, t, p', t')
    ensures Live(plan, p0, t0, j, p', t') && AllRetired(plan, p', t')
    ensures forall k :: 0 <= k < |plan.effects| && Placed(plan.effects[k], p, t) ==> Placed(plan.effects[k], p', t')
  {
    var e := plan.effects[i];
    EffectStep(plan, i, p, t, p', t');
    TruthfulMono(plan, j, p, t, p', t');
    StepElsewhere(plan, p0, t0, p, t, p', t', {e.dest}, TxNames(e));
  }

  // A transaction that runs alone changes no observed binding.
  lemma ObservedStays(plan: Plan, p0: Dir, t0: Dir, p: Dir, t: Dir)
    requires ValidPlan(plan) && Elsewhere(plan, p0, t0, p, t)
    ensures Observed(plan, p) <==> Observed(plan, p0)
  {
    forall k | 0 <= k < |plan.observations|
      ensures Look(p, plan.observations[k].dest) == Look(p0, plan.observations[k].dest)
    {
      assert !ParentName(plan, plan.observations[k].dest);
      assert SameAt(p0, p, plan.observations[k].dest);
    }
  }

  function Recorded(j: Journal, dest: Name): Journal {
    Journal(APPLYING, j.retired, j.completed + {dest})
  }

  lemma LiveAfterPlace(plan: Plan, i: nat, done: bool, p0: Dir, t0: Dir, j: Journal, j': Journal,
                       p: Dir, t: Dir, p': Dir, t': Dir)
    requires ValidPlan(plan) && i < |plan.effects|
    requires Live(plan, p0, t0, j, p, t) && AllRetired(plan, p, t) && EffectMoved(plan, i, p, t, p', t')
    requires done ==> Placed(plan.effects[i], p', t')
    requires j' == j || (done && j' == Recorded(j, plan.effects[i].dest))
    ensures Live(plan, p0, t0, j', p', t') && AllRetired(plan, p', t')
    ensures forall k :: 0 <= k < |plan.effects| && Placed(plan.effects[k], p, t) ==> Placed(plan.effects[k], p', t')
  {
    LiveAfterEffect(plan, i, p0, t0, j, p, t, p', t');
    if done { RecordPlaced(plan, i, p0, t0, j, p', t'); }
  }

  lemma RecordPlaced(plan: Plan, i: nat, p0: Dir, t0: Dir, j: Journal, p: Dir, t: Dir)
    requires ValidPlan(plan) && i < |plan.effects|
    requires Live(plan, p0, t0, j, p, t) && Placed(plan.effects[i], p, t)
    ensures Live(plan, p0, t0, Recorded(j, plan.effects[i].dest), p, t)
  {
    forall k | 0 <= k < |plan.effects| && k != i ensures plan.effects[k].dest != plan.effects[i].dest {
    }
  }

  lemma RecordRetired(plan: Plan, k: nat, p0: Dir, t0: Dir, j: Journal, p: Dir, t: Dir)
    requires ValidPlan(plan) && k < |plan.retirements|
    requires Live(plan, p0, t0, j, p, t) && Retired(plan.retirements[k], p, t)
    ensures Live(plan, p0, t0, Journal(APPLYING, j.retired + {plan.retirements[k].path}, j.completed), p, t)
  {}

  /* ---- rollback steps keep the rollback invariant ---- */

  ghost predicate AllBackOrForward(plan: Plan, p: Dir, t: Dir) {
    forall i :: 0 <= i < |plan.effects| ==> Backward(plan.effects[i], p, t) || Forward(plan.effects[i], p, t)
  }

  // One (possibly cut-off) rollback of effect i.
  ghost predicate EffectBack(plan: Plan, i: nat, p: Dir, t: Dir, p': Dir, t': Dir)
    requires i < |plan.effects|
  {
    var e := plan.effects[i];
    && SameBut(p, p', {e.dest}) && SameBut(t, t', TxNames(e))
    && (Backward(e, p', t') || Forward(e, p', t'))
    && (Backward(e, p, t) ==> Backward(e, p', t'))
  }

  lemma BackRetirement(plan: Plan, i: nat, j: nat, p: Dir, t: Dir, p': Dir, t': Dir)
    requires ValidPlan(plan) && i < |plan.effects| && j < |plan.retirements|
    requires RollInv(plan, p, t) && (Backward(plan.effects[i], p, t) || Forward(plan.effects[i], p, t))
    requires EffectBack(plan, i, p, t, p', t')
    ensures RollingRetirement(plan.retirements[j], p', t')
    ensures !plan.retirements[j].adopted && Retired(plan.retirements[j], p, t) ==> Retired(plan.retirements[j], p', t')
    ensures !Pair(plan, i, j) ==> Gone(plan.retirements[j], p, t) == Gone(plan.retirements[j], p', t')
    ensures Pair(plan, i, j) ==> (Backward(plan.effects[i], p', t') <==> Gone(plan.retirements[j], p', t'))
  {
    EffectThenRetirement(plan, i, j, p, t, p', t');
    var e, r := plan.effects[i], plan.retirements[j];
    assert RollingRetirement(r, p, t);
    if e.backup == Some(r.retained) {
      assert Held(e, t) == Look(t, r.retained) && Held(e, t') == Look(t', r.retained);
      assert Look(p, r.path) == None;
    }
  }

  lemma BackLinked(plan: Plan, i: nat, k: nat, j: nat, p: Dir, t: Dir, p': Dir, t': Dir)
    requires ValidPlan(plan) && i < |plan.effects| && Pair(plan, k, j)
    requires RollInv(plan, p, t) && (Backward(plan.effects[i], p, t) || Forward(plan.effects[i], p, t))
    requires EffectBack(plan, i, p, t, p', t')
    ensures Backward(plan.effects[k], p', t') <==> Gone(plan.retirements[j], p', t')
  {
    BackRetirement(plan, i, j, p, t, p', t');
    if k != i {
      assert !Pair(plan, i, j);
      OtherEffect(plan, i, k, p, t, p', t');
    }
  }

  lemma RollEffectStep(plan: Plan, i: nat, p: Dir, t: Dir, p': Dir, t': Dir)
    requires ValidPlan(plan) && i < |plan.effects|
    requires RollInv(plan, p, t) && AllBackOrForward(plan, p, t) && EffectBack(plan, i, p, t, p', t')
    ensures RollInv(plan, p', t') && AllBackOrForward(plan, p', t')
    ensures forall k :: 0 <= k < |plan.effects| && k != i && Untouched(plan.effects[k], p, t) ==>
      Untouched(plan.effects[k], p', t')
  {
    forall k | 0 <= k < |plan.effects|
      ensures Backward(plan.effects[k], p', t') || Forward(plan.effects[k], p', t')
      ensures k != i && Untouched(plan.effects[k], p, t) ==> Untouched(plan.effects[k], p', t')
    {
      if k != i { OtherEffect(plan, i, k, p, t, p', t'); }
    }
    forall j | 0 <= j < |plan.retirements| ensures RollingRetirement(plan.retirements[j], p', t') {
      BackRetirement(plan, i, j, p, t, p', t');
    }
    forall k, j | 0 <= k < |plan.effects| && 0 <= j < |plan.retirements| && Pair(plan, k, j)
      ensures Backward(plan.effects[k], p', t') <==> Gone(plan.retirements[j], p', t')
    {
      BackLinked(plan, i, k, j, p, t, p', t');
    }
  }

  // One (possibly cut-off) run of a retirement or of its restoration; an
  // adopted sibling is never restored.
  ghost predicate RetirementShift(plan: Plan, k: nat, p: Dir, t: Dir, p': Dir, t': Dir)
    requires k < |plan.retirements|
  {
    var r := plan.retirements[k];
    && SameBut(p, p', {r.path}) && SameBut(t, t', {r.retained})
    && (InPlace(r, p', t') || Retired(r, p', t'))
    && (r.adopted && Retired(r, p, t) ==> Retired(r, p', t'))
  }

  lemma RetireBackEffect(plan: Plan, k: nat, i: nat, p: Dir, t: Dir, p': Dir, t': Dir)
    requires ValidPlan(plan) && i < |plan.effects| && k < |plan.retirements|
    requires RetirementShift(plan, k, p, t, p', t')
    requires InPlace(plan.retirements[k], p, t) || Retired(plan.retirements[k], p, t)
    requires RollInv(plan, p, t)
    ensures RollingEffect(plan, plan.effects[i], p', t')
    ensures Backward(plan.effects[i], p', t') <==> Backward(plan.effects[i], p, t)
    ensures Untouched(plan.effects[i], p, t) ==> Untouched(plan.effects[i], p', t')
  {
    RetirementThenEffect(plan, k, i, p, t, p', t');
    var e, r := plan.effects[i], plan.retirements[k];
    assert RollingEffect(plan, e, p, t);
    if Pair(plan, i, k) {
      assert Adopts(plan, e);
      assert Held(e, t) == Look(t, r.retained) && Held(e, t') == Look(t', r.retained);
      assert !Backward(e, p, t);
    }
  }

  lemma ShiftOther(plan: Plan, k: nat, m: nat, p: Dir, t: Dir, p': Dir, t': Dir)
    requires ValidPlan(plan) && k < |plan.retirements| && m < |plan.retirements| && m != k
    requires RetirementShift(plan, k, p, t, p', t')
    ensures Look(p, plan.retirements[m].path) == Look(p', plan.retirements[m].path)
    ensures Look(t, plan.retirements[m].retained) == Look(t', plan.retirements[m].retained)
  {}

  lemma ShiftLinked(plan: Plan, k: nat, i: nat, j: nat, p: Dir, t: Dir, p': Dir, t': Dir)
    requires ValidPlan(plan) && k < |plan.retirements| && Pair(plan, i, j)
    requires RollInv(plan, p, t) && RetirementShift(plan, k, p, t, p', t')
    requires InPlace(plan.retirements[k], p, t) || Retired(plan.retirements[k], p, t)
    ensures Backward(plan.effects[i], p', t') <==> Gone(plan.retirements[j], p', t')
  {
    RetireBackEffect(plan, k, i, p, t, p', t');
    if j != k { ShiftOther(plan, k, j, p, t, p', t'); }
  }

  lemma RollRetirementStep(plan: Plan, k: nat, p: Dir, t: Dir, p': Dir, t': Dir)
    requires ValidPlan(plan) && k < |plan.retirements|
    requires RollInv(plan, p, t) && RetirementShift(plan, k, p, t, p', t')
    requires InPlace(plan.retirements[k], p, t) || Retired(plan.retirements[k], p, t)
    ensures RollInv(plan, p', t')
    ensures forall m :: 0 <= m < |plan.retirements| && m != k ==>
      Look(p, plan.retirements[m].path) == Look(p', plan.retirements[m].path)
      && Look(t, plan.retirements[m].retained) == Look(t', plan.retirements[m].retained)
    ensures forall i :: 0 <= i < |plan.effects| && Untouched(plan.effects[i], p, t) ==> Untouched(plan.effects[i], p', t')
  {
    forall i | 0 <= i < |plan.effects|
      ensures RollingEffect(plan, plan.effects[i], p', t')
      ensures Untouched(plan.effects[i], p, t) ==> Untouched(plan.effects[i], p', t')
    {
      RetireBackEffect(plan, k, i, p, t, p', t');
    }
    forall m | 0 <= m < |plan.retirements| && m != k
      ensures Look(p, plan.retirements[m].path) == Look(p', plan.retirements[m].path)
      ensures Look(t, plan.retirements[m].retained) == Look(t', plan.retirements[m].retained)
    {
      ShiftOther(plan, k, m, p, t, p', t');
    }
    forall i, j | 0 <= i < |plan.effects| && 0 <= j < |plan.retirements| && Pair(plan, i, j)
      ensures Backward(plan.effects[i], p', t') <==> Gone(plan.retirements[j], p', t')
    {
      ShiftLinked(plan, k, i, j, p, t, p', t');
    }
  }

  ghost predicate SiblingsRetired(plan: Plan, p: Dir, t: Dir) {
    forall j :: 0 <= j < |plan.retirements| && !plan.retirements[j].adopted ==> Retired(plan.retirements[j], p, t)
  }

  lemma AllRetiredMoves(plan: Plan, p: Dir, t: Dir)
    requires ValidPlan(plan) && RollInv(plan, p, t) && AllRetired(plan, p, t)
    ensures AllBackOrForward(plan, p, t) && SiblingsRetired(plan, p, t)
  {}

  lemma AdoptedGone(plan: Plan, p: Dir, t: Dir)
    requires ValidPlan(plan) && RollInv(plan, p, t)
    requires forall i :: 0 <= i < |plan.effects| ==> Untouched(plan.effects[i], p, t)
    ensures forall j :: 0 <= j < |plan.retirements| && plan.retirements[j].adopted ==> Gone(plan.retirements[j], p, t)
  {}

  /* ---- adopted siblings: exactly when a cut-off rollback cannot be rerun ---- */

  lemma HandedBackExactly(plan: Plan, p: Dir, t: Dir)
    requires ValidPlan(plan) && RollInv(plan, p, t)
    ensures HandedBack(plan, p, t) <==>
      exists i :: 0 <= i < |plan.effects| && Adopts(plan, plan.effects[i]) && Backward(plan.effects[i], p, t)
  {
    hide Backward, Forward, Waiting, RollingEffect;
    if HandedBack(plan, p, t) {
      var j :| 0 <= j < |plan.retirements| && Gone(plan.retirements[j], p, t);
      var r := plan.retirements[j];
      assert RollingRetirement(r, p, t);
      var i :| 0 <= i < |plan.effects| && plan.effects[i].backup == Some(r.retained);
      var e := plan.effects[i];
      assert Adopts(plan, e) && Pair(plan, i, j);
    }
    if i :| 0 <= i < |plan.effects| && Adopts(plan, plan.effects[i]) && Backward(plan.effects[i], p, t) {
      var j :| 0 <= j < |plan.retirements| && plan.retirements[j].adopted
        && plan.retirements[j].retained == plan.effects[i].backup.value;
      assert Pair(plan, i, j);
    }
  }

  /* ---- what a resumed apply reads first ---- */

  // The content a resumed apply projects into again: the destination's own, or that
  // of its backup when the destination is missing.  None: it raises.
  function Reread(h: Host, e: Effect, p: Dir, t: Dir): Option<string> {
    if e.dest in p then
      (if p[e.dest].kind.Regular? then Some(p[e.dest].kind.content) else None)
    else
      match Held(e, t)
      case Some(Regular(content, _)) => Some(content)
      case Some(Link(target, _)) => h.refer(Inside, target)
      case _ => None
  }

  // The effect is planned again as the journal has it.
  predicate Replans(h: Host, e: Effect, p: Dir, t: Dir) {
    e.projected ==>
      && e.want.WantFile? && Reread(h, e, p, t).Some?
      && h.project(e.dest, Reread(h, e, p, t).value) == Some(e.want.content)
  }

  ghost predicate Resumable(h: Host, plan: Plan, p: Dir, t: Dir) {
    forall i :: 0 <= i < |plan.effects| ==> Replans(h, plan.effects[i], p, t)
  }

  // Projecting into the projected store changes nothing.
  predicate Settled(h: Host, e: Effect) {
    e.projected ==> e.want.WantFile? && h.project(e.dest, e.want.content) == Some(e.want.content)
  }

  // A projected store that was there itself, not only as an adopted sibling.
  predicate Rooted(e: Effect) {
    e.projected ==> e.pre.Some? && e.pre.value.Regular?
  }

  /** Phase by phase, when an effect is planned again as the journal has it. */
  lemma ReplansByPhase(h: Host, plan: Plan, i: nat, p: Dir, t: Dir)
    requires ValidPlan(plan) && Grounded(h, plan) && i < |plan.effects| && plan.effects[i].projected
    ensures var e := plan.effects[i];
      && (Placed(e, p, t) ==> (Replans(h, e, p, t) <==> Settled(h, e)))
      && (Waiting(e, p, t) ==> !Replans(h, e, p, t))
      && (Backward(e, p, t) && e.pre.Some? && e.pre.value.Regular? ==> Replans(h, e, p, t))
      && (Emptied(e, p, t) || Parted(e, p, t) ==> e.pre.Some? && (e.pre.value.Regular? ==> Replans(h, e, p, t)))
      && ((Emptied(e, p, t) || Parted(e, p, t)) && Followed(h, e) ==> Replans(h, e, p, t))
  {
    assert GroundedEffect(h, plan, i);
  }

  // A transaction that can be resumed wherever it is cut off.
  ghost predicate AlwaysResumes(h: Host, plan: Plan) {
    AllPortable(h, plan) && forall i :: 0 <= i < |plan.effects| ==> Rooted(plan.effects[i]) && Settled(h, plan.effects[i])
  }

  /** Such a plan can be resumed from every disk a cut-off apply can leave. */
  lemma ResumesEverywhere(h: Host, plan: Plan, p: Dir, t: Dir)
    requires ValidPlan(plan) && Grounded(h, plan) && AlwaysResumes(h, plan) && ApplyInv(plan, p, t)
    ensures Resumable(h, plan, p, t)
  {
    forall i | 0 <= i < |plan.effects| ensures Replans(h, plan.effects[i], p, t) {
      var e := plan.effects[i];
      assert ApplyingEffect(plan, e, p, t) && Rooted(e) && Settled(h, e);
      if e.projected {
        ReplansByPhase(h, plan, i, p, t);
        NotAdopting(plan, i);
      }
    }
  }

  // An effect whose preimage is a file adopts no sibling.
  lemma NotAdopting(plan: Plan, i: nat)
    requires ValidPlan(plan) && i < |plan.effects|
    ensures plan.effects[i].pre.Some? && plan.effects[i].pre.value.Regular? ==> !Adopts(plan, plan.effects[i])
  {}

  /** Right after planning, an apply can be resumed exactly when every projected store
      was there itself. */
  lemma ResumableAtStart(h: Host, plan: Plan, p: Dir, t: Dir)
    requires ValidPlan(plan) && Grounded(h, plan) && Start(plan, p, t)
    ensures Resumable(h, plan, p, t) <==> forall i :: 0 <= i < |plan.effects| ==> Rooted(plan.effects[i])
  {
    forall i | 0 <= i < |plan.effects|
      ensures Replans(h, plan.effects[i], p, t) <==> Rooted(plan.effects[i])
    {
      var e := plan.effects[i];
      if e.projected {
        assert GroundedEffect(h, plan, i);
        ReplansByPhase(h, plan, i, p, t);
        NotAdopting(plan, i);
      }
    }
  }

  /** After a finished apply, it can be run again exactly when projecting into every
      projected store a second time changes nothing. */
  lemma ResumableAtEnd(h: Host, plan: Plan, p: Dir, t: Dir)
    requires ValidPlan(plan) && Grounded(h, plan) && Converged(plan, p, t)
    ensures Resumable(h, plan, p, t) <==> forall i :: 0 <= i < |plan.effects| ==> Settled(h, plan.effects[i])
  {
    forall i | 0 <= i < |plan.effects|
      ensures Replans(h, plan.effects[i], p, t) <==> Settled(h, plan.effects[i])
    {
      if plan.effects[i].projected { ReplansByPhase(h, plan, i, p, t); }
    }
  }
}
