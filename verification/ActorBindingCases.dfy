/** Disks on which the actor-binding transaction refuses, or does not refuse, each
    derived step by step from a planned disk. */
module ActorBindingCases {
  import opened Wrappers
  import opened ActorBindingModel
  import opened ActorBinding

  // A destination that is missing and adopts its legacy sibling.
  function Adopting(was: Kind, want: Want, projected: bool, referent: string): Plan {
    Plan([Effect("d", "d.next", Some("d.legacy"), Some(was), want, projected, if projected then Some(referent) else None)],
         [Retirement(".d.previous", "d.legacy", was, referent, true)], [])
  }

  lemma AdoptingValid(was: Kind, want: Want, projected: bool, referent: string)
    requires was.Link? && !IsWant(Some(was), want)
    ensures ValidPlan(Adopting(was, want, projected, referent))
  {
    var plan := Adopting(was, want, projected, referent);
    assert plan.effects[0].backup == Some(plan.retirements[0].retained);
    assert |"d"| != |".d.previous"| && |"d.next"| != |"d.legacy"|;
  }

  /** A rollback that is cut off right after it handed an adopted sibling to its
      destination: from the planned disk it retires the sibling and moves it on, every
      check passing, and no later rollback gets past its first loop. */
  lemma AdoptedRollbackCutOff(h: Host, x: Entry, want: Want, projected: bool, referent: string)
    returns (p1: Dir, t1: Dir, p2: Dir, t2: Dir)
    requires x.kind.Link? && !IsWant(Some(x.kind), want)
    requires Leads(h, Beside(".d.previous"), x.kind, referent) && Leads(h, Inside, x.kind, referent)
    ensures
      var plan := Adopting(x.kind, want, projected, referent);
      var e, r := plan.effects[0], plan.retirements[0];
      var p0, t0: Dir := map[r.path := x], map[];
      && ValidPlan(plan) && Start(plan, p0, t0) && SiblingAt(h, r, p0)
      && Move(p0, t0, r.path, r.retained) == Some((p1, t1)) && SiblingHeld(h, r, t1)
      && e.dest !in p1 && PreHeld(h, e, t1) && Move(t1, p1, r.retained, e.dest) == Some((t2, p2))
      && RollInv(plan, p2, t2) && SiblingRefused(h, r, p2, t2) && RollbackRefused(h, plan, p2, t2)
  {
    var plan := Adopting(x.kind, want, projected, referent);
    AdoptingValid(x.kind, want, projected, referent);
    var e, r := plan.effects[0], plan.retirements[0];
    assert e.dest != r.path && e.stage != r.retained by { assert |e.dest| != |r.path| && |e.stage| != |r.retained|; }
    assert AdoptedName(plan, "d.legacy") by { assert r.adopted && r.retained == "d.legacy"; }
    assert Adopts(plan, e);
    p1, t1, p2, t2 := map[], map[r.retained := x], map[e.dest := x], map[];
    assert Move(map[r.path := x], map[], r.path, r.retained).value == (p1, t1);
    assert Move(t1, p1, r.retained, e.dest).value == (t2, p2);
    assert Gone(r, p2, t2);
  }

  /** An adopted composite store: cut off right after the journal was written, nothing
      is wrong with the disk, and every resumed apply raises before it moves anything. */
  lemma AdoptedCompositeCutOff(h: Host, x: Entry, content: string, meta: Meta, referent: string)
    requires x.kind.Link?
    requires forall site :: Leads(h, site, x.kind, referent)
    requires h.project("d", referent) == Some(content)
    ensures
      var plan := Adopting(x.kind, WantFile(content, meta), true, referent);
      var p, t: Dir := map[plan.retirements[0].path := x], map[];
      && ValidPlan(plan) && Grounded(h, plan) && AllPortable(h, plan) && Start(plan, p, t)
      && !Resumable(h, plan, p, t) && RefusedAtOnce(h, plan, true, Journal(PLANNED, {}, {}), p, t)
  {
    var plan := Adopting(x.kind, WantFile(content, meta), true, referent);
    AdoptingValid(x.kind, WantFile(content, meta), true, referent);
    var e, r := plan.effects[0], plan.retirements[0];
    assert e.dest != r.path by { assert |e.dest| != |r.path|; }
    assert AdoptedName(plan, "d.legacy") by { assert r.adopted && r.retained == "d.legacy"; }
    assert Adopts(plan, e);
    assert GroundedEffect(h, plan, 0) by { assert e.backup == Some(plan.retirements[0].retained); }
    assert !Replans(h, e, map[r.path := x], map[]);
  }

  ghost function Sibling(was: Kind, referent: string): Plan {
    Plan([], [Retirement(".d.previous", "d.legacy", was, referent, false)], [])
  }

  /** A legacy sibling whose target leads elsewhere from the transaction root, as a
      relative one does: the apply moves it, then raises; every later apply and every
      rollback refuses that disk, so it never returns to its path. */
  lemma RelativeSibling(h: Host, x: Entry, referent: string, j: Journal, resumed: bool)
    returns (p1: Dir, t1: Dir)
    requires x.kind.Link?
    requires Leads(h, Beside(".d.previous"), x.kind, referent) && !Leads(h, Inside, x.kind, referent)
    ensures
      var plan := Sibling(x.kind, referent);
      var r := plan.retirements[0];
      var p0, t0: Dir := map[r.path := x], map[];
      && ValidPlan(plan) && Grounded(h, plan) && Start(plan, p0, t0) && SiblingAt(h, r, p0)
      && Move(p0, t0, r.path, r.retained) == Some((p1, t1)) && r.path !in p1 && SiblingRefused(h, r, p1, t1)
      && ApplyRefused(h, plan, resumed, j, p1, t1) && RollbackRefused(h, plan, p1, t1)
  {
    var plan := Sibling(x.kind, referent);
    var r := plan.retirements[0];
    p1, t1 := map[], map[r.retained := x];
    assert Move(map[r.path := x], map[], r.path, r.retained).value == (p1, t1);
    assert !Portable(h, r);
  }

  ghost function OneEffect(was: Kind, want: Want): Plan {
    Plan([Effect("d", "d.next", Some("d.previous"), Some(was), want, false, None)], [], [])
  }

  lemma OneEffectValid(was: Kind, want: Want)
    requires !IsWant(Some(was), want)
    ensures ValidPlan(OneEffect(was, want))
  {
    assert |"d.next"| != |"d.previous"|;
  }

  // The two renames of an apply.
  lemma Swap(dest: Name, stage: Name, backup: Name, x: Entry, made: Entry) returns (p2: Dir, t2: Dir, p3: Dir, t3: Dir)
    requires stage != backup
    ensures Move(map[dest := x], map[stage := made], dest, backup) == Some((p2, t2)) && t2 == map[stage := made, backup := x]
    ensures Move(t2, p2, stage, dest) == Some((t3, p3)) && p3 == map[dest := made] && t3 == map[backup := x]
  {
    p2, t2 := map[], map[stage := made, backup := x];
    p3, t3 := map[dest := made], map[backup := x];
    assert map[dest := x] - {dest} == p2 && t2 - {stage} == t3;
  }

  /** Another actor replaces the destination by an entry that looks like the recorded
      preimage: the apply passes every check, and its run ends with that entry in the
      backup. */
  lemma RecordedIsMoved(h: Host, y: Entry, x: Entry, want: Want, made: Entry)
    returns (p2: Dir, t2: Dir, p3: Dir, t3: Dir)
    requires x.kind == y.kind && !IsWant(Some(y.kind), want) && IsWant(Some(made.kind), want)
    ensures
      var plan := OneEffect(y.kind, want);
      var e := plan.effects[0];
      var p0, t0: Dir := map[e.dest := y], map[];
      var p1, theirs := p0[e.dest := x], map[x := e.dest];
      var t1 := t0[e.stage := made];
      && ValidPlan(plan) && Start(plan, p0, t0) && Interferes(p0, map[], p1, theirs) && PreAt(h, e, p1)
      && Move(p1, t1, e.dest, e.backup.value) == Some((p2, t2)) && PreHeld(h, e, t2)
      && Move(t2, p2, e.stage, e.dest) == Some((t3, p3)) && Converged(plan, p3, t3)
      && Kept(SlotsOf(plan), p3, t3, theirs) && At(t3, e.backup.value, x) && (x != made ==> !At(p3, e.dest, x))
  {
    var plan := OneEffect(y.kind, want);
    var e := plan.effects[0];
    OneEffectValid(y.kind, want);
    assert e.stage != e.backup.value by { assert |e.stage| != |e.backup.value|; }
    p2, t2, p3, t3 := Swap(e.dest, e.stage, e.backup.value, x, made);
    SlotKeeps(plan, p3, t3, x);
    hide ValidPlan, IsWant, SlotsOf, Kept;
  }

  // The only destination's entry, found in its backup, is kept.
  lemma SlotKeeps(plan: Plan, p: Dir, t: Dir, x: Entry)
    requires ValidPlan(plan) && |plan.effects| == 1 && plan.effects[0].backup.Some? && At(t, plan.effects[0].backup.value, x)
    ensures Kept(SlotsOf(plan), p, t, map[x := plan.effects[0].dest])
  {
    SlotsOfPlan(plan);
    hide ValidPlan, SlotsOf;
  }

  /** Rolling back a placed effect meets an ambiguous backup exactly when the entry at
      the destination cannot be told from the preimage, which a preimage that differs
      from the desired entry rules out. */
  lemma AmbiguousExactly(h: Host, e: Effect, p: Dir, t: Dir)
    requires Placed(e, p, t) && Followed(h, e) && e.backup.Some? && e.pre.Some?
    ensures AmbiguousBackup(h, e, p, t) <==> Look(p, e.dest) == e.pre
    ensures ValidEffect(e) ==> !AmbiguousBackup(h, e, p, t)
  {}

  /** An adopted sibling that already is the desired link: the apply retires it, stages a
      link like it and places that, every check passing, and no rollback gets past the
      ambiguous backup. */
  lemma AdoptedIsDesired(h: Host, x: Entry, want: Want, made: Entry, referent: string)
    returns (p1: Dir, t1: Dir, p2: Dir, t2: Dir)
    requires x.kind.Link? && IsWant(Some(x.kind), want) && made.kind == x.kind
    requires Leads(h, Beside(".d.previous"), x.kind, referent) && Leads(h, Inside, x.kind, referent)
    ensures
      var plan := Adopting(x.kind, want, false, referent);
      var e, r := plan.effects[0], plan.retirements[0];
      var p0, t0: Dir := map[r.path := x], map[];
      && InPlace(r, p0, t0) && Waiting(e, p0, t0) && SiblingAt(h, r, p0)
      && Move(p0, t0, r.path, r.retained) == Some((p1, t1)) && SiblingHeld(h, r, t1) && PreHeld(h, e, t1)
      && Move(t1[e.stage := made], p1, e.stage, e.dest) == Some((t2, p2))
      && Placed(e, p2, t2) && Retired(r, p2, t2) && AmbiguousBackup(h, e, p2, t2)
  {
    var plan := Adopting(x.kind, want, false, referent);
    var e, r := plan.effects[0], plan.retirements[0];
    assert e.dest != r.path && e.stage != r.retained by { assert |e.dest| != |r.path| && |e.stage| != |r.retained|; }
    p1, t1, p2, t2 := map[], map[r.retained := x], map[e.dest := made], map[r.retained := x];
    assert Move(map[r.path := x], map[], r.path, r.retained).value == (p1, t1);
    assert t1[e.stage := made] - {e.stage} == t2;
  }
}
