/** The crash-recoverable actor-binding transaction.  Every method is cut at
    every system call by `Gap`, which may end the attempt (`Cut`) and, unless the
    materializer is alone, lets another actor rewrite destination-parent names. */
module ActorBinding {
  import opened Wrappers
  import opened ActorBindingModel

  ghost predicate At(d: Dir, n: Name, x: Entry) {
    n in d && d[n] == x
  }

  // theirs: entries another actor wrote and has not removed, with their names.
  // slots: for each destination-parent name the transaction may move away, the
  // transaction-root name it is moved to.
  ghost predicate Kept(slots: map<Name, Name>, p: Dir, t: Dir, theirs: map<Entry, Name>) {
    forall x :: x in theirs ==>
      At(p, theirs[x], x) || (theirs[x] in slots && At(t, slots[theirs[x]], x))
  }

  // Everything another actor can do to the destination parents in one gap:
  // entries of its own that it can see it may replace or remove; those that
  // were moved away it cannot reach.
  ghost predicate Interferes(p0: Dir, th0: map<Entry, Name>, p1: Dir, th1: map<Entry, Name>) {
    && (forall x :: x in th1 && !At(p1, th1[x], x) ==> x in th0 && th0[x] == th1[x] && !At(p0, th0[x], x))
    && (forall x :: x in th0 && !At(p0, th0[x], x) ==> x in th1 && th1[x] == th0[x] && !At(p1, th0[x], x))
  }

  // Entries that share the slot of n but belong to another name are in place.
  ghost predicate OthersInPlace(slots: map<Name, Name>, n: Name, slot: Name, p: Dir, theirs: map<Entry, Name>) {
    forall x :: x in theirs && theirs[x] != n && theirs[x] in slots && slots[theirs[x]] == slot ==>
      At(p, theirs[x], x)
  }

  ghost predicate SlotsFor(plan: Plan, slots: map<Name, Name>) {
    && (forall i :: 0 <= i < |plan.effects| ==>
          && plan.effects[i].stage !in slots.Values
          && (plan.effects[i].backup.Some? ==>
                plan.effects[i].dest in slots && slots[plan.effects[i].dest] == plan.effects[i].backup.value))
    && (forall j :: 0 <= j < |plan.retirements| ==>
          plan.retirements[j].path in slots && slots[plan.retirements[j].path] == plan.retirements[j].retained)
  }

  ghost predicate RetainedHeld(plan: Plan, t: Dir, n: nat) {
    forall j :: 0 <= j < n <= |plan.retirements| ==> Look(t, plan.retirements[j].retained) == Some(plan.retirements[j].pre)
  }

  ghost predicate PlacedUpTo(plan: Plan, n: nat, p: Dir, t: Dir) {
    forall k :: 0 <= k < n <= |plan.effects| ==> Placed(plan.effects[k], p, t)
  }

  ghost predicate BackupsHeld(plan: Plan, t: Dir, n: nat) {
    forall i :: 0 <= i < n <= |plan.effects| ==>
      Look(t, plan.effects[i].stage) == None && Held(plan.effects[i], t) == plan.effects[i].pre
  }

  ghost function EffectSlots(plan: Plan): (m: map<Name, Name>)
    requires ValidPlan(plan)
    ensures forall i :: 0 <= i < |plan.effects| && plan.effects[i].backup.Some? ==>
      plan.effects[i].dest in m && m[plan.effects[i].dest] == plan.effects[i].backup.value
    ensures forall n :: n in m ==> exists i :: 0 <= i < |plan.effects| && plan.effects[i].dest == n && plan.effects[i].backup == Some(m[n])
  {
    map e | e in plan.effects && e.backup.Some? :: e.dest := e.backup.value
  }

  ghost function RetirementSlots(plan: Plan): (m: map<Name, Name>)
    requires ValidPlan(plan)
    ensures forall j :: 0 <= j < |plan.retirements| ==>
      plan.retirements[j].path in m && m[plan.retirements[j].path] == plan.retirements[j].retained
    ensures forall n :: n in m ==> exists j :: 0 <= j < |plan.retirements| && plan.retirements[j].path == n && plan.retirements[j].retained == m[n]
  {
    map r | r in plan.retirements :: r.path := r.retained
  }

  ghost function SlotsOf(plan: Plan): map<Name, Name>
    requires ValidPlan(plan)
  {
    EffectSlots(plan) + RetirementSlots(plan)
  }

  lemma SlotsOfPlan(plan: Plan)
    requires ValidPlan(plan)
    ensures SlotsFor(plan, SlotsOf(plan))
  {
    var es, rs, slots := EffectSlots(plan), RetirementSlots(plan), SlotsOf(plan);
    forall i | 0 <= i < |plan.effects|
      ensures plan.effects[i].stage !in slots.Values
      ensures plan.effects[i].dest !in rs
    {
      forall n | n in slots ensures slots[n] != plan.effects[i].stage {
        if n in rs { assert slots[n] == rs[n]; } else { assert slots[n] == es[n]; }
      }
    }
  }

  // When an apply attempt raises without having moved anything: a rollback has begun,
  // or the journal is not what planning again gives.
  ghost predicate RefusedAtOnce(h: Host, plan: Plan, resumed: bool, j: Journal, p: Dir, t: Dir) {
    j.status in {ROLLING_BACK, ROLLED_BACK} || (resumed && !Resumable(h, plan, p, t))
  }

  // When an apply attempt that is not cut off raises.
  ghost predicate ApplyRefused(h: Host, plan: Plan, resumed: bool, j: Journal, p: Dir, t: Dir) {
    RefusedAtOnce(h, plan, resumed, j, p, t) || !AllPortable(h, plan) || !Observed(plan, p)
  }

  // When a rollback attempt that is not cut off raises.
  ghost predicate RollbackRefused(h: Host, plan: Plan, p: Dir, t: Dir) {
    HandedBack(plan, p, t) || !AllPortable(h, plan)
  }

  // A sibling that planning found, in place or retained.
  ghost predicate SiblingKnown(h: Host, r: Retirement, p: Dir, t: Dir) {
    && r.pre.Link? && Leads(h, Beside(r.path), r.pre, r.referent)
    && (InPlace(r, p, t) || Retired(r, p, t))
  }

  // An entry that was moved aside and is not the preimage went back, unless its name
  // was taken again meanwhile.
  ghost predicate PutBack(h: Host, e: Effect, t0: Dir, p: Dir, t: Dir) {
    e.backup.Some? && e.backup.value !in t0 && e.backup.value in t && !PreHeld(h, e, t) ==> e.dest in p
  }

  // One passed check of a destination was logged.
  ghost predicate ReadWanted(e: Effect, before: seq<Observation>, after: seq<Observation>) {
    && |after| == |before| + 1 && after[..|before|] == before
    && after[|before|].dest == e.dest && IsWant(after[|before|].pre, e.want)
  }

  // The first n destinations were read with their desired entries, in order.
  ghost predicate Confirmed(plan: Plan, n: nat, before: seq<Observation>, after: seq<Observation>) {
    && n <= |plan.effects| && |after| == |before| + n && after[..|before|] == before
    && forall i :: 0 <= i < n ==>
         after[|before| + i].dest == plan.effects[i].dest && IsWant(after[|before| + i].pre, plan.effects[i].want)
  }

  // What a finished apply has read: every destination with its desired entry, then
  // every observed binding with its recorded one.
  ghost predicate Checked(plan: Plan, before: seq<Observation>, after: seq<Observation>) {
    && |after| == |before| + |plan.effects| + |plan.observations|
    && Confirmed(plan, |plan.effects|, before, after[..|before| + |plan.effects|])
    && after[|before| + |plan.effects|..] == plan.observations
  }

  lemma ConfirmNone(plan: Plan, before: seq<Observation>)
    ensures Confirmed(plan, 0, before, before)
  {}

  lemma ConfirmNext(plan: Plan, i: nat, before: seq<Observation>, mid: seq<Observation>, after: seq<Observation>)
    requires i < |plan.effects| && Confirmed(plan, i, before, mid) && ReadWanted(plan.effects[i], mid, after)
    ensures Confirmed(plan, i + 1, before, after)
  {
    assert forall k :: 0 <= k < |mid| ==> after[k] == after[..|mid|][k] == mid[k];
    assert after[..|before|] == mid[..|before|];
  }

  lemma CheckedAll(plan: Plan, before: seq<Observation>, mid: seq<Observation>, after: seq<Observation>)
    requires Confirmed(plan, |plan.effects|, before, mid) && after == mid + plan.observations
    ensures Checked(plan, before, after)
  {
    assert after[..|mid|] == mid && after[|mid|..] == plan.observations;
  }

  // The journal names the first n siblings, or the first n destinations, as done.
  ghost predicate RetiredNoted(plan: Plan, retired: set<Name>, n: nat) {
    forall k :: 0 <= k < n <= |plan.retirements| ==> plan.retirements[k].path in retired
  }

  // The journal of a finished apply.
  ghost predicate Noted(plan: Plan, j: Journal) {
    && j.status == APPLIED && RetiredNoted(plan, j.retired, |plan.retirements|)
    && PlacedNoted(plan, j.completed, |plan.effects|)
  }

  ghost predicate PlacedNoted(plan: Plan, completed: set<Name>, n: nat) {
    forall k :: 0 <= k < n <= |plan.effects| ==> plan.effects[k].dest in completed
  }

  datatype Attempt = TryApply | TryRollback

  // With a plan that always resumes and bindings that are as observed, an apply raises
  // only after a rollback began, and with others it never finishes; with
  // portable siblings and no adoption a rollback never raises; with a sibling that is
  // not portable nothing ever finishes.
  ghost predicate Expected(h: Host, plan: Plan, p0: Dir, attempts: seq<Attempt>, outs: seq<Outcome>)
    requires |outs| <= |attempts|
  {
    forall k :: 0 <= k < |outs| ==> Allowed(h, plan, p0, attempts[..k], attempts[k], outs[k])
  }

  ghost predicate Allowed(h: Host, plan: Plan, p0: Dir, before: seq<Attempt>, a: Attempt, out: Outcome) {
    && (out == Done ==> AllPortable(h, plan) && (a == TryApply ==> Observed(plan, p0)))
    && (out == Raised ==>
          if a == TryApply then TryRollback in before || !AlwaysResumes(h, plan) || !Observed(plan, p0)
          else !NoAdoption(plan) || !AllPortable(h, plan))
  }

  ghost predicate LastDone(plan: Plan, attempts: seq<Attempt>, outs: seq<Outcome>, p: Dir, t: Dir)
    requires |outs| <= |attempts|
  {
    |outs| > 0 && outs[|outs| - 1] == Done ==>
      if attempts[|outs| - 1] == TryApply then Converged(plan, p, t) else Restored(plan, p, t)
  }

  ghost predicate NoAdoption(plan: Plan) {
    forall j :: 0 <= j < |plan.retirements| ==> !plan.retirements[j].adopted
  }

  class Store {
    const host: Host
    var parent: Dir
    var tx: Dir
    var journal: Journal
    var theirs: map<Entry, Name>  // instrumentation: what another actor still claims
    var passed: seq<Observation>   // instrumentation: the checks of destinations that passed, as read
    const steady: bool            // nothing cuts an attempt off

    // The disk as planning leaves it: the journal is written, nothing has moved.
    constructor (host: Host, parent: Dir, tx: Dir, steady: bool)
      ensures this.host == host && this.parent == parent && this.tx == tx && this.steady == steady
      ensures journal == Journal(PLANNED, {}, {}) && theirs == map[] && passed == []
    {
      this.host, this.parent, this.tx, this.steady := host, parent, tx, steady;
      journal, theirs, passed := Journal(PLANNED, {}, {}), map[], [];
    }

    // One step of another actor: put a new entry at n, or remove what is there.
    method ForeignStep(n: Name, put: bool, e: Entry)
      requires put ==> e !in theirs
      modifies this`parent, this`theirs
      ensures Interferes(old(parent), old(theirs), parent, theirs)
      ensures put ==> At(parent, n, e) && e in theirs && theirs[e] == n
      ensures !put ==> n !in parent
    {
      if n in parent && parent[n] in theirs && theirs[parent[n]] == n {
        theirs := theirs - {parent[n]};
      }
      if put {
        parent := parent[n := e];
        theirs := theirs[e := n];
      } else {
        parent := parent - {n};
      }
    }

    // The moment between two system calls.
    method Interference(alone: bool) returns (cut: bool)
      modifies this`parent, this`theirs
      ensures alone ==> parent == old(parent) && theirs == old(theirs)
      ensures steady ==> !cut
      ensures Interferes(old(parent), old(theirs), parent, theirs)
    {
      cut := *;
      if steady { cut := false; }
      if !alone {
        var steps: nat := *;
        while steps > 0
          invariant Interferes(old(parent), old(theirs), parent, theirs)
        {
          var n: Name, e: Entry, put: bool := *, *, *;
          ForeignStep(n, put && e !in theirs, e);
          steps := steps - 1;
        }
      }
    }

    method Gap(alone: bool, ghost slots: map<Name, Name>) returns (cut: bool)
      requires Kept(slots, parent, tx, theirs)
      modifies this`parent, this`theirs
      ensures alone ==> parent == old(parent) && theirs == old(theirs)
      ensures steady ==> !cut
      ensures Kept(slots, parent, tx, theirs)
    {
      cut := Interference(alone);
    }

    // A gap while the entry of `n` sits in its slot.
    method GapHolding(alone: bool, ghost slots: map<Name, Name>, ghost n: Name, ghost slot: Name) returns (cut: bool)
      requires Kept(slots, parent, tx, theirs) && OthersInPlace(slots, n, slot, parent, theirs)
      modifies this`parent, this`theirs
      ensures alone ==> parent == old(parent) && theirs == old(theirs)
      ensures steady ==> !cut
      ensures Kept(slots, parent, tx, theirs) && OthersInPlace(slots, n, slot, parent, theirs)
    {
      cut := Interference(alone);
    }

    // Atomic no-replace rename of a destination-parent name into its slot.
    method MoveOut(n: Name, slot: Name, ghost slots: map<Name, Name>) returns (ok: bool)
      requires n in slots && slots[n] == slot
      requires Kept(slots, parent, tx, theirs)
      modifies this`parent, this`tx
      ensures Kept(slots, parent, tx, theirs)
      ensures ok <==> n in old(parent) && slot !in old(tx)
      ensures !ok ==> parent == old(parent) && tx == old(tx)
      ensures ok ==> parent == old(parent) - {n} && tx == old(tx)[slot := old(parent)[n]]
      ensures ok ==> OthersInPlace(slots, n, slot, parent, theirs)
    {
      var moved := Move(parent, tx, n, slot);
      ok := moved.Some?;
      if ok {
        parent, tx := moved.value.0, moved.value.1;
      }
    }

    // The inverse rename, while only the entry of n can sit in the slot.
    method MoveBack(n: Name, slot: Name, ghost slots: map<Name, Name>) returns (ok: bool)
      requires n in slots && slots[n] == slot
      requires Kept(slots, parent, tx, theirs) && OthersInPlace(slots, n, slot, parent, theirs)
      modifies this`parent, this`tx
      ensures Kept(slots, parent, tx, theirs)
      ensures ok <==> slot in old(tx) && n !in old(parent)
      ensures !ok ==> parent == old(parent) && tx == old(tx)
      ensures ok ==> tx == old(tx) - {slot} && parent == old(parent)[n := old(tx)[slot]]
    {
      var moved := Move(tx, parent, slot, n);
      ok := moved.Some?;
      if ok {
        tx, parent := moved.value.0, moved.value.1;
      }
    }

    // Atomic no-replace rename of a stage, which is no slot, to its destination.
    method Place(stage: Name, n: Name, ghost slots: map<Name, Name>) returns (ok: bool)
      requires stage !in slots.Values
      requires Kept(slots, parent, tx, theirs)
      modifies this`parent, this`tx
      ensures Kept(slots, parent, tx, theirs)
      ensures ok <==> stage in old(tx) && n !in old(parent)
      ensures !ok ==> parent == old(parent) && tx == old(tx)
      ensures ok ==> tx == old(tx) - {stage} && parent == old(parent)[n := old(tx)[stage]]
    {
      var moved := Move(tx, parent, stage, n);
      ok := moved.Some?;
      if ok {
        tx, parent := moved.value.0, moved.value.1;
      }
    }

    method DropStage(stage: Name, ghost slots: map<Name, Name>)
      requires stage !in slots.Values
      requires Kept(slots, parent, tx, theirs)
      modifies this`tx
      ensures Kept(slots, parent, tx, theirs)
      ensures tx == old(tx) - {stage}
    {
      tx := tx - {stage};
    }

    method WriteStage(e: Effect, alone: bool, ghost slots: map<Name, Name>) returns (out: Outcome)
      requires e.stage !in slots.Values
      requires Kept(slots, parent, tx, theirs)
      modifies this`parent, this`theirs, this`tx
      ensures alone ==> theirs == old(theirs)
      ensures Kept(slots, parent, tx, theirs)
      ensures alone ==> parent == old(parent)
      ensures SameBut(old(tx), tx, {e.stage})
      ensures out == Done ==> IsWant(Look(tx, e.stage), e.want)
      ensures out == Cut ==> tx == old(tx)
      ensures out == Raised <==> e.stage in old(tx) && !IsWant(Look(old(tx), e.stage), e.want)
      ensures steady ==> out != Cut
    {
      if e.stage in tx {
        return if IsWant(Look(tx, e.stage), e.want) then Done else Raised;
      }
      var cut := Gap(alone, slots);
      if cut { return Cut; }
      var ino: nat, meta: Meta := *, *;
      tx := tx[e.stage := Made(e.want, ino, meta)];
      return Done;
    }

    // Move the preimage out of the destination and verify what was moved.
    method PartDestination(e: Effect, alone: bool, ghost slots: map<Name, Name>) returns (out: Outcome)
      requires e.backup.Some? && e.dest in slots && slots[e.dest] == e.backup.value
      requires Kept(slots, parent, tx, theirs)
      modifies this`parent, this`theirs, this`tx
      ensures alone ==> theirs == old(theirs)
      ensures Kept(slots, parent, tx, theirs)
      ensures SameBut(old(tx), tx, {e.backup.value})
      ensures out == Done ==> PreHeld(host, e, tx)
      ensures out == Raised ==> PutBack(host, e, old(tx), parent, tx)
      ensures alone ==> SameBut(old(parent), parent, {e.dest})
      ensures alone && Followed(host, e) && Look(old(parent), e.dest) == e.pre && e.pre.Some? && e.backup.value !in old(tx) ==>
        && out != Raised
        && ((out == Cut && parent == old(parent) && tx == old(tx))
            || (Look(parent, e.dest) == None && Look(tx, e.backup.value) == e.pre))
      ensures steady ==> out != Cut
    {
      var backup := e.backup.value;
      if backup in tx { return Raised; }
      var cut := Gap(alone, slots);
      if cut { return Cut; }
      var ok := MoveOut(e.dest, backup, slots);
      if !ok { return Raised; }
      cut := GapHolding(alone, slots, e.dest, backup);
      if cut { return Cut; }
      if !PreHeld(host, e, tx) {
        if e.dest !in parent {
          cut := GapHolding(alone, slots, e.dest, backup);
          if cut { return Cut; }
          ok := MoveBack(e.dest, backup, slots);
        }
        return Raised;
      }
      return Done;
    }

    // The destination is already as desired: check the backup, drop the stage.
    method Settle(e: Effect, alone: bool, ghost slots: map<Name, Name>) returns (out: Outcome)
      requires e.stage !in slots.Values && e.backup != Some(e.stage) && ValidEffect(e)
      requires Kept(slots, parent, tx, theirs)
      modifies this`parent, this`theirs, this`tx
      ensures alone ==> theirs == old(theirs)
      ensures Kept(slots, parent, tx, theirs)
      ensures SameBut(old(tx), tx, {e.stage})
      ensures out == Done ==> Look(tx, e.stage) == None && Held(e, tx) == e.pre
      ensures alone ==> parent == old(parent)
      ensures alone && Followed(host, e) && old(Placed(e, parent, tx)) ==> out != Raised && tx == old(tx)
      ensures steady ==> out != Cut
    {
      if e.backup.Some? && !PreHeld(host, e, tx) { return Raised; }
      if e.stage in tx {
        if !IsWant(Look(tx, e.stage), e.want) { return Raised; }
        var cut := Gap(alone, slots);
        if cut { return Cut; }
        DropStage(e.stage, slots);
      }
      return Done;
    }

    // Make room at the destination, or see that a cut-off attempt already did.
    method Release(e: Effect, alone: bool, ghost slots: map<Name, Name>) returns (out: Outcome)
      requires ValidEffect(e) && e.backup != Some(e.stage)
      requires e.backup.Some? ==> e.dest in slots && slots[e.dest] == e.backup.value
      requires Kept(slots, parent, tx, theirs)
      modifies this`parent, this`theirs, this`tx
      ensures alone ==> theirs == old(theirs)
      ensures Kept(slots, parent, tx, theirs)
      ensures SameBut(old(tx), tx, TxNames(e) - {e.stage})
      ensures out == Done ==> Held(e, tx) == e.pre && (e.backup.Some? ==> PreHeld(host, e, tx))
      ensures out == Raised ==> PutBack(host, e, old(tx), parent, tx)
      ensures alone ==> SameBut(old(parent), parent, {e.dest})
      ensures alone && Followed(host, e) && old(Staged(e, parent, tx) || Parted(e, parent, tx)) ==>
        && out != Raised
        && (out == Done ==> e.dest !in parent)
        && (Staged(e, parent, tx) || Parted(e, parent, tx))
      ensures alone && Followed(host, e) && old(Parted(e, parent, tx)) ==> Parted(e, parent, tx)
      ensures steady ==> out != Cut
    {
      if e.backup == None {
        out := if !PreAt(host, e, parent) then Raised else Done;
      } else if PreAt(host, e, parent) {
        out := PartDestination(e, alone, slots);
      } else {
        out := if !PreHeld(host, e, tx) || e.dest in parent then Raised else Done;
      }
    }

    // Read a destination and compare it with the desired entry.
    method Confirm(e: Effect) returns (out: Outcome)
      modifies this`passed
      ensures out == (if IsWant(Look(parent, e.dest), e.want) then Done else Raised)
      ensures if out == Done then ReadWanted(e, old(passed), passed) else passed == old(passed)
    {
      var found := Look(parent, e.dest);
      if !IsWant(found, e.want) { return Raised; }
      passed := passed + [Observation(e.dest, found)];
      out := Done;
    }

    // Move the stage onto the free destination and verify it there.
    method Install(e: Effect, alone: bool, ghost slots: map<Name, Name>) returns (out: Outcome)
      requires e.stage !in slots.Values && e.backup != Some(e.stage)
      requires Kept(slots, parent, tx, theirs)
      modifies this`parent, this`theirs, this`tx, this`passed
      ensures alone ==> theirs == old(theirs)
      ensures Kept(slots, parent, tx, theirs)
      ensures SameBut(old(tx), tx, {e.stage})
      ensures out == Done ==> Look(tx, e.stage) == None && ReadWanted(e, old(passed), passed)
      ensures alone ==> SameBut(old(parent), parent, {e.dest})
      ensures alone && e.dest !in old(parent) && IsWant(Look(old(tx), e.stage), e.want) ==>
        && out != Raised
        && ((out == Cut && parent == old(parent) && tx == old(tx))
            || (IsWant(Look(parent, e.dest), e.want) && Look(tx, e.stage) == None))
      ensures steady ==> out != Cut
    {
      var cut := Gap(alone, slots);
      if cut { return Cut; }
      var ok := Place(e.stage, e.dest, slots);
      if !ok { return Raised; }
      cut := Gap(alone, slots);
      if cut { return Cut; }
      out := Confirm(e);
    }

    // Write the stage unless a cut-off attempt already did.
    method Prepare(e: Effect, alone: bool, ghost slots: map<Name, Name>) returns (out: Outcome)
      requires e.stage !in slots.Values && e.backup != Some(e.stage)
      requires Kept(slots, parent, tx, theirs)
      modifies this`parent, this`theirs, this`tx
      ensures alone ==> theirs == old(theirs) && parent == old(parent)
      ensures Kept(slots, parent, tx, theirs)
      ensures SameBut(old(tx), tx, {e.stage})
      ensures alone && old(Backward(e, parent, tx)) ==>
        out != Raised && Backward(e, parent, tx) && (out == Done ==> Staged(e, parent, tx))
      ensures alone && old(Emptied(e, parent, tx) || Parted(e, parent, tx)) ==>
        && out != Raised && (Emptied(e, parent, tx) || Parted(e, parent, tx))
        && (out == Done ==> Parted(e, parent, tx))
      ensures steady ==> out != Cut
    {
      out := WriteStage(e, alone, slots);
      if out != Done { return; }
      var cut := Gap(alone, slots);
      if cut { return Cut; }
    }

    // Stage, make room, place: everything but a destination that is already desired.
    method Replace(e: Effect, alone: bool, ghost slots: map<Name, Name>) returns (out: Outcome)
      requires ValidEffect(e) && e.backup != Some(e.stage)
      requires e.backup.Some? ==> e.dest in slots && slots[e.dest] == e.backup.value
      requires e.stage !in slots.Values
      requires Kept(slots, parent, tx, theirs)
      requires alone ==> Followed(host, e) && (Backward(e, parent, tx) || Emptied(e, parent, tx) || Parted(e, parent, tx))
      modifies this`parent, this`theirs, this`tx, this`passed
      ensures steady ==> out != Cut
      ensures alone ==> theirs == old(theirs) && SameBut(old(parent), parent, {e.dest})
      ensures Kept(slots, parent, tx, theirs)
      ensures SameBut(old(tx), tx, TxNames(e))
      ensures out == Done ==> Look(tx, e.stage) == None && Held(e, tx) == e.pre && ReadWanted(e, old(passed), passed)
      ensures out == Raised ==> PutBack(host, e, old(tx), parent, tx)
      ensures alone && out == Done ==> Placed(e, parent, tx)
      ensures alone ==> out != Raised && (Backward(e, parent, tx) || Forward(e, parent, tx))
      ensures alone && old(Emptied(e, parent, tx) || Parted(e, parent, tx)) ==> Forward(e, parent, tx)
    {
      out := Prepare(e, alone, slots);
      if out != Done { return; }
      out := Release(e, alone, slots);
      if out != Done { return; }
      out := Install(e, alone, slots);
    }

    method ApplyEffect(e: Effect, alone: bool, ghost slots: map<Name, Name>) returns (out: Outcome)
      requires ValidEffect(e) && e.backup != Some(e.stage)
      requires e.backup.Some? ==> e.dest in slots && slots[e.dest] == e.backup.value
      requires e.stage !in slots.Values
      requires Kept(slots, parent, tx, theirs)
      requires alone ==> Followed(host, e) && (Backward(e, parent, tx) || Forward(e, parent, tx))
      modifies this`parent, this`theirs, this`tx, this`passed
      ensures steady ==> out != Cut
      ensures alone ==> theirs == old(theirs) && SameBut(old(parent), parent, {e.dest})
      ensures Kept(slots, parent, tx, theirs)
      ensures SameBut(old(tx), tx, TxNames(e))
      ensures out == Done ==> Look(tx, e.stage) == None && Held(e, tx) == e.pre && ReadWanted(e, old(passed), passed)
      ensures out == Raised ==> PutBack(host, e, old(tx), parent, tx)
      ensures alone && out == Done ==> Placed(e, parent, tx)
      ensures alone ==> out != Raised && (Backward(e, parent, tx) || Forward(e, parent, tx))
      ensures alone && old(Forward(e, parent, tx)) ==> Forward(e, parent, tx)
      ensures alone && old(Placed(e, parent, tx)) ==> Placed(e, parent, tx)
    {
      var cut := Gap(alone, slots);
      if cut { return Cut; }
      var found := Confirm(e);
      if found == Done {
        out := Settle(e, alone, slots);
      } else {
        out := Replace(e, alone, slots);
      }
    }

    method ApplyRetirement(r: Retirement, alone: bool, ghost slots: map<Name, Name>) returns (out: Outcome)
      requires r.path in slots && slots[r.path] == r.retained
      requires Kept(slots, parent, tx, theirs)
      modifies this`parent, this`theirs, this`tx
      ensures Kept(slots, parent, tx, theirs)
      ensures SameBut(old(tx), tx, {r.retained})
      ensures out == Done ==> Look(tx, r.retained) == Some(r.pre) && Portable(host, r)
      ensures alone ==> SameBut(old(parent), parent, {r.path}) && theirs == old(theirs)
      ensures alone && SiblingKnown(host, r, old(parent), old(tx)) ==>
        && (out == Raised ==> !Portable(host, r))
        && (InPlace(r, parent, tx) || Retired(r, parent, tx))
        && (out == Done || old(Retired(r, parent, tx)) ==> Retired(r, parent, tx))
      ensures alone && SiblingRefused(host, r, old(parent), old(tx)) ==>
        out != Done && parent == old(parent) && tx == old(tx)
      ensures steady ==> out != Cut
    {
      if !r.pre.Link? { return Raised; }
      var cut := Gap(alone, slots);
      if cut { return Cut; }
      if SiblingHeld(host, r, tx) {
        out := if r.path in parent then Raised else Done;
        return;
      }
      if !SiblingAt(host, r, parent) || r.retained in tx { return Raised; }
      cut := Gap(alone, slots);
      if cut { return Cut; }
      var ok := MoveOut(r.path, r.retained, slots);
      if !ok { return Raised; }
      cut := Gap(alone, slots);
      if cut { return Cut; }
      out := if r.path in parent || !SiblingHeld(host, r, tx) then Raised else Done;
    }

    // One turn of the retirement loop: retire, then record it in the journal.
    method RetireOne(plan: Plan, i: nat, alone: bool, ghost slots: map<Name, Name>, ghost p0: Dir, ghost t0: Dir)
      returns (out: Outcome)
      requires ValidPlan(plan) && i < |plan.retirements|
      requires SlotsFor(plan, slots) && Kept(slots, parent, tx, theirs)
      requires alone ==> Grounded(host, plan) && Live(plan, p0, t0, journal, parent, tx)
      modifies this`parent, this`theirs, this`tx, this`journal
      ensures alone ==> theirs == old(theirs)
      ensures Kept(slots, parent, tx, theirs)
      ensures old(journal.retired) <= journal.retired && (out == Done ==> plan.retirements[i].path in journal.retired)
      ensures journal.status == old(journal.status) || journal.status == APPLYING
      ensures SameBut(old(tx), tx, {plan.retirements[i].retained})
      ensures out == Done ==> Look(tx, plan.retirements[i].retained) == Some(plan.retirements[i].pre)
      ensures out == Done ==> Portable(host, plan.retirements[i])
      ensures alone && out == Raised ==> !Portable(host, plan.retirements[i])
      ensures alone ==> Live(plan, p0, t0, journal, parent, tx)
      ensures alone ==> forall m :: 0 <= m < |plan.retirements| && old(Retired(plan.retirements[m], parent, tx)) ==>
        Retired(plan.retirements[m], parent, tx)
      ensures alone && out == Done ==> Retired(plan.retirements[i], parent, tx)
      ensures steady ==> out != Cut
    {
      var r := plan.retirements[i];
      ghost var p, t := parent, tx;
      assert alone ==> SiblingKnown(host, r, p, t);
      out := ApplyRetirement(r, alone, slots);
      if alone {
        LiveAfterRetirement(plan, i, p0, t0, journal, p, t, parent, tx);
      }
      if out == Done && r.path !in journal.retired {
        var cut := Gap(alone, slots);
        if cut { return Cut; }
        if alone { RecordRetired(plan, i, p0, t0, journal, parent, tx); }
        journal := Journal(APPLYING, journal.retired + {r.path}, journal.completed);
      }
    }

    method RetireAll(plan: Plan, alone: bool, ghost slots: map<Name, Name>, ghost p0: Dir, ghost t0: Dir)
      returns (out: Outcome)
      requires ValidPlan(plan) && SlotsFor(plan, slots) && Kept(slots, parent, tx, theirs)
      requires alone ==> Grounded(host, plan) && Live(plan, p0, t0, journal, parent, tx)
      modifies this`parent, this`theirs, this`tx, this`journal
      ensures alone ==> theirs == old(theirs)
      ensures Kept(slots, parent, tx, theirs)
      ensures out == Done ==> RetiredNoted(plan, journal.retired, |plan.retirements|)
      ensures out == Done ==> RetainedHeld(plan, tx, |plan.retirements|)
      ensures out == Done ==> AllPortable(host, plan)
      ensures alone && out == Raised ==> !AllPortable(host, plan)
      ensures alone ==> Live(plan, p0, t0, journal, parent, tx)
      ensures alone && out == Done ==> AllRetired(plan, parent, tx)
      ensures steady ==> out != Cut
    {
      hide Live, Kept, SlotsFor, Portable, Grounded;
      for i := 0 to |plan.retirements|
        invariant alone ==> theirs == old(theirs)
        invariant Kept(slots, parent, tx, theirs)
        invariant RetainedHeld(plan, tx, i)
        invariant RetiredNoted(plan, journal.retired, i)
        invariant forall j :: 0 <= j < i ==> Portable(host, plan.retirements[j])
        invariant alone ==> Live(plan, p0, t0, journal, parent, tx)
        invariant alone ==> forall j :: 0 <= j < i ==> Retired(plan.retirements[j], parent, tx)
      {
        out := RetireOne(plan, i, alone, slots, p0, t0);
        if out != Done { return; }
      }
      out := Done;
    }

    // One turn of the effect loop: apply, then record it in the journal.
    method PlaceOne(plan: Plan, i: nat, alone: bool, ghost slots: map<Name, Name>)
      returns (out: Outcome)
      requires ValidPlan(plan) && i < |plan.effects|
      requires SlotsFor(plan, slots) && Kept(slots, parent, tx, theirs)
      requires alone ==> Grounded(host, plan) && AllPortable(host, plan)
      requires alone ==> ApplyInv(plan, parent, tx) && AllRetired(plan, parent, tx)
      modifies this`parent, this`theirs, this`tx, this`journal, this`passed
      ensures alone ==> theirs == old(theirs)
      ensures Kept(slots, parent, tx, theirs)
      ensures old(journal.retired) == journal.retired && old(journal.completed) <= journal.completed
      ensures out == Done ==> plan.effects[i].dest in journal.completed && ReadWanted(plan.effects[i], old(passed), passed)
      ensures SameBut(old(tx), tx, TxNames(plan.effects[i]))
      ensures out == Done ==>
        Look(tx, plan.effects[i].stage) == None && Held(plan.effects[i], tx) == plan.effects[i].pre
      ensures alone ==> out != Raised && EffectMoved(plan, i, old(parent), old(tx), parent, tx)
      ensures alone && out == Done ==> Placed(plan.effects[i], parent, tx)
      ensures journal == old(journal) || (out == Done && journal == Recorded(old(journal), plan.effects[i].dest))
      ensures steady ==> out != Cut
    {
      var e := plan.effects[i];
      if alone {
        NotWaiting(plan, i, parent, tx);
        AllFollowed(host, plan, i);
        assert ApplyingEffect(plan, e, parent, tx);
      }
      out := ApplyEffect(e, alone, slots);
      if out == Done && e.dest !in journal.completed {
        var cut := Gap(alone, slots);
        if cut { return Cut; }
        journal := Recorded(journal, e.dest);
      }
    }

    method PlaceNext(plan: Plan, i: nat, alone: bool, ghost slots: map<Name, Name>, ghost p0: Dir, ghost t0: Dir)
      returns (out: Outcome)
      requires ValidPlan(plan) && i < |plan.effects|
      requires SlotsFor(plan, slots) && Kept(slots, parent, tx, theirs)
      requires BackupsHeld(plan, tx, i) && RetainedHeld(plan, tx, |plan.retirements|)
      requires alone ==> Grounded(host, plan) && AllPortable(host, plan)
      requires alone ==> Live(plan, p0, t0, journal, parent, tx) && AllRetired(plan, parent, tx)
      requires alone ==> PlacedUpTo(plan, i, parent, tx)
      modifies this`parent, this`theirs, this`tx, this`journal, this`passed
      ensures alone ==> theirs == old(theirs)
      ensures Kept(slots, parent, tx, theirs)
      ensures old(journal.retired) == journal.retired && old(journal.completed) <= journal.completed
      ensures out == Done ==> plan.effects[i].dest in journal.completed && ReadWanted(plan.effects[i], old(passed), passed)
      ensures out == Done ==> BackupsHeld(plan, tx, i + 1) && RetainedHeld(plan, tx, |plan.retirements|)
      ensures alone ==> out != Raised && Live(plan, p0, t0, journal, parent, tx) && AllRetired(plan, parent, tx)
      ensures alone && out == Done ==> PlacedUpTo(plan, i + 1, parent, tx)
      ensures steady ==> out != Cut
    {
      ghost var p, t, j := parent, tx, journal;
      out := PlaceOne(plan, i, alone, slots);
      if alone { LiveAfterPlace(plan, i, out == Done, p0, t0, j, journal, p, t, parent, tx); }
      if out == Done { HeldStays(plan, i, t, tx); }
    }

    method PlaceAll(plan: Plan, alone: bool, ghost slots: map<Name, Name>, ghost p0: Dir, ghost t0: Dir)
      returns (out: Outcome)
      requires ValidPlan(plan) && SlotsFor(plan, slots) && Kept(slots, parent, tx, theirs)
      requires RetainedHeld(plan, tx, |plan.retirements|)
      requires alone ==> Grounded(host, plan) && AllPortable(host, plan)
      requires alone ==> Live(plan, p0, t0, journal, parent, tx) && AllRetired(plan, parent, tx)
      modifies this`parent, this`theirs, this`tx, this`journal, this`passed
      ensures alone ==> theirs == old(theirs)
      ensures Kept(slots, parent, tx, theirs)
      ensures old(journal.retired) == journal.retired
      ensures out == Done ==> PlacedNoted(plan, journal.completed, |plan.effects|)
      ensures out == Done ==> Confirmed(plan, |plan.effects|, old(passed), passed)
      ensures out == Done ==> BackupsHeld(plan, tx, |plan.effects|) && RetainedHeld(plan, tx, |plan.retirements|)
      ensures alone ==> out != Raised && Live(plan, p0, t0, journal, parent, tx) && AllRetired(plan, parent, tx)
      ensures alone && out == Done ==> AllPlaced(plan, parent, tx)
      ensures steady ==> out != Cut
    {
      hide Live, Kept, SlotsFor, ValidPlan, AllRetired, RetainedHeld, Grounded, AllPortable, Confirmed, ReadWanted;
      ConfirmNone(plan, passed);
      for i := 0 to |plan.effects|
        invariant alone ==> theirs == old(theirs)
        invariant Kept(slots, parent, tx, theirs)
        invariant old(journal.retired) == journal.retired && PlacedNoted(plan, journal.completed, i)
        invariant BackupsHeld(plan, tx, i) && RetainedHeld(plan, tx, |plan.retirements|)
        invariant alone ==> Live(plan, p0, t0, journal, parent, tx) && AllRetired(plan, parent, tx)
        invariant alone ==> PlacedUpTo(plan, i, parent, tx)
        invariant Confirmed(plan, i, old(passed), passed)
      {
        ghost var before := passed;
        out := PlaceNext(plan, i, alone, slots, p0, t0);
        if out != Done { return; }
        ConfirmNext(plan, i, old(passed), before, passed);
      }
      out := Done;
    }

    // A resumed apply plans every effect again and compares it with the journal.
    method Replan(plan: Plan, alone: bool, ghost slots: map<Name, Name>) returns (out: Outcome)
      requires Kept(slots, parent, tx, theirs)
      modifies this`parent, this`theirs
      ensures alone ==> parent == old(parent) && theirs == old(theirs)
      ensures Kept(slots, parent, tx, theirs)
      ensures alone && out == Done ==> Resumable(host, plan, parent, tx)
      ensures alone && out == Raised ==> !Resumable(host, plan, parent, tx)
      ensures steady ==> out != Cut
    {
      for i := 0 to |plan.effects|
        invariant alone ==> parent == old(parent) && theirs == old(theirs)
        invariant Kept(slots, parent, tx, theirs)
        invariant alone ==> forall k :: 0 <= k < i ==> Replans(host, plan.effects[k], parent, tx)
      {
        var cut := Gap(alone, slots);
        if cut { return Cut; }
        if !Replans(host, plan.effects[i], parent, tx) { return Raised; }
      }
      out := Done;
    }

    // The bindings that were current at planning must still be so, each when it is read.
    method Observe(plan: Plan, alone: bool, ghost slots: map<Name, Name>) returns (out: Outcome)
      requires Kept(slots, parent, tx, theirs)
      modifies this`parent, this`theirs, this`passed
      ensures steady ==> out != Cut
      ensures alone ==> parent == old(parent) && theirs == old(theirs)
      ensures Kept(slots, parent, tx, theirs)
      ensures out == Done ==> passed == old(passed) + plan.observations
      ensures alone && out == Done ==> Observed(plan, parent)
      ensures alone && out == Raised ==> !Observed(plan, parent)
    {
      hide Kept;
      for k := 0 to |plan.observations|
        invariant alone ==> parent == old(parent) && theirs == old(theirs)
        invariant Kept(slots, parent, tx, theirs)
        invariant passed == old(passed) + plan.observations[..k]
        invariant alone ==> forall i :: 0 <= i < k ==> Look(parent, plan.observations[i].dest) == plan.observations[i].pre
      {
        var cut := Gap(alone, slots);
        if cut { return Cut; }
        var o := plan.observations[k];
        var found := Look(parent, o.dest);
        if found != o.pre { return Raised; }
        passed := passed + [Observation(o.dest, found)];
        assert plan.observations[..k + 1] == plan.observations[..k] + [o];
      }
      assert plan.observations[..|plan.observations|] == plan.observations;
      out := Done;
    }

    // The journal loops of an apply.
    method Perform(plan: Plan, alone: bool, ghost slots: map<Name, Name>, ghost p0: Dir, ghost t0: Dir)
      returns (out: Outcome)
      requires ValidPlan(plan) && SlotsFor(plan, slots) && Kept(slots, parent, tx, theirs)
      requires alone ==> Grounded(host, plan) && Live(plan, p0, t0, journal, parent, tx)
      modifies this
      ensures alone ==> theirs == old(theirs)
      ensures Kept(slots, parent, tx, theirs)
      ensures out == Done ==> Noted(plan, journal) && BackupsHeld(plan, tx, |plan.effects|) && RetainedHeld(plan, tx, |plan.retirements|)
      ensures alone ==> Live(plan, p0, t0, journal, parent, tx)
      ensures out == Done ==> Checked(plan, old(passed), passed)
      ensures alone && out == Raised ==> !AllPortable(host, plan) || !Observed(plan, old(parent))
      ensures alone && out == Done ==> AllPortable(host, plan) && Converged(plan, parent, tx) && Observed(plan, old(parent))
      ensures steady ==> out != Cut
    {
      hide Kept, SlotsFor, ValidPlan, BackupsHeld, RetainedHeld, AllPortable, Grounded, RetiredNoted, PlacedNoted, Observed, Elsewhere, Confirmed;
      ghost var r0 := passed;
      if alone { ObservedStays(plan, p0, t0, parent, tx); }
      out := RetireAll(plan, alone, slots, p0, t0);
      if out != Done { return; }
      out := PlaceAll(plan, alone, slots, p0, t0);
      if out != Done { return; }
      ghost var r1 := passed;
      if alone { ObservedStays(plan, p0, t0, parent, tx); }
      out := Observe(plan, alone, slots);
      if out != Done { return; }
      var cut := Gap(alone, slots);
      if cut { return Cut; }
      CheckedAll(plan, r0, r1, passed);
      journal := Journal(APPLIED, journal.retired, journal.completed);
    }

    /** One apply attempt from the journal on disk; `resumed` says that an earlier
        attempt wrote it. */
    method Materialize(plan: Plan, resumed: bool, alone: bool, ghost slots: map<Name, Name>, ghost p0: Dir, ghost t0: Dir)
      returns (out: Outcome)
      requires ValidPlan(plan) && SlotsFor(plan, slots) && Kept(slots, parent, tx, theirs)
      requires alone ==> Grounded(host, plan) && Inv(plan, p0, t0, journal, parent, tx)
      modifies this
      ensures alone ==> theirs == old(theirs)
      ensures Kept(slots, parent, tx, theirs)
      ensures out == Done ==> Noted(plan, journal) && BackupsHeld(plan, tx, |plan.effects|) && RetainedHeld(plan, tx, |plan.retirements|)
      ensures alone ==> Inv(plan, p0, t0, journal, parent, tx)
      ensures alone && out == Raised ==> ApplyRefused(host, plan, resumed, old(journal), old(parent), old(tx))
      ensures alone && out == Done ==> !ApplyRefused(host, plan, resumed, old(journal), old(parent), old(tx))
      ensures alone && steady ==> (out == Done <==> !ApplyRefused(host, plan, resumed, old(journal), old(parent), old(tx)))
      ensures alone && !Observed(plan, old(parent)) ==> journal.status != APPLIED
      ensures out == Done ==> Checked(plan, old(passed), passed)
      ensures alone && RefusedAtOnce(host, plan, resumed, old(journal), old(parent), old(tx)) ==>
        parent == old(parent) && tx == old(tx) && journal == old(journal)
      ensures alone && journal.status in {ROLLING_BACK, ROLLED_BACK} ==> journal == old(journal)
      ensures alone && out == Done ==> Converged(plan, parent, tx)
      ensures steady ==> out != Cut
    {
      hide Kept, SlotsFor, ValidPlan, BackupsHeld, RetainedHeld, Resumable, AllPortable, Grounded, Noted, Converged, Truthful, Elsewhere, Observed, Checked, ApplyInv, RollInv;
      if alone { ObservedStays(plan, p0, t0, parent, tx); }
      if resumed {
        out := Replan(plan, alone, slots);
        if out != Done { return; }
      }
      if journal.status !in {PLANNED, APPLYING, APPLIED} {
        assert journal.status.ROLLING_BACK? || journal.status.ROLLED_BACK?;
        return Raised;
      }
      out := Perform(plan, alone, slots, p0, t0);
      if alone { ObservedStays(plan, p0, t0, parent, tx); }
    }

    /** Any number of apply attempts, each cut off anywhere, with another actor writing
        between any two system calls: every entry of theirs stays at its name or in its
        slot, and after one that returned only look-alikes of a preimage are in a slot. */
    method NoisyApplies(plan: Plan, attempts: nat, ghost p0: Dir, ghost t0: Dir) returns (outs: seq<Outcome>)
      requires ValidPlan(plan) && Kept(SlotsOf(plan), parent, tx, theirs)
      modifies this
      ensures |outs| == attempts && Kept(SlotsOf(plan), parent, tx, theirs)
      ensures attempts > 0 && outs[attempts - 1] == Done ==>
        forall x :: x in theirs ==> At(parent, theirs[x], x) || RecordedThere(plan, theirs[x], x.kind)
    {
      hide ValidPlan, Kept, SlotsFor, SlotsOf, RecordedThere, BackupsHeld, RetainedHeld;
      SlotsOfPlan(plan);
      outs := [];
      for i := 0 to attempts
        invariant |outs| == i && Kept(SlotsOf(plan), parent, tx, theirs)
        invariant i > 0 && outs[i - 1] == Done ==>
          BackupsHeld(plan, tx, |plan.effects|) && RetainedHeld(plan, tx, |plan.retirements|)
      {
        var out := Materialize(plan, i > 0, false, SlotsOf(plan), p0, t0);
        outs := outs + [out];
      }
      if attempts > 0 && outs[attempts - 1] == Done { MovedOnlyIfRecorded(plan, parent, tx, theirs); }
    }

    // The process may die here; nobody else writes during a rollback.
    method Pause() returns (cut: bool)
      ensures steady ==> !cut
    {
      cut := *;
      if steady { cut := false; }
    }

    // Put the preimage back at the destination, whatever an apply or an earlier
    // rollback left there.
    method Reinstate(e: Effect) returns (out: Outcome)
      requires ValidEffect(e) && e.backup != Some(e.stage)
      requires Followed(host, e) && (Backward(e, parent, tx) || Forward(e, parent, tx))
      modifies this`parent, this`tx
      ensures out != Raised && (Backward(e, parent, tx) || Forward(e, parent, tx))
      ensures old(Backward(e, parent, tx)) ==> Backward(e, parent, tx)
      ensures out == Done ==> Backward(e, parent, tx)
      ensures SameBut(old(parent), parent, {e.dest}) && SameBut(old(tx), tx, TxNames(e) - {e.stage})
      ensures steady ==> out != Cut
    {
      if PreAt(host, e, parent) {
        return if AmbiguousBackup(host, e, parent, tx) then Raised else Done;
      }
      if IsWant(Look(parent, e.dest), e.want) {
        var cut := Pause();
        if cut { return Cut; }
        parent := parent - {e.dest};
        if e.backup == None { return Done; }
        if !PreHeld(host, e, tx) { return Raised; }
      } else if e.backup == None || e.dest in parent || !PreHeld(host, e, tx) {
        return Raised;
      }
      var cut := Pause();
      if cut { return Cut; }
      var moved := Move(tx, parent, e.backup.value, e.dest);
      if moved == None { return Raised; }
      tx, parent := moved.value.0, moved.value.1;
      return Done;
    }

    method RollbackEffect(e: Effect) returns (out: Outcome)
      requires ValidEffect(e) && e.backup != Some(e.stage)
      requires Followed(host, e) && (Backward(e, parent, tx) || Forward(e, parent, tx))
      modifies this`parent, this`tx
      ensures out != Raised && (Backward(e, parent, tx) || Forward(e, parent, tx))
      ensures old(Backward(e, parent, tx)) ==> Backward(e, parent, tx)
      ensures out == Done ==> Untouched(e, parent, tx)
      ensures SameBut(old(parent), parent, {e.dest}) && SameBut(old(tx), tx, TxNames(e))
      ensures steady ==> out != Cut
    {
      out := Reinstate(e);
      if out != Done { return; }
      var cut := Pause();
      if cut { return Cut; }
      if e.stage in tx {
        if !IsWant(Look(tx, e.stage), e.want) { return Raised; }
        tx := tx - {e.stage};
      }
      cut := Pause();
      if cut { return Cut; }
      out := if !PreAt(host, e, parent) then Raised else Done;
    }

    method RestoreRetirement(r: Retirement) returns (out: Outcome)
      requires r.pre.Link? && Portable(host, r) && Leads(host, Beside(r.path), r.pre, r.referent)
      requires !r.adopted ==> InPlace(r, parent, tx) || Retired(r, parent, tx)
      modifies this`parent, this`tx
      ensures out != Raised
      ensures r.adopted ==> out == Done && parent == old(parent) && tx == old(tx)
      ensures !r.adopted ==> InPlace(r, parent, tx) || Retired(r, parent, tx)
      ensures !r.adopted && out == Done ==> InPlace(r, parent, tx)
      ensures SameBut(old(parent), parent, {r.path}) && SameBut(old(tx), tx, {r.retained})
      ensures steady ==> out != Cut
    {
      if r.adopted { return Done; }
      if !r.pre.Link? { return Raised; }
      if SiblingAt(host, r, parent) {
        return if r.retained in tx then Raised else Done;
      }
      if r.path in parent || !SiblingHeld(host, r, tx) { return Raised; }
      var cut := Pause();
      if cut { return Cut; }
      var moved := Move(tx, parent, r.retained, r.path);
      if moved == None { return Raised; }
      tx, parent := moved.value.0, moved.value.1;
      cut := Pause();
      if cut { return Cut; }
      out := if !SiblingAt(host, r, parent) then Raised else Done;
    }

    // Bring every sibling, wherever the interruption left it, to its retained path.
    method NormalizeRetirements(plan: Plan, ghost slots: map<Name, Name>, ghost p0: Dir, ghost t0: Dir)
      returns (out: Outcome)
      requires ValidPlan(plan) && SlotsFor(plan, slots) && theirs == map[]
      requires Grounded(host, plan)
      requires RollInv(plan, parent, tx) && Elsewhere(plan, p0, t0, parent, tx)
      modifies this`parent, this`tx, this`theirs
      ensures RollInv(plan, parent, tx) && Elsewhere(plan, p0, t0, parent, tx) && theirs == map[]
      ensures out == Done ==> AllRetired(plan, parent, tx) && !RollbackRefused(host, plan, old(parent), old(tx))
      ensures out == Raised ==> RollbackRefused(host, plan, old(parent), old(tx))
      ensures steady ==> out != Cut
    {
      hide Linked, Elsewhere, RollingEffect, Portable, SiblingRefused, Leads;
      for i := 0 to |plan.retirements|
        invariant RollInv(plan, parent, tx) && Elsewhere(plan, p0, t0, parent, tx) && theirs == map[]
        invariant forall j :: 0 <= j < i ==> Retired(plan.retirements[j], parent, tx)
        invariant forall j :: 0 <= j < i ==> !old(Gone(plan.retirements[j], parent, tx)) && Portable(host, plan.retirements[j])
        invariant forall j :: i <= j < |plan.retirements| ==>
          Gone(plan.retirements[j], parent, tx) == old(Gone(plan.retirements[j], parent, tx))
      {
        ghost var p, t := parent, tx;
        var r := plan.retirements[i];
        assert RollingRetirement(r, p, t);
        out := ApplyRetirement(r, true, slots);
        GoneRefused(host, r, p, t);
        if !Gone(r, p, t) {
          RollRetirementStep(plan, i, p, t, parent, tx);
          StepElsewhere(plan, p0, t0, p, t, parent, tx, {r.path}, {r.retained});
        }
        if out != Done { return; }
      }
      out := Done;
    }

    method ReinstateAll(plan: Plan, ghost p0: Dir, ghost t0: Dir) returns (out: Outcome)
      requires ValidPlan(plan) && Grounded(host, plan) && AllPortable(host, plan)
      requires RollInv(plan, parent, tx) && Elsewhere(plan, p0, t0, parent, tx)
      requires AllBackOrForward(plan, parent, tx)
      modifies this`parent, this`tx
      ensures RollInv(plan, parent, tx) && Elsewhere(plan, p0, t0, parent, tx) && out != Raised
      ensures out == Done ==> forall k :: 0 <= k < |plan.effects| ==> Untouched(plan.effects[k], parent, tx)
      ensures steady ==> out != Cut
    {
      for i := |plan.effects| downto 0
        invariant RollInv(plan, parent, tx) && Elsewhere(plan, p0, t0, parent, tx)
        invariant AllBackOrForward(plan, parent, tx)
        invariant forall k :: i <= k < |plan.effects| ==> Untouched(plan.effects[k], parent, tx)
      {
        ghost var p, t := parent, tx;
        var e := plan.effects[i];
        AllFollowed(host, plan, i);
        out := RollbackEffect(e);
        RollEffectStep(plan, i, p, t, parent, tx);
        StepElsewhere(plan, p0, t0, p, t, parent, tx, {e.dest}, TxNames(e));
        if out != Done { return; }
      }
      out := Done;
    }

    method RestoreAll(plan: Plan, ghost p0: Dir, ghost t0: Dir) returns (out: Outcome)
      requires ValidPlan(plan) && Grounded(host, plan) && AllPortable(host, plan)
      requires RollInv(plan, parent, tx) && Elsewhere(plan, p0, t0, parent, tx)
      requires forall k :: 0 <= k < |plan.effects| ==> Untouched(plan.effects[k], parent, tx)
      modifies this`parent, this`tx
      ensures RollInv(plan, parent, tx) && Elsewhere(plan, p0, t0, parent, tx) && out != Raised
      ensures out == Done ==> Restored(plan, parent, tx)
      ensures steady ==> out != Cut
    {
      hide Linked, Elsewhere, RollingEffect, Untouched;
      for i := |plan.retirements| downto 0
        invariant RollInv(plan, parent, tx) && Elsewhere(plan, p0, t0, parent, tx)
        invariant forall k :: 0 <= k < |plan.effects| ==> Untouched(plan.effects[k], parent, tx)
        invariant forall j :: i <= j < |plan.retirements| && !plan.retirements[j].adopted ==>
          InPlace(plan.retirements[j], parent, tx)
      {
        ghost var p, t := parent, tx;
        var r := plan.retirements[i];
        assert RollingRetirement(r, p, t);
        out := RestoreRetirement(r);
        if !r.adopted {
          RollRetirementStep(plan, i, p, t, parent, tx);
          StepElsewhere(plan, p0, t0, p, t, parent, tx, {r.path}, {r.retained});
        }
        if out != Done { return; }
      }
      AdoptedGone(plan, parent, tx);
      out := Done;
    }

    /** One rollback attempt from the journal on disk. */
    method Rollback(plan: Plan, ghost slots: map<Name, Name>, ghost p0: Dir, ghost t0: Dir) returns (out: Outcome)
      requires ValidPlan(plan) && SlotsFor(plan, slots) && theirs == map[]
      requires Grounded(host, plan)
      requires Inv(plan, p0, t0, journal, parent, tx)
      modifies this
      ensures Inv(plan, p0, t0, journal, parent, tx) && theirs == map[]
      ensures out == Raised ==> RollbackRefused(host, plan, old(parent), old(tx))
      ensures out == Done ==> !RollbackRefused(host, plan, old(parent), old(tx))
      ensures steady ==> (out == Done <==> !RollbackRefused(host, plan, old(parent), old(tx)))
      ensures out == Done ==> journal.status == ROLLED_BACK && Restored(plan, parent, tx)
      ensures out != Done && journal.status != old(journal.status) ==> journal.status == ROLLING_BACK
      ensures steady ==> out != Cut
    {
      if journal.status in {PLANNED, APPLYING, APPLIED} {
        ApplyingIsRolling(plan, parent, tx);
      }
      var cut := Pause();
      if cut { return Cut; }
      journal := journal.(status := ROLLING_BACK);
      out := NormalizeRetirements(plan, slots, p0, t0);
      if out != Done { return; }
      AllRetiredMoves(plan, parent, tx);
      out := ReinstateAll(plan, p0, t0);
      if out != Done { return; }
      out := RestoreAll(plan, p0, t0);
      if out != Done { return; }
      cut := Pause();
      if cut { return Cut; }
      journal := journal.(status := ROLLED_BACK);
    }

    method Try(plan: Plan, a: Attempt, resumed: bool, ghost slots: map<Name, Name>, ghost p0: Dir, ghost t0: Dir)
      returns (out: Outcome)
      requires ValidPlan(plan) && SlotsFor(plan, slots) && theirs == map[]
      requires Grounded(host, plan) && Inv(plan, p0, t0, journal, parent, tx)
      modifies this
      ensures Inv(plan, p0, t0, journal, parent, tx) && theirs == map[]
      ensures a == TryApply && out == Raised && AlwaysResumes(host, plan) && Observed(plan, p0) ==> old(journal.status) in {ROLLING_BACK, ROLLED_BACK}
      ensures out == Done ==> AllPortable(host, plan) && (a == TryApply ==> Observed(plan, p0))
      ensures a == TryApply && journal.status in {ROLLING_BACK, ROLLED_BACK} ==> journal == old(journal)
      ensures a == TryRollback && NoAdoption(plan) && AllPortable(host, plan) ==> out != Raised
      ensures out == Done ==> if a == TryApply then Converged(plan, parent, tx) else Restored(plan, parent, tx)
      ensures steady ==> out != Cut
    {
      if a == TryApply {
        ObservedStays(plan, p0, t0, parent, tx);
        if AlwaysResumes(host, plan) && journal.status in {PLANNED, APPLYING, APPLIED} {
          ResumesEverywhere(host, plan, parent, tx);
        }
        out := Materialize(plan, resumed, true, slots, p0, t0);
      } else {
        if NoAdoption(plan) { NothingHandedBack(plan, p0, t0, journal, parent, tx); }
        out := Rollback(plan, slots, p0, t0);
      }
    }

    /** Any number of apply and rollback attempts, each cut off anywhere. */
    method History(plan: Plan, attempts: seq<Attempt>) returns (outs: seq<Outcome>)
      requires ValidPlan(plan) && Grounded(host, plan) && Start(plan, parent, tx)
      requires journal == Journal(PLANNED, {}, {}) && theirs == map[]
      modifies this
      ensures |outs| == |attempts|
      ensures Inv(plan, old(parent), old(tx), journal, parent, tx)
      ensures Expected(host, plan, old(parent), attempts, outs) && LastDone(plan, attempts, outs, parent, tx)
      ensures |outs| > 0 && outs[|outs| - 1] == Done && attempts[|outs| - 1] == TryRollback && NoAdoption(plan) ==>
        forall n :: Look(parent, n) == old(Look(parent, n)) && Look(tx, n) == old(Look(tx, n))
    {
      hide ValidPlan, SlotsFor, Restored, Converged, ApplyInv, RollInv, Elsewhere, Observed;
      ghost var p0, t0, slots := parent, tx, SlotsOf(plan);
      SlotsOfPlan(plan);
      StartIsApplying(plan, parent, tx);
      outs := [];
      for i := 0 to |attempts|
        invariant |outs| == i && theirs == map[] && Inv(plan, p0, t0, journal, parent, tx)
        invariant journal.status in {ROLLING_BACK, ROLLED_BACK} ==> TryRollback in attempts[..i]
        invariant Expected(host, plan, p0, attempts, outs) && LastDone(plan, attempts, outs, parent, tx)
      {
        var out := Try(plan, attempts[i], i > 0, slots, p0, t0);
        assert attempts[..i + 1] == attempts[..i] + [attempts[i]];
        AppendOutcome(host, plan, p0, attempts, outs, out, parent, tx);
        outs := outs + [out];
      }
      if NoAdoption(plan) && Restored(plan, parent, tx) { RestoredIsStart(plan, p0, t0, parent, tx); }
    }
  }

  lemma GoneRefused(h: Host, r: Retirement, p: Dir, t: Dir)
    ensures Gone(r, p, t) ==> SiblingRefused(h, r, p, t)
  {}

  lemma AppendOutcome(h: Host, plan: Plan, p0: Dir, attempts: seq<Attempt>, outs: seq<Outcome>, out: Outcome, p: Dir, t: Dir)
    requires |outs| < |attempts| && Expected(h, plan, p0, attempts, outs)
    requires Allowed(h, plan, p0, attempts[..|outs|], attempts[|outs|], out)
    requires out == Done ==> if attempts[|outs|] == TryApply then Converged(plan, p, t) else Restored(plan, p, t)
    ensures Expected(h, plan, p0, attempts, outs + [out]) && LastDone(plan, attempts, outs + [out], p, t)
  {}

  lemma NothingHandedBack(plan: Plan, p0: Dir, t0: Dir, j: Journal, p: Dir, t: Dir)
    requires ValidPlan(plan) && Inv(plan, p0, t0, j, p, t) && NoAdoption(plan)
    ensures !HandedBack(plan, p, t)
  {}

  lemma HeldStays(plan: Plan, i: nat, t: Dir, t': Dir)
    requires ValidPlan(plan) && i < |plan.effects|
    requires BackupsHeld(plan, t, i) && RetainedHeld(plan, t, |plan.retirements|)
    requires SameBut(t, t', TxNames(plan.effects[i]))
    requires Look(t', plan.effects[i].stage) == None && Held(plan.effects[i], t') == plan.effects[i].pre
    ensures BackupsHeld(plan, t', i + 1) && RetainedHeld(plan, t', |plan.retirements|)
  {}

  // Planning recorded an entry of this kind at destination-parent name n.
  ghost predicate RecordedThere(plan: Plan, n: Name, k: Kind) {
    || (exists i :: 0 <= i < |plan.effects| && plan.effects[i].dest == n && plan.effects[i].pre == Some(k))
    || (exists j :: 0 <= j < |plan.retirements| && plan.retirements[j].path == n && plan.retirements[j].pre == k)
  }

  /** After an apply that returned, another actor's entry is still at its name or is
      one the run could not tell from the recorded preimage: moving any other entry
      away makes the run raise. */
  lemma MovedOnlyIfRecorded(plan: Plan, p: Dir, t: Dir, theirs: map<Entry, Name>)
    requires ValidPlan(plan) && Kept(SlotsOf(plan), p, t, theirs)
    requires BackupsHeld(plan, t, |plan.effects|) && RetainedHeld(plan, t, |plan.retirements|)
    ensures forall x :: x in theirs ==> At(p, theirs[x], x) || RecordedThere(plan, theirs[x], x.kind)
  {
    hide ValidPlan;
    var es, rs, slots := EffectSlots(plan), RetirementSlots(plan), SlotsOf(plan);
    forall x | x in theirs && !At(p, theirs[x], x) ensures RecordedThere(plan, theirs[x], x.kind) {
      var n := theirs[x];
      if n in rs {
        var j :| 0 <= j < |plan.retirements| && plan.retirements[j].path == n && plan.retirements[j].retained == rs[n];
        assert Look(t, plan.retirements[j].retained) == Some(plan.retirements[j].pre);
      } else {
        var i :| 0 <= i < |plan.effects| && plan.effects[i].dest == n && plan.effects[i].backup == Some(es[n]);
        assert Held(plan.effects[i], t) == plan.effects[i].pre;
      }
    }
  }
}
