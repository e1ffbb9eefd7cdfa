/** The all-or-nothing adapter-link transaction over a whole fleet, and the
    rollback of a finished one. */
module Fleet {
  import opened Wrappers

  datatype Path = Path(dir: string, name: string)

  datatype Node = Link(target: string) | Solid

  type Links = map<Path, Node>

  datatype Adapter = Adapter(source: string, dest: Path, holdLegacy: bool)

  datatype State = CURRENT | REPLACEABLE | HELD_LEGACY | CONFLICT | MISSING

  // One adapter to be linked; `swap` is the REPLACEABLE state.
  datatype Work = Work(source: string, dest: Path, stage: Path, backup: Path, swap: bool)

  datatype Undo = Undo(dest: Path, source: string, previous: Option<Path>)

  // Where a destination stands: as found, moved aside or freed, or linked.
  datatype Spot = Orig | Away | New

  function StagePath(d: Path): Path { Path(d.dir, "." + d.name + ".tgw-w18-next") }

  function BackupPath(d: Path): Path { Path(d.dir, "." + d.name + ".tgw-w18-previous") }

  function Get(fs: Links, p: Path): Option<Node> {
    if p in fs then Some(fs[p]) else None
  }

  // What a link with this text, at this place, resolves to; and whether every file of
  // a source can be read for its digest.
  datatype Host = Host(resolve: (Path, string) -> string, readable: string -> bool)

  predicate SameLink(h: Host, fs: Links, dest: Path, source: string) {
    dest in fs && fs[dest].Link? && h.resolve(dest, fs[dest].target) == source
  }

  // A link to the source resolves to the source: no component of its path is a link.
  predicate Anchored(h: Host, dest: Path, source: string) { h.resolve(dest, source) == source }

  function Classify(h: Host, fs: Links, a: Adapter, replaceExisting: bool): State {
    if SameLink(h, fs, a.dest, a.source) then CURRENT
    else if a.dest in fs && fs[a.dest].Link? && replaceExisting then REPLACEABLE
    else if a.dest in fs then (if a.holdLegacy then HELD_LEGACY else CONFLICT)
    else MISSING
  }

  function WorkFor(a: Adapter, swap: bool): Work {
    Work(a.source, a.dest, StagePath(a.dest), BackupPath(a.dest), swap)
  }

  // No adapter is installed under a name the transaction itself derives.
  ghost predicate Reserved(adapters: seq<Adapter>) {
    forall i, j :: 0 <= i < |adapters| && 0 <= j < |adapters| ==>
      adapters[i].dest != StagePath(adapters[j].dest) && adapters[i].dest != BackupPath(adapters[j].dest)
  }

  ghost predicate Apart(v: Work, w: Work) {
    && v.dest != w.stage && v.dest != w.backup && v.stage != w.backup
    && (v.dest == w.dest <==> v.stage == w.stage) && (v.dest == w.dest <==> v.backup == w.backup)
  }

  ghost predicate Separate(work: seq<Work>) {
    forall i, j :: 0 <= i < |work| && 0 <= j < |work| ==> Apart(work[i], work[j])
  }

  ghost predicate Distinct(work: seq<Work>, n: nat)
    requires n <= |work|
  {
    forall i, j :: 0 <= i < j < n ==> work[i].dest != work[j].dest
  }

  ghost predicate Planned(fs: Links, work: seq<Work>) {
    forall i :: 0 <= i < |work| ==>
      if work[i].swap then work[i].dest in fs && fs[work[i].dest].Link? else work[i].dest !in fs
  }

  ghost function Names(w: Work): set<Path> { {w.dest, w.stage, w.backup} }

  // The three names of one adapter, against the starting map.
  ghost predicate Item(w: Work, fs0: Links, fs: Links, staged: bool, spot: Spot) {
    && w.stage !in fs0
    && Get(fs, w.stage) == (if staged then Some(Link(w.source)) else None)
    && match spot {
         case Orig => Get(fs, w.dest) == Get(fs0, w.dest) && Get(fs, w.backup) == Get(fs0, w.backup)
         case Away => w.dest !in fs && Kept(w, fs0, fs)
         case New => Get(fs, w.dest) == Some(Link(w.source)) && Kept(w, fs0, fs)
       }
  }

  // The old link of a replaced destination waits in its backup.
  ghost predicate Kept(w: Work, fs0: Links, fs: Links) {
    if w.swap then w.backup !in fs0 && Get(fs, w.backup) == Get(fs0, w.dest)
    else Get(fs, w.backup) == Get(fs0, w.backup)
  }

  // Every name outside the first n adapters is as it was found.
  ghost predicate Around(work: seq<Work>, n: nat, fs0: Links, fs: Links)
    requires n <= |work|
  {
    forall p :: Get(fs, p) != Get(fs0, p) ==> exists k :: 0 <= k < n && p in Names(work[k])
  }

  ghost predicate SameBut(a: Links, b: Links, but: set<Path>) {
    forall p :: p !in but ==> Get(a, p) == Get(b, p)
  }

  // What holds at the names of one adapter.
  datatype Phase = Phase(staged: bool, spot: Spot)

  ghost predicate Shaped(work: seq<Work>, sh: seq<Phase>, fs0: Links, fs: Links) {
    && |sh| <= |work|
    && (forall k :: 0 <= k < |sh| ==> Item(work[k], fs0, fs, sh[k].staged, sh[k].spot))
    && Around(work, |sh|, fs0, fs)
  }

  lemma DerivedPaths(d: Path, e: Path)
    ensures StagePath(d) != BackupPath(e)
    ensures StagePath(d) == StagePath(e) ==> d == e
    ensures BackupPath(d) == BackupPath(e) ==> d == e
  {
    var s, b := ".tgw-w18-next", ".tgw-w18-previous";
    var x, y := StagePath(d).name, BackupPath(e).name;
    assert x[|x| - 1] == 't' && y[|y| - 1] == 's';
    if StagePath(d) == StagePath(e) {
      var x, y := "." + d.name + s, "." + e.name + s;
      assert d.name == x[1..|x| - |s|] && e.name == y[1..|y| - |s|];
    }
    if BackupPath(d) == BackupPath(e) {
      var x, y := "." + d.name + b, "." + e.name + b;
      assert d.name == x[1..|x| - |b|] && e.name == y[1..|y| - |b|];
    }
  }

  lemma OtherItem(work: seq<Work>, n: nat, i: nat, k: nat, fs0: Links, fs: Links, fs': Links, staged: bool, spot: Spot)
    requires i < n <= |work| && k < n && k != i && Separate(work) && Distinct(work, n)
    requires SameBut(fs, fs', Names(work[i]))
    requires Item(work[k], fs0, fs, staged, spot)
    ensures Item(work[k], fs0, fs', staged, spot)
  {
    assert Apart(work[i], work[k]) && Apart(work[k], work[i]) && work[i].dest != work[k].dest;
    assert work[k].dest !in Names(work[i]) && work[k].stage !in Names(work[i]) && work[k].backup !in Names(work[i]);
  }

  // A step at the names of adapter i changes its phase and nothing else.
  lemma ShapeStep(work: seq<Work>, sh: seq<Phase>, i: nat, next: Phase, fs0: Links, fs: Links, fs': Links)
    requires Shaped(work, sh, fs0, fs) && i < |sh| && Separate(work) && Distinct(work, |sh|)
    requires SameBut(fs, fs', Names(work[i])) && Item(work[i], fs0, fs', next.staged, next.spot)
    ensures Shaped(work, sh[i := next], fs0, fs')
  {
    forall k | 0 <= k < |sh| && k != i ensures Item(work[k], fs0, fs', sh[k].staged, sh[k].spot) {
      OtherItem(work, |sh|, i, k, fs0, fs, fs', sh[k].staged, sh[k].spot);
    }
  }

  // m adapters linked, adapter m perhaps set aside, the others only staged.
  ghost predicate SwapShape(work: seq<Work>, sh: seq<Phase>, m: nat, aside: bool)
  {
    && |sh| <= |work| && (aside ==> m < |sh| && work[m].swap)
    && m <= |sh|
    && (forall k :: 0 <= k < m ==> sh[k] == Phase(false, New))
    && (forall k :: m <= k < |sh| ==> sh[k] == Phase(true, if aside && k == m then Away else Orig))
  }

  // Nothing is in the way of the work.
  ghost predicate Clear(work: seq<Work>, fs: Links) {
    && Distinct(work, |work|)
    && forall k :: 0 <= k < |work| ==> work[k].stage !in fs && (work[k].swap ==> work[k].backup !in fs)
  }

  // A stage name that is taken was taken before, or by an earlier adapter.
  lemma StageTaken(work: seq<Work>, n: nat, fs0: Links, fs: Links)
    requires n < |work| && Separate(work) && StagesOnly(work, n, fs0, fs) && work[n].stage in fs
    ensures !Clear(work, fs0)
  {
    if work[n].stage !in fs0 {
      assert Get(fs, work[n].stage) != Get(fs0, work[n].stage);
      var k :| 0 <= k < n && work[n].stage == work[k].stage;
      assert Apart(work[k], work[n]);
    }
  }

  // Whatever was there is still there, at its name or in the backup of that name.
  ghost predicate NothingLost(work: seq<Work>, fs0: Links, fs: Links) {
    forall p :: p in fs0 ==>
      Get(fs, p) == Get(fs0, p) || exists k :: 0 <= k < |work| && p == work[k].dest && Get(fs, work[k].backup) == Get(fs0, p)
  }

  lemma ShapedKeeps(work: seq<Work>, sh: seq<Phase>, fs0: Links, fs: Links)
    requires Shaped(work, sh, fs0, fs) && Planned(fs0, work)
    ensures NothingLost(work, fs0, fs)
  {
    forall p | p in fs0 && Get(fs, p) != Get(fs0, p)
      ensures exists k :: 0 <= k < |work| && p == work[k].dest && Get(fs, work[k].backup) == Get(fs0, p)
    {
      var k :| 0 <= k < |sh| && p in Names(work[k]);
      assert Item(work[k], fs0, fs, sh[k].staged, sh[k].spot);
    }
  }

  class Store {
    const host: Host
    const steady: bool  // no system call fails
    var fs: Links

    constructor (host: Host, fs: Links, steady: bool)
      ensures this.host == host && this.fs == fs && this.steady == steady
    {
      this.host, this.fs, this.steady := host, fs, steady;
    }

    // Whether a system call fails.
    method Fails() returns (failed: bool)
      ensures steady ==> !failed
    {
      failed := *;
      if steady { failed := false; }
    }

    // Create the staged link of every adapter; stops at a taken name or an error.
    method StageAll(work: seq<Work>) returns (n: nat, ghost sh: seq<Phase>)
      requires Separate(work)
      modifies this
      ensures n == |sh| <= |work| && Distinct(work, n)
      ensures Shaped(work, sh, old(fs), fs) && SwapShape(work, sh, 0, false)
      ensures steady && Clear(work, old(fs)) ==> n == |work|
    {
      n := 0;
      while n < |work|
        invariant n <= |work| && Distinct(work, n)
        invariant forall k :: 0 <= k < n ==> StageUp(work[k], old(fs), fs)
        invariant StagesOnly(work, n, old(fs), fs)
      {
        var failed := Fails();
        if work[n].stage in fs || failed {
          if steady { StageTaken(work, n, old(fs), fs); }
          break;
        }
        StageNext(work, n, old(fs), fs, Link(work[n].source));
        fs := fs[work[n].stage := Link(work[n].source)];
        n := n + 1;
      }
      OnlyStages(work, n, old(fs), fs);
      sh := seq(n, k => Phase(true, Orig));
    }

    // Put adapter m in place, first setting a replaced link aside.
    method SwapOne(work: seq<Work>, m: nat, ghost sh: seq<Phase>, ghost fs0: Links)
      returns (ok: bool, aside: bool, ghost sh': seq<Phase>)
      requires m < |work| == |sh| && Separate(work) && Distinct(work, |work|)
      requires Shaped(work, sh, fs0, fs) && SwapShape(work, sh, m, false)
      modifies this
      ensures |sh'| == |sh| && Shaped(work, sh', fs0, fs)
      ensures ok ==> SwapShape(work, sh', m + 1, false)
      ensures steady && Clear(work, fs0) && Planned(fs0, work) ==> ok
      ensures !ok ==> SwapShape(work, sh', m, aside)
    {
      var w := work[m];
      ghost var before := fs;
      assert Item(w, fs0, fs, true, Orig) && Apart(work[m], work[m]);
      sh', aside := sh, false;
      if w.swap {
        var failed := Fails();
        if w.dest !in fs || !fs[w.dest].Link? || w.backup in fs || failed { return false, false, sh; }
        fs := fs[w.backup := fs[w.dest]] - {w.dest};
        ShapeStep(work, sh, m, Phase(true, Away), fs0, before, fs);
        sh', aside := sh[m := Phase(true, Away)], true;
      }
      var failed := Fails();
      if failed { return false, aside, sh'; }
      fs := fs[w.dest := fs[w.stage]] - {w.stage};
      ShapeStep(work, sh, m, Phase(false, New), fs0, before, fs);
      return true, false, sh[m := Phase(false, New)];
    }

    // On failure the first m adapters are linked and adapter m may be set aside.
    method SwapAll(work: seq<Work>, ghost start: seq<Phase>, ghost fs0: Links)
      returns (ok: bool, m: nat, aside: bool, ghost sh: seq<Phase>)
      requires |work| == |start| && Separate(work) && Distinct(work, |work|)
      requires Shaped(work, start, fs0, fs) && SwapShape(work, start, 0, false)
      modifies this
      ensures |sh| == |work| && Shaped(work, sh, fs0, fs) && SwapShape(work, sh, m, aside)
      ensures ok ==> m == |work| && !aside
      ensures steady && Clear(work, fs0) && Planned(fs0, work) ==> ok
    {
      m, sh := 0, start;
      while m < |work|
        invariant m <= |work| == |sh| && Shaped(work, sh, fs0, fs) && SwapShape(work, sh, m, false)
      {
        ok, aside, sh := SwapOne(work, m, sh, fs0);
        if !ok { return false, m, aside, sh; }
        m := m + 1;
      }
      return true, m, false, sh;
    }

    // First part of the handler: free every linked destination.
    method FreeLinked(work: seq<Work>, m: nat, ghost start: seq<Phase>, ghost fs0: Links) returns (done: bool, ghost sh: seq<Phase>)
      requires m <= |start| <= |work| && Separate(work) && Distinct(work, |start|) && Shaped(work, start, fs0, fs)
      requires forall k :: 0 <= k < m ==> start[k] == Phase(false, New)
      modifies this
      ensures |sh| == |start| && Shaped(work, sh, fs0, fs)
      ensures done ==> forall k :: 0 <= k < |sh| ==> sh[k] == if k < m then Phase(false, Away) else start[k]
    {
      sh := start;
      for i := m downto 0
        invariant |sh| == |start| && Shaped(work, sh, fs0, fs)
        invariant forall k :: 0 <= k < |sh| ==> sh[k] == if i <= k < m then Phase(false, Away) else start[k]
      {
        var w := work[i];
        ghost var before := fs;
        assert Item(w, fs0, fs, false, New) && Apart(work[i], work[i]);
        var failed := Fails();
        if failed { return false, sh; }
        if w.dest in fs && fs[w.dest].Link? {
          fs := fs - {w.dest};
        }
        ShapeStep(work, sh, i, Phase(false, Away), fs0, before, fs);
        sh := sh[i := Phase(false, Away)];
      }
      done := true;
    }

    // Second part: bring every link that was set aside back.
    method BringBack(work: seq<Work>, top: nat, ghost start: seq<Phase>, ghost fs0: Links) returns (done: bool, ghost sh: seq<Phase>)
      requires top <= |start| <= |work| && Separate(work) && Distinct(work, |start|) && Planned(fs0, work)
      requires Shaped(work, start, fs0, fs)
      requires forall k :: 0 <= k < top ==> start[k].spot == Away
      modifies this
      ensures |sh| == |start| && Shaped(work, sh, fs0, fs)
      ensures done ==> forall k :: 0 <= k < |sh| ==> sh[k] == if k < top then start[k].(spot := Orig) else start[k]
    {
      sh := start;
      for i := top downto 0
        invariant |sh| == |start| && Shaped(work, sh, fs0, fs)
        invariant forall k :: 0 <= k < |sh| ==> sh[k] == if i <= k < top then start[k].(spot := Orig) else start[k]
      {
        var w := work[i];
        ghost var before := fs;
        assert Item(w, fs0, fs, start[i].staged, Away) && Apart(work[i], work[i]);
        var failed := Fails();
        if failed { return false, sh; }
        if w.swap && w.backup in fs && fs[w.backup].Link? {
          fs := fs[w.dest := fs[w.backup]] - {w.backup};
        }
        ShapeStep(work, sh, i, start[i].(spot := Orig), fs0, before, fs);
        sh := sh[i := start[i].(spot := Orig)];
      }
      done := true;
    }

    // Last part: drop the stages that were never moved.
    method DropStages(work: seq<Work>, n: nat, ghost start: seq<Phase>, ghost fs0: Links)
      returns (done: bool, ghost sh: seq<Phase>)
      requires n == |start| <= |work| && Separate(work) && Distinct(work, n) && Shaped(work, start, fs0, fs)
      requires forall k :: 0 <= k < n ==> start[k].spot == Orig
      modifies this
      ensures |sh| == |start| && Shaped(work, sh, fs0, fs)
      ensures done ==> fs == fs0
    {
      sh := start;
      for i := 0 to n
        invariant |sh| == n && Shaped(work, sh, fs0, fs)
        invariant forall k :: 0 <= k < n ==> sh[k].spot == Orig && (k < i ==> !sh[k].staged)
      {
        var w := work[i];
        ghost var before := fs;
        assert Item(w, fs0, fs, sh[i].staged, Orig) && Apart(work[i], work[i]);
        var failed := Fails();
        if failed { return false, sh; }
        if w.stage in fs && fs[w.stage].Link? {
          fs := fs - {w.stage};
        }
        ShapeStep(work, sh, i, Phase(false, Orig), fs0, before, fs);
        sh := sh[i := Phase(false, Orig)];
      }
      AllOrig(work, sh, fs0, fs);
      done := true;
    }

    // The handler: free, bring back, drop; a step of it may raise too.
    method Recover(work: seq<Work>, n: nat, m: nat, aside: bool, ghost start: seq<Phase>, ghost fs0: Links)
      returns (recovered: bool)
      requires n == |start| <= |work| && Separate(work) && Distinct(work, n) && Planned(fs0, work)
      requires Shaped(work, start, fs0, fs) && SwapShape(work, start, m, aside)
      modifies this
      ensures recovered ==> fs == fs0
      ensures NothingLost(work, fs0, fs)
    {
      ghost var sh;
      recovered, sh := FreeLinked(work, m, start, fs0);
      if recovered {
        recovered, sh := BringBack(work, if aside then m + 1 else m, sh, fs0);
        if recovered {
          recovered, sh := DropStages(work, n, sh, fs0);
        }
      }
      ShapedKeeps(work, sh, fs0, fs);
    }

    /** The effects of one fleet materialization; any step may raise, the recovery's
        included. */
    method LinkAll(work: seq<Work>) returns (ok: bool, journal: seq<Undo>, recovered: bool)
      requires Separate(work) && Planned(fs, work)
      modifies this
      ensures ok ==> Finished(work, old(fs), fs) && journal == Journal(work) && recovered
      ensures !ok && recovered ==> fs == old(fs)
      ensures steady && Clear(work, old(fs)) ==> ok
      ensures NothingLost(work, old(fs), fs)
    {
      ghost var fs0 := fs;
      var n, sh := StageAll(work);
      var m, aside := 0, false;
      if n == |work| {
        ok, m, aside, sh := SwapAll(work, sh, fs0);
        if ok {
          assert forall k :: 0 <= k < |work| ==> Item(work[k], fs0, fs, sh[k].staged, sh[k].spot);
          ShapedKeeps(work, sh, fs0, fs);
          return true, Journal(work), true;
        }
      }
      recovered := Recover(work, n, m, aside, sh, fs0);
      return false, [], recovered;
    }

    /** Classify every adapter, refuse any conflict, link what is missing or
        replaceable, then read every source for the report.  `committed` says that the
        links were placed. */
    method Materialize(adapters: seq<Adapter>, apply: bool, replaceExisting: bool)
      returns (ok: bool, journal: seq<Undo>, ghost committed: bool, ghost recovered: bool)
      requires Reserved(adapters)
      modifies this
      ensures (exists a :: a in adapters && Blocked(host, old(fs), a, replaceExisting)) ==> !ok && !committed && fs == old(fs)
      ensures !committed && recovered ==> fs == old(fs)
      ensures committed || !apply ==> recovered
      ensures !committed ==> Survives(adapters, old(fs), fs)
      ensures OnlyReplaced(host, adapters, replaceExisting, old(fs), fs)
      ensures !replaceExisting ==> forall p :: p in old(fs) ==> Get(fs, p) == Get(old(fs), p)
      ensures forall p :: p in old(fs) && !old(fs)[p].Link? ==> Get(fs, p) == Get(old(fs), p)
      ensures committed ==> apply && forall a :: a in adapters && Due(host, old(fs), a, replaceExisting) ==>
        Get(fs, a.dest) == Some(Link(a.source)) && (a.dest in old(fs) ==> Get(fs, BackupPath(a.dest)) == Get(old(fs), a.dest))
      ensures committed ==> (fs == old(fs) <==> forall a :: a in adapters ==> !Due(host, old(fs), a, replaceExisting))
      ensures steady && apply && InOrder(host, adapters, old(fs), replaceExisting) ==> committed
      ensures ok ==> Reports(host, adapters) && (apply <==> committed)
      ensures committed ==> (ok <==> Reports(host, adapters))
      ensures ok && apply ==>
        Rolled(host, fs, journal) == (if WillAnchor(host, old(fs), adapters, replaceExisting) then Some(old(fs)) else None)
    {
      hide Classify, Covers, Planned, Derived, Reserved, Rolled, Separate, Finished, AllAnchored, WillAnchor, Reports, NothingLost;
      hide Blocked, Due, InOrder, OnlyReplaced, Clear, Wanted;
      ghost var fs0 := fs;
      Sorted(host, fs, adapters, replaceExisting);
      var work, clear := PlanWork(adapters, replaceExisting);
      committed, recovered := false, true;
      NothingReplaced(host, adapters, replaceExisting, fs);
      if !clear { return false, [], false, true; }
      if apply {
        DerivedSeparate(adapters, work);
        ok, journal, recovered := LinkAll(work);
        LostNothing(adapters, work, fs0, fs);
        OnlyThose(host, adapters, replaceExisting, work, fs0, fs);
        KeptNames(host, adapters, replaceExisting, fs0, fs);
        if !ok { return false, [], false, recovered; }
        committed := true;
        RollbackInverts(host, work, fs0, fs);
        FinishedChanges(work, fs0, fs);
        Covered(host, adapters, replaceExisting, work, fs0, fs);
      } else {
        journal := [];
        KeptNames(host, adapters, replaceExisting, fs0, fs);
      }
      ok := Report(adapters);
    }

    // The adapters to link, unless one conflicts.
    method PlanWork(adapters: seq<Adapter>, replaceExisting: bool) returns (work: seq<Work>, clear: bool)
      ensures clear <==> forall a :: a in adapters ==> Classify(host, fs, a, replaceExisting) != CONFLICT
      ensures clear ==> Derived(adapters, work) && Planned(fs, work) && Covers(host, fs, adapters, replaceExisting, work)
      ensures InOrder(host, adapters, fs, replaceExisting) ==> clear && Clear(work, fs)
    {
      hide Classify, Covers;
      work, clear := [], true;
      NothingCovered(host, fs, replaceExisting);
      assert adapters[..0] == [];
      for i := 0 to |adapters|
        invariant forall a :: a in adapters[..i] ==> Classify(host, fs, a, replaceExisting) != CONFLICT
        invariant Covers(host, fs, adapters[..i], replaceExisting, work) && Planned(fs, work)
        invariant OneEach(adapters) ==> Distinct(work, |work|)
      {
        var a := adapters[i];
        var state := Classify(host, fs, a, replaceExisting);
        assert a in adapters;
        if state == CONFLICT {
          Sorted(host, fs, adapters, replaceExisting);
          return [], false;
        }
        CoversSnoc(host, fs, adapters[..i], replaceExisting, work, a, state == REPLACEABLE);
        if OneEach(adapters) { NewDest(host, fs, adapters, i, replaceExisting, work); }
        assert adapters[..i + 1] == adapters[..i] + [a];
        if state == MISSING || state == REPLACEABLE {
          ClassifiedAt(host, fs, a, replaceExisting);
          work := work + [WorkFor(a, state == REPLACEABLE)];
        }
      }
      assert adapters[..|adapters|] == adapters;
      CoversDerived(host, fs, adapters, replaceExisting, work);
      if InOrder(host, adapters, fs, replaceExisting) { FreeNames(host, fs, adapters, replaceExisting, work); }
    }

    // Read every source for its digest.
    method Report(adapters: seq<Adapter>) returns (ok: bool)
      ensures ok <==> Reports(host, adapters)
    {
      for i := 0 to |adapters|
        invariant forall k :: 0 <= k < i ==> host.readable(adapters[k].source)
      {
        if !host.readable(adapters[i].source) { return false; }
      }
      ok := true;
    }

    // Roll a finished materialization back from its returned journal.
    method Rollback(journal: seq<Undo>) returns (ok: bool)
      modifies this
      ensures ok <==> Rolled(host, old(fs), journal).Some?
      ensures ok ==> fs == Rolled(host, old(fs), journal).value
    {
      var i := |journal|;
      assert journal[..i] == journal;
      while i > 0
        invariant 0 <= i <= |journal| && Rolled(host, fs, journal[..i]) == Rolled(host, old(fs), journal)
      {
        i := i - 1;
        var u := journal[i];
        assert journal[..i + 1][..i] == journal[..i];
        if !SameLink(host, fs, u.dest, u.source) { return false; }
        fs := fs - {u.dest};
        if u.previous.Some? {
          if u.previous.value !in fs || !fs[u.previous.value].Link? { return false; }
          fs := fs[u.dest := fs[u.previous.value]] - {u.previous.value};
        }
      }
      ok := true;
    }
  }

  ghost predicate Has(work: seq<Work>, a: Adapter) {
    exists k :: 0 <= k < |work| && work[k].dest == a.dest && work[k].source == a.source
  }

  ghost predicate Comes(h: Host, fs: Links, adapters: seq<Adapter>, replaceExisting: bool, w: Work) {
    exists a :: a in adapters && Wanted(h, fs, a, replaceExisting) && w == WorkFor(a, w.swap)
  }

  // The work is that of the adapters that get a new link, no more and no less.
  ghost predicate Covers(h: Host, fs: Links, adapters: seq<Adapter>, replaceExisting: bool, work: seq<Work>) {
    && (forall a :: a in adapters && Wanted(h, fs, a, replaceExisting) ==> Has(work, a))
    && (forall k :: 0 <= k < |work| ==> Comes(h, fs, adapters, replaceExisting, work[k]))
  }

  lemma NothingCovered(h: Host, fs: Links, replaceExisting: bool)
    ensures Covers(h, fs, [], replaceExisting, [])
  {}

  lemma ClassifiedAt(h: Host, fs: Links, a: Adapter, replaceExisting: bool)
    ensures Classify(h, fs, a, replaceExisting) == MISSING ==> a.dest !in fs
    ensures Classify(h, fs, a, replaceExisting) == REPLACEABLE ==> a.dest in fs && fs[a.dest].Link?
  {}

  lemma ComesStill(h: Host, fs: Links, adapters: seq<Adapter>, replaceExisting: bool, w: Work, a: Adapter)
    requires Comes(h, fs, adapters, replaceExisting, w)
    ensures Comes(h, fs, adapters + [a], replaceExisting, w)
  {
    hide Wanted, WorkFor;
    var b :| b in adapters && Wanted(h, fs, b, replaceExisting) && w == WorkFor(b, w.swap);
    assert b in adapters + [a];
  }

  lemma ComesNow(h: Host, fs: Links, adapters: seq<Adapter>, replaceExisting: bool, a: Adapter, swap: bool)
    requires Wanted(h, fs, a, replaceExisting)
    ensures Comes(h, fs, adapters + [a], replaceExisting, WorkFor(a, swap))
  {
    hide Wanted;
    assert a in adapters + [a] && WorkFor(a, swap).swap == swap;
  }

  lemma HasStill(work: seq<Work>, w: Work, b: Adapter)
    requires Has(work, b)
    ensures Has(work + [w], b)
  {
    var k :| 0 <= k < |work| && work[k].dest == b.dest && work[k].source == b.source;
    assert (work + [w])[k] == work[k];
  }

  lemma HasNow(work: seq<Work>, a: Adapter, swap: bool)
    ensures Has(work + [WorkFor(a, swap)], a)
  {
    assert (work + [WorkFor(a, swap)])[|work|] == WorkFor(a, swap);
  }

  lemma CoversSnoc(h: Host, fs: Links, adapters: seq<Adapter>, replaceExisting: bool, work: seq<Work>, a: Adapter, swap: bool)
    requires Covers(h, fs, adapters, replaceExisting, work)
    ensures Covers(h, fs, adapters + [a], replaceExisting,
                   if Wanted(h, fs, a, replaceExisting) then work + [WorkFor(a, swap)] else work)
  {
    hide Wanted, WorkFor, Has, Comes;
    var w := WorkFor(a, swap);
    forall k | 0 <= k < |work| ensures Comes(h, fs, adapters + [a], replaceExisting, work[k]) {
      ComesStill(h, fs, adapters, replaceExisting, work[k], a);
    }
    if Wanted(h, fs, a, replaceExisting) {
      ComesNow(h, fs, adapters, replaceExisting, a, swap);
      HasNow(work, a, swap);
      forall b | b in adapters && Wanted(h, fs, b, replaceExisting) ensures Has(work + [w], b) { HasStill(work, w, b); }
    }
  }

  lemma CoversDerived(h: Host, fs: Links, adapters: seq<Adapter>, replaceExisting: bool, work: seq<Work>)
    requires Covers(h, fs, adapters, replaceExisting, work)
    ensures Derived(adapters, work)
  {
    hide Wanted, WorkFor;
    forall k | 0 <= k < |work| ensures DerivedFrom(adapters, work[k]) {
      assert Comes(h, fs, adapters, replaceExisting, work[k]);
      var a :| a in adapters && Wanted(h, fs, a, replaceExisting) && work[k] == WorkFor(a, work[k].swap);
      var i :| 0 <= i < |adapters| && adapters[i] == a;
      assert work[k] == WorkFor(adapters[i], work[k].swap);
    }
  }

  // The same, by adapter.
  ghost predicate Survives(adapters: seq<Adapter>, fs0: Links, fs: Links) {
    forall p :: p in fs0 ==>
      Get(fs, p) == Get(fs0, p) || exists a :: a in adapters && p == a.dest && Get(fs, BackupPath(p)) == Get(fs0, p)
  }

  lemma LostNothing(adapters: seq<Adapter>, work: seq<Work>, fs0: Links, fs: Links)
    requires Derived(adapters, work) && NothingLost(work, fs0, fs)
    ensures Survives(adapters, fs0, fs)
  {
    forall p | p in fs0 && Get(fs, p) != Get(fs0, p)
      ensures exists a :: a in adapters && p == a.dest && Get(fs, BackupPath(p)) == Get(fs0, p)
    {
      var k :| 0 <= k < |work| && p == work[k].dest && Get(fs, work[k].backup) == Get(fs0, p);
      assert DerivedFrom(adapters, work[k]);
      var i :| 0 <= i < |adapters| && work[k] == WorkFor(adapters[i], work[k].swap);
      assert adapters[i] in adapters;
    }
  }

  lemma FinishedChanges(work: seq<Work>, fs0: Links, fs: Links)
    requires Planned(fs0, work) && Finished(work, fs0, fs)
    ensures fs == fs0 <==> work == []
  {
    if work != [] {
      assert Item(work[0], fs0, fs, false, New);
    } else {
      AllOrig(work, [], fs0, fs);
    }
  }

  lemma Covered(h: Host, adapters: seq<Adapter>, replaceExisting: bool, work: seq<Work>, fs0: Links, fs: Links)
    requires Covers(h, fs0, adapters, replaceExisting, work) && Derived(adapters, work) && Planned(fs0, work)
    requires Finished(work, fs0, fs)
    ensures work == [] <==> forall a :: a in adapters ==> !Due(h, fs0, a, replaceExisting)
    ensures forall a :: a in adapters && Due(h, fs0, a, replaceExisting) ==>
      Get(fs, a.dest) == Some(Link(a.source)) && (a.dest in fs0 ==> Get(fs, BackupPath(a.dest)) == Get(fs0, a.dest))
    ensures AllAnchored(h, work, |work|) <==> WillAnchor(h, fs0, adapters, replaceExisting)
  {
    hide Wanted, Anchored, Due;
    Sorted(h, fs0, adapters, replaceExisting);
    forall a | a in adapters && Wanted(h, fs0, a, replaceExisting)
      ensures Get(fs, a.dest) == Some(Link(a.source)) && (a.dest in fs0 ==> Get(fs, BackupPath(a.dest)) == Get(fs0, a.dest))
      ensures AllAnchored(h, work, |work|) ==> Anchored(h, a.dest, a.source)
    {
      assert Has(work, a);
      var k :| 0 <= k < |work| && work[k].dest == a.dest && work[k].source == a.source;
      assert Item(work[k], fs0, fs, false, New) && DerivedFrom(adapters, work[k]);
    }
    forall k | 0 <= k < |work|
      ensures exists a :: a in adapters && Wanted(h, fs0, a, replaceExisting) && a.dest == work[k].dest && a.source == work[k].source
    {
      assert Comes(h, fs0, adapters, replaceExisting, work[k]);
    }
    if work != [] { assert Comes(h, fs0, adapters, replaceExisting, work[0]); }
  }

  /* ---- what classification decides, without naming the states ---- */

  // A destination that is taken by something the call may not replace.
  predicate Blocked(h: Host, fs: Links, a: Adapter, replaceExisting: bool) {
    a.dest in fs && !SameLink(h, fs, a.dest, a.source) && !(fs[a.dest].Link? && replaceExisting) && !a.holdLegacy
  }

  // A destination that is free, or a foreign link that the call is told to replace.
  predicate Due(h: Host, fs: Links, a: Adapter, replaceExisting: bool) {
    a.dest !in fs || (replaceExisting && fs[a.dest].Link? && !SameLink(h, fs, a.dest, a.source))
  }

  /** A conflict is a blocked destination, and a link is due where the names say so. */
  lemma Sorted(h: Host, fs: Links, adapters: seq<Adapter>, replaceExisting: bool)
    ensures forall a :: a in adapters ==>
      && (Classify(h, fs, a, replaceExisting) == CONFLICT <==> Blocked(h, fs, a, replaceExisting))
      && (Wanted(h, fs, a, replaceExisting) <==> Due(h, fs, a, replaceExisting))
  {}

  // No two adapters share a destination.
  ghost predicate OneEach(adapters: seq<Adapter>) {
    forall i, j :: 0 <= i < j < |adapters| ==> adapters[i].dest != adapters[j].dest
  }

  // Nothing blocks the call and every name it derives is free.
  ghost predicate InOrder(h: Host, adapters: seq<Adapter>, fs: Links, replaceExisting: bool) {
    && OneEach(adapters)
    && forall a :: a in adapters ==>
         && !Blocked(h, fs, a, replaceExisting)
         && (Due(h, fs, a, replaceExisting) ==> StagePath(a.dest) !in fs && BackupPath(a.dest) !in fs)
  }

  lemma NewDest(h: Host, fs: Links, adapters: seq<Adapter>, i: nat, replaceExisting: bool, work: seq<Work>)
    requires i < |adapters| && OneEach(adapters) && Covers(h, fs, adapters[..i], replaceExisting, work)
    ensures forall k :: 0 <= k < |work| ==> work[k].dest != adapters[i].dest
  {
    hide Wanted;
    forall k | 0 <= k < |work| ensures work[k].dest != adapters[i].dest {
      assert Comes(h, fs, adapters[..i], replaceExisting, work[k]);
      var a :| a in adapters[..i] && Wanted(h, fs, a, replaceExisting) && work[k] == WorkFor(a, work[k].swap);
      var j :| 0 <= j < i && adapters[..i][j] == a;
    }
  }

  lemma FreeNames(h: Host, fs: Links, adapters: seq<Adapter>, replaceExisting: bool, work: seq<Work>)
    requires Covers(h, fs, adapters, replaceExisting, work) && InOrder(h, adapters, fs, replaceExisting)
    requires Distinct(work, |work|)
    ensures Clear(work, fs)
  {
    hide Wanted, Due, Blocked, StagePath, BackupPath;
    Sorted(h, fs, adapters, replaceExisting);
    forall k | 0 <= k < |work| ensures work[k].stage !in fs && work[k].backup !in fs {
      assert Comes(h, fs, adapters, replaceExisting, work[k]);
    }
  }

  // A name that held something changes only if it held a foreign link that some adapter
  // was told to replace.
  ghost predicate OnlyReplaced(h: Host, adapters: seq<Adapter>, replaceExisting: bool, fs0: Links, fs: Links) {
    forall p :: p in fs0 && Get(fs, p) != Get(fs0, p) ==>
      && replaceExisting && fs0[p].Link?
      && exists a :: a in adapters && a.dest == p && !SameLink(h, fs0, p, a.source)
  }

  lemma NothingReplaced(h: Host, adapters: seq<Adapter>, replaceExisting: bool, fs: Links)
    ensures OnlyReplaced(h, adapters, replaceExisting, fs, fs)
  {}

  lemma OnlyThose(h: Host, adapters: seq<Adapter>, replaceExisting: bool, work: seq<Work>, fs0: Links, fs: Links)
    requires Covers(h, fs0, adapters, replaceExisting, work) && NothingLost(work, fs0, fs)
    ensures OnlyReplaced(h, adapters, replaceExisting, fs0, fs)
  {
    hide Wanted, Due, SameLink, Comes;
    forall p | p in fs0 && Get(fs, p) != Get(fs0, p)
      ensures replaceExisting && fs0[p].Link? && exists a :: a in adapters && a.dest == p && !SameLink(h, fs0, p, a.source)
    {
      var k :| 0 <= k < |work| && p == work[k].dest && Get(fs, work[k].backup) == Get(fs0, p);
      var a := ComesFrom(h, fs0, adapters, replaceExisting, work[k]);
    }
  }

  lemma ComesFrom(h: Host, fs: Links, adapters: seq<Adapter>, replaceExisting: bool, w: Work) returns (a: Adapter)
    requires Comes(h, fs, adapters, replaceExisting, w)
    ensures a in adapters && a.dest == w.dest && !SameLink(h, fs, w.dest, a.source)
    ensures w.dest in fs ==> replaceExisting && fs[w.dest].Link?
  {
    a :| a in adapters && Wanted(h, fs, a, replaceExisting) && w == WorkFor(a, w.swap);
  }

  lemma KeptNames(h: Host, adapters: seq<Adapter>, replaceExisting: bool, fs0: Links, fs: Links)
    requires OnlyReplaced(h, adapters, replaceExisting, fs0, fs)
    ensures !replaceExisting ==> forall p :: p in fs0 ==> Get(fs, p) == Get(fs0, p)
    ensures forall p :: p in fs0 && !fs0[p].Link? ==> Get(fs, p) == Get(fs0, p)
  {}

  ghost predicate DerivedFrom(adapters: seq<Adapter>, w: Work) {
    exists i :: 0 <= i < |adapters| && w == WorkFor(adapters[i], w.swap)
  }

  ghost predicate Derived(adapters: seq<Adapter>, work: seq<Work>) {
    forall k :: 0 <= k < |work| ==> DerivedFrom(adapters, work[k])
  }

  lemma DerivedSeparate(adapters: seq<Adapter>, work: seq<Work>)
    requires Reserved(adapters) && Derived(adapters, work)
    ensures Separate(work)
  {
    forall i, j | 0 <= i < |work| && 0 <= j < |work| ensures Apart(work[i], work[j]) {
      assert DerivedFrom(adapters, work[i]) && DerivedFrom(adapters, work[j]);
      DerivedPaths(work[i].dest, work[j].dest);
    }
  }

  function Journal(work: seq<Work>): (r: seq<Undo>)
    ensures |r| == |work|
  {
    seq(|work|, i requires 0 <= i < |work| =>
      Undo(work[i].dest, work[i].source, if work[i].swap then Some(work[i].backup) else None))
  }

  // What rolling one journal entry back leaves, if its checks pass.
  function RolledOne(h: Host, fs: Links, u: Undo): Option<Links> {
    if !SameLink(h, fs, u.dest, u.source) then None
    else if u.previous.None? then Some(fs - {u.dest})
    else
      var gone := fs - {u.dest};
      if u.previous.value !in gone || !gone[u.previous.value].Link? then None
      else Some(gone[u.dest := gone[u.previous.value]] - {u.previous.value})
  }

  // The journal is rolled back from its last entry to its first.
  function Rolled(h: Host, fs: Links, journal: seq<Undo>): Option<Links> {
    if journal == [] then Some(fs)
    else
      var last := |journal| - 1;
      match RolledOne(h, fs, journal[last])
      case None => None
      case Some(next) => Rolled(h, next, journal[..last])
  }

  // Every adapter linked, every replaced link in its backup, no stage left, all
  // other names as found.
  ghost predicate Finished(work: seq<Work>, fs0: Links, fs: Links) {
    && Distinct(work, |work|)
    && (forall k :: 0 <= k < |work| ==> Item(work[k], fs0, fs, false, New))
    && Around(work, |work|, fs0, fs)
  }

  lemma AllOrig(work: seq<Work>, sh: seq<Phase>, fs0: Links, fs: Links)
    requires Shaped(work, sh, fs0, fs) && forall k :: 0 <= k < |sh| ==> sh[k] == Phase(false, Orig)
    ensures fs == fs0
  {
    forall p ensures Get(fs, p) == Get(fs0, p) && (p in fs <==> p in fs0) && (p in fs ==> fs[p] == fs0[p]) {
      if k :| 0 <= k < |sh| && p in Names(work[k]) {
        assert Item(work[k], fs0, fs, sh[k].staged, sh[k].spot);
      }
    }
  }

  lemma UndoOne(h: Host, w: Work, fs0: Links, fs: Links, u: Undo)
    requires Apart(w, w) && Item(w, fs0, fs, false, New)
    requires if w.swap then w.dest in fs0 && fs0[w.dest].Link? else w.dest !in fs0
    requires u == Undo(w.dest, w.source, if w.swap then Some(w.backup) else None)
    ensures RolledOne(h, fs, u).Some? <==> Anchored(h, w.dest, w.source)
    ensures RolledOne(h, fs, u).Some? ==>
      Item(w, fs0, RolledOne(h, fs, u).value, false, Orig) && SameBut(fs, RolledOne(h, fs, u).value, Names(w))
  {}

  ghost predicate AllAnchored(h: Host, work: seq<Work>, m: nat)
    requires m <= |work|
  {
    forall k :: 0 <= k < m ==> Anchored(h, work[k].dest, work[k].source)
  }

  lemma RollStep(h: Host, work: seq<Work>, i: nat, sh: seq<Phase>, fs0: Links, fs: Links)
    requires i < |work| == |sh| && Separate(work) && Distinct(work, |work|) && Planned(fs0, work)
    requires Shaped(work, sh, fs0, fs) && sh[i] == Phase(false, New)
    ensures RolledOne(h, fs, Journal(work)[i]).Some? <==> Anchored(h, work[i].dest, work[i].source)
    ensures RolledOne(h, fs, Journal(work)[i]).Some? ==>
      Shaped(work, sh[i := Phase(false, Orig)], fs0, RolledOne(h, fs, Journal(work)[i]).value)
  {
    hide Anchored, RolledOne;
    assert Item(work[i], fs0, fs, sh[i].staged, sh[i].spot) && Apart(work[i], work[i]);
    UndoOne(h, work[i], fs0, fs, Journal(work)[i]);
    if Anchored(h, work[i].dest, work[i].source) {
      ShapeStep(work, sh, i, Phase(false, Orig), fs0, fs, RolledOne(h, fs, Journal(work)[i]).value);
    }
  }

  lemma {:induction false} RollShape(h: Host, work: seq<Work>, m: nat, sh: seq<Phase>, fs0: Links, fs: Links)
    requires m <= |work| == |sh| && Separate(work) && Distinct(work, |work|) && Planned(fs0, work)
    requires Shaped(work, sh, fs0, fs)
    requires forall k :: 0 <= k < |sh| ==> sh[k] == Phase(false, if k < m then New else Orig)
    ensures Rolled(h, fs, Journal(work)[..m]) == if AllAnchored(h, work, m) then Some(fs0) else None
  {
    hide Anchored, RolledOne, Journal, Shaped, Separate, Distinct, Planned;
    if m == 0 {
      AllOrig(work, sh, fs0, fs);
    } else {
      var i := m - 1;
      RollStep(h, work, i, sh, fs0, fs);
      assert Journal(work)[..m][..i] == Journal(work)[..i];
      if Anchored(h, work[i].dest, work[i].source) {
        RollShape(h, work, i, sh[i := Phase(false, Orig)], fs0, RolledOne(h, fs, Journal(work)[i]).value);
      }
    }
  }

  /** Rolling a finished materialization back gives the map it started from exactly
      when every link it placed resolves to its source; otherwise it is refused. */
  lemma RollbackInverts(h: Host, work: seq<Work>, fs0: Links, fs: Links)
    requires Separate(work) && Planned(fs0, work) && Finished(work, fs0, fs)
    ensures Rolled(h, fs, Journal(work)) == if AllAnchored(h, work, |work|) then Some(fs0) else None
  {
    var sh := seq(|work|, k => Phase(false, New));
    RollShape(h, work, |work|, sh, fs0, fs);
    assert Journal(work)[..|work|] == Journal(work);
  }

  // Every source can be read for the report.
  ghost predicate Reports(h: Host, adapters: seq<Adapter>) {
    forall i :: 0 <= i < |adapters| ==> h.readable(adapters[i].source)
  }

  // Whether an adapter gets a new link.
  predicate Wanted(h: Host, fs: Links, a: Adapter, replaceExisting: bool) {
    Classify(h, fs, a, replaceExisting) in {MISSING, REPLACEABLE}
  }

  // Every adapter that gets a new link has a source that resolves to itself.
  ghost predicate WillAnchor(h: Host, fs: Links, adapters: seq<Adapter>, replaceExisting: bool) {
    forall a :: a in adapters && Wanted(h, fs, a, replaceExisting) ==> Anchored(h, a.dest, a.source)
  }

  // The steps of a materialization that links one missing adapter.
  lemma OneLink(a: Adapter) returns (fs1: Links, fs2: Links)
    ensures fs1 == map[StagePath(a.dest) := Link(a.source)]
    ensures fs2 == fs1[a.dest := fs1[StagePath(a.dest)]] - {StagePath(a.dest)} == map[a.dest := Link(a.source)]
  {
    fs1, fs2 := map[StagePath(a.dest) := Link(a.source)], map[a.dest := Link(a.source)];
    assert |StagePath(a.dest).name| > |a.dest.name|;
    assert fs1[a.dest := fs1[StagePath(a.dest)]] - {StagePath(a.dest)} == fs2;
  }

  /** A source with an unreadable file: its link is staged and placed, and only then
      the report raises, with no journal to roll back from. */
  lemma UnreadableSource(h: Host, a: Adapter) returns (fs1: Links, fs2: Links)
    requires !h.readable(a.source)
    ensures Classify(h, map[], a, false) == MISSING
    ensures fs1 == map[StagePath(a.dest) := Link(a.source)]
    ensures fs2 == fs1[a.dest := fs1[StagePath(a.dest)]] - {StagePath(a.dest)}
    ensures fs2 != map[] && a.dest in fs2 && !Reports(h, [a])
  {
    fs1, fs2 := OneLink(a);
    assert [a][0] == a;
  }

  /** A source behind a linked directory: the fleet is linked, nobody touches it, and
      its rollback is refused. */
  lemma UnanchoredSource(h: Host, a: Adapter) returns (fs1: Links, fs2: Links)
    requires !Anchored(h, a.dest, a.source)
    ensures Classify(h, map[], a, false) == MISSING
    ensures fs1 == map[StagePath(a.dest) := Link(a.source)]
    ensures fs2 == fs1[a.dest := fs1[StagePath(a.dest)]] - {StagePath(a.dest)}
    ensures Rolled(h, fs2, Journal([WorkFor(a, false)])) == None
  {
    fs1, fs2 := OneLink(a);
    assert Journal([WorkFor(a, false)])[0] == Undo(a.dest, a.source, None);
  }

  ghost predicate StageUp(w: Work, fs0: Links, fs: Links) {
    w.stage !in fs0 && Get(fs, w.stage) == Some(Link(w.source))
  }

  ghost predicate StagesOnly(work: seq<Work>, n: nat, fs0: Links, fs: Links)
    requires n <= |work|
  {
    forall p :: Get(fs, p) != Get(fs0, p) ==> exists k :: 0 <= k < n && p == work[k].stage
  }

  lemma StageNext(work: seq<Work>, n: nat, fs0: Links, fs: Links, node: Node)
    requires n < |work| && Separate(work) && Distinct(work, n) && work[n].stage !in fs && node == Link(work[n].source)
    requires forall k :: 0 <= k < n ==> StageUp(work[k], fs0, fs)
    requires StagesOnly(work, n, fs0, fs)
    ensures var fs' := fs[work[n].stage := node];
      && (forall k :: 0 <= k < n + 1 ==> StageUp(work[k], fs0, fs'))
      && StagesOnly(work, n + 1, fs0, fs')
      && Distinct(work, n + 1)
  {
    var fs' := fs[work[n].stage := node];
    forall k | 0 <= k < n ensures work[k].stage != work[n].stage && work[k].dest != work[n].dest {
      assert StageUp(work[k], fs0, fs) && Apart(work[k], work[n]);
    }
    assert Get(fs, work[n].stage) == Get(fs0, work[n].stage);
  }

  lemma OnlyStages(work: seq<Work>, n: nat, fs0: Links, fs: Links)
    requires n <= |work| && Separate(work) && StagesOnly(work, n, fs0, fs)
    requires forall k :: 0 <= k < n ==> StageUp(work[k], fs0, fs)
    ensures Shaped(work, seq(n, k => Phase(true, Orig)), fs0, fs)
  {
    forall k | 0 <= k < n ensures Item(work[k], fs0, fs, true, Orig) {
      assert StageUp(work[k], fs0, fs);
      forall m | 0 <= m < n ensures work[m].stage != work[k].backup && work[m].stage != work[k].dest {
        assert Apart(work[m], work[k]) && Apart(work[k], work[m]);
      }
    }
  }
}
