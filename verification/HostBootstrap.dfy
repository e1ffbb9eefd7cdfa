/** Install and rollback of the host-owned declarations, cut off anywhere. */
module HostBootstrap {
  import opened Wrappers

  type Path = string

  datatype Node = Link(target: string) | File(content: string, mode: nat, uid: nat, gid: nat) | Other

  datatype DirNode = Dir(mode: nat, uid: nat, gid: nat) | NotDir

  // What the receipt records of a target before the install.
  datatype Prior = WasAbsent | WasLink(target: string) | WasFile(content: string, mode: nat, uid: nat, gid: nat)

  datatype PriorDir = DirWasAbsent | WasDir(mode: nat, uid: nat, gid: nat)

  datatype Enablement = Enablement(state: string, enabled: bool)

  datatype Activity = Activity(state: string, active: bool)

  datatype Before = Before(files: map<Path, Prior>, dirs: map<Path, PriorDir>, enablement: Enablement, activity: Activity)

  datatype Status = PREPARED | INSTALLED | ROLLED_BACK

  datatype Receipt = Receipt(status: Status, before: Before, installed: map<Path, string>)

  // Changed: the rollback refused because a target is neither prior nor installed.
  datatype Outcome = Done | Cut | Changed | Failed

  function Look<T>(m: map<Path, T>, p: Path): Option<T> {
    if p in m then Some(m[p]) else None
  }

  function Snapshot(n: Option<Node>): Option<Prior> {
    match n
    case None => Some(WasAbsent)
    case Some(Link(target)) => Some(WasLink(target))
    case Some(File(content, mode, uid, gid)) => Some(WasFile(content, mode, uid, gid))
    case Some(Other) => None
  }

  function SnapshotDir(n: Option<DirNode>): Option<PriorDir> {
    match n
    case None => Some(DirWasAbsent)
    case Some(Dir(mode, uid, gid)) => Some(WasDir(mode, uid, gid))
    case Some(NotDir) => None
  }

  // The rollback's comparison with the prior state: a file by content alone.
  predicate MatchesPrior(n: Option<Node>, prior: Prior) {
    match prior
    case WasAbsent => n == None
    case WasLink(target) => n == Some(Link(target))
    case WasFile(content, _, _, _) => n.Some? && n.value.File? && n.value.content == content
  }

  predicate MatchesInstalled(n: Option<Node>, content: string) {
    n.Some? && n.value.File? && n.value.content == content
  }

  // Between the two system calls that restore a symlink.
  predicate InGap(n: Option<Node>, prior: Prior) {
    prior.WasLink? && n == None
  }

  // The rollback accepts the target.
  predicate Known(files: map<Path, Node>, r: Receipt, t: Path)
    requires t in r.before.files && t in r.installed
  {
    MatchesPrior(Look(files, t), r.before.files[t]) || MatchesInstalled(Look(files, t), r.installed[t])
  }

  // What is recorded, without mode and owner.
  function Plain(p: Prior): Prior {
    if p.WasFile? then WasFile(p.content, 0, 0, 0) else p
  }

  // The target is as it was or as it was installed, up to mode and owner.
  ghost predicate Ours(files: map<Path, Node>, r: Receipt, t: Path)
    requires t in r.before.files && t in r.installed
  {
    var now := Snapshot(Look(files, t));
    now.Some? && Plain(now.value) in {Plain(r.before.files[t]), WasFile(r.installed[t], 0, 0, 0)}
  }

  // Some target is neither: somebody else wrote it, or it waits in the symlink gap.
  ghost predicate Foreign(files: map<Path, Node>, r: Receipt, targets: seq<Path>)
    requires forall t :: t in targets ==> t in r.before.files && t in r.installed
  {
    exists t :: t in targets && !Ours(files, r, t)
  }

  /** What the rollback accepts, said through the capture. */
  lemma KnownExactly(files: map<Path, Node>, r: Receipt, t: Path)
    requires t in r.before.files && t in r.installed
    ensures Known(files, r, t) <==> Ours(files, r, t)
  {}

  /** The capture tells any two nodes apart that it records. */
  lemma CaptureDetermines(a: Option<Node>, b: Option<Node>, c: Option<DirNode>, d: Option<DirNode>)
    ensures Snapshot(a) == Snapshot(b) && Snapshot(a).Some? ==> a == b
    ensures SnapshotDir(c) == SnapshotDir(d) && SnapshotDir(c).Some? ==> c == d
  {}

  ghost predicate Covers(r: Receipt, targets: seq<Path>, dirs: seq<Path>) {
    && (forall t :: t in targets ==> t in r.before.files && t in r.installed)
    && (forall d :: d in dirs ==> d in r.before.dirs)
  }

  // Every target is prior or installed, or waits in the symlink gap.
  ghost predicate Traceable(files: map<Path, Node>, r: Receipt, targets: seq<Path>)
    requires forall t :: t in targets ==> t in r.before.files && t in r.installed
  {
    forall t :: t in targets ==> Known(files, r, t) || InGap(Look(files, t), r.before.files[t])
  }

  ghost predicate FilesRestored(files: map<Path, Node>, r: Receipt, targets: seq<Path>)
    requires forall t :: t in targets ==> t in r.before.files
  {
    forall t :: t in targets ==> Snapshot(Look(files, t)) == Some(r.before.files[t])
  }

  ghost predicate DirsRestored(dirs: map<Path, DirNode>, r: Receipt, declared: seq<Path>)
    requires forall d :: d in declared ==> d in r.before.dirs
  {
    forall d :: d in declared ==> SnapshotDir(Look(dirs, d)) == Some(r.before.dirs[d])
  }

  // A target as the install writes it: its source, mode 0644, owned by root.
  predicate Written(files: map<Path, Node>, t: Path, content: string) {
    Look(files, t) == Some(File(content, 0x1a4, 0, 0))
  }

  ghost predicate SameBut<T>(a: map<Path, T>, b: map<Path, T>, but: seq<Path>) {
    forall p :: p !in but ==> Look(a, p) == Look(b, p)
  }

  // No undeclared directory that was there changes; new ones are ancestors of targets.
  ghost predicate DirsKept(dirs0: map<Path, DirNode>, dirs: map<Path, DirNode>, declared: seq<Path>, ancestors: seq<Path>) {
    forall d :: d !in declared ==>
      if d in dirs0 then Look(dirs, d) == Look(dirs0, d) else d in dirs ==> d in ancestors && dirs[d].Dir?
  }

  // Some target waits in the symlink gap.
  ghost predicate Stuck(files: map<Path, Node>, r: Receipt, targets: seq<Path>)
    requires forall t :: t in targets ==> t in r.before.files
  {
    exists t :: t in targets && InGap(Look(files, t), r.before.files[t])
  }

  /** Where only the transaction writes, a foreign target is one in the symlink gap. */
  lemma ForeignIsStuck(files: map<Path, Node>, r: Receipt, targets: seq<Path>)
    requires forall t :: t in targets ==> t in r.before.files && t in r.installed
    requires Traceable(files, r, targets)
    ensures Foreign(files, r, targets) <==> Stuck(files, r, targets)
  {
    hide Ours, Snapshot;
    forall t | t in targets ensures InGap(Look(files, t), r.before.files[t]) <==> !Ours(files, r, t) {
      KnownExactly(files, r, t);
    }
  }

  lemma RestoredKnown(files: map<Path, Node>, r: Receipt, targets: seq<Path>)
    requires forall t :: t in targets ==> t in r.before.files && t in r.installed
    requires FilesRestored(files, r, targets)
    ensures Traceable(files, r, targets)
  {}

  ghost predicate NoLinks(r: Receipt) {
    forall t :: t in r.before.files ==> !r.before.files[t].WasLink?
  }

  // The calls that change the service.
  datatype Command = Stop | Disable | DaemonReload | Enable | EnableRuntime | Start

  // What a rollback asks of the service before and after the files are back.
  function Silence(touched: bool, was: Enablement): seq<Command> {
    if !touched then [] else if was.enabled then [Stop] else [Stop, Disable]
  }

  function Revive(was: Enablement, active: Activity): seq<Command> {
    [DaemonReload] + (if was.state == "enabled" then [Enable] else if was.state == "enabled-runtime" then [EnableRuntime] else [])
    + if active.active then [Start] else []
  }

  // Some target holds what was installed.
  ghost predicate Touched(files: map<Path, Node>, r: Receipt, targets: seq<Path>)
    requires forall t :: t in targets ==> t in r.installed
  {
    exists t :: t in targets && MatchesInstalled(Look(files, t), r.installed[t])
  }

  // A declared directory that cannot be put back: it is gone, or no directory.
  ghost predicate DirsRefuse(dirs: map<Path, DirNode>, r: Receipt, declared: seq<Path>)
    requires forall d :: d in declared ==> d in r.before.dirs
  {
    exists d :: d in declared && (if r.before.dirs[d].DirWasAbsent? then d in dirs && dirs[d].NotDir? else d !in dirs || dirs[d].NotDir?)
  }

  // The service is not in the recorded state.
  predicate Differs(enablement: Enablement, activity: Activity, before: Before) {
    enablement.state != before.enablement.state || activity.state != before.activity.state
  }

  // An attempt ends well, or fails for the given reason.
  predicate Falls(out: Outcome, reason: bool) { out == Done || (out == Failed && reason) }

  // Every target and declared directory is of a kind that can be recorded.
  ghost predicate Ordinary(files: map<Path, Node>, dirs: map<Path, DirNode>, targets: seq<Path>, declared: seq<Path>) {
    && (forall t :: t in targets ==> Look(files, t) != Some(Other))
    && (forall d :: d in declared ==> Look(dirs, d) != Some(NotDir))
  }

  class Host {
    const steady: bool            // no call fails and nothing cuts an attempt off
    const targets: seq<Path>      // the host-owned files
    const declared: seq<Path>     // the tmpfiles directories, deepest first
    const ancestors: seq<Path>    // every directory above a target
    const sources: map<Path, string>

    var files: map<Path, Node>
    var dirs: map<Path, DirNode>
    var enablement: Enablement
    var activity: Activity
    var receipt: Option<Receipt>
    var rollbackReceipt: bool     // the separate rollback receipt exists
    var commands: seq<Command>    // instrumentation: what the service was asked

    ghost predicate Configured() {
      forall t :: t in targets ==> t in sources
    }

    ghost predicate Valid(files0: map<Path, Node>, dirs0: map<Path, DirNode>)
      reads this
    {
      Recorded(files0, dirs0) && (receipt.Some? ==> Traceable(files, receipt.value, targets))
    }

    // The receipt tells the truth about what was there; the targets may hold anything.
    ghost predicate Recorded(files0: map<Path, Node>, dirs0: map<Path, DirNode>)
      reads this
    {
      && Configured() && SameBut(files0, files, targets) && DirsKept(dirs0, dirs, declared, ancestors)
      && match receipt {
           case None => files == files0 && dirs == dirs0
           case Some(r) =>
             && Covers(r, targets, declared)
             && (forall t :: t in targets ==> Snapshot(Look(files0, t)) == Some(r.before.files[t]) && r.installed[t] == sources[t])
             && (forall d :: d in declared ==> SnapshotDir(Look(dirs0, d)) == Some(r.before.dirs[d]))
             && (r.status == ROLLED_BACK ==>
                   && rollbackReceipt && FilesRestored(files, r, targets) && DirsRestored(dirs, r, declared)
                   && enablement.state == r.before.enablement.state && activity.state == r.before.activity.state)
         }
    }

    // The process may die here.
    method Pause() returns (cut: bool)
      ensures steady ==> !cut
    {
      cut := *;
      if steady { cut := false; }
    }

    // systemctl changes the service in ways this code does not define.
    method Systemctl(command: Command) returns (ok: bool)
      modifies this`enablement, this`activity, this`commands
      ensures commands == old(commands) + [command] && (steady ==> ok)
    {
      ok := *;
      if steady { ok := true; }
      enablement, activity, commands := *, *, commands + [command];
    }

    // systemd-tmpfiles creates or adjusts declared directories.
    method CreateDirectories() returns (ok: bool)
      modifies this`dirs
      ensures SameBut(old(dirs), dirs, declared) && (steady ==> ok)
    {
      ok := *;
      if steady { ok := true; }
      for i := 0 to |declared|
        invariant SameBut(old(dirs), dirs, declared)
      {
        var touch: bool, d: DirNode := *, *;
        if touch { dirs := dirs[declared[i] := d]; }
      }
    }

    // mkdir with parents: missing directories above a target appear, or it fails.
    method MakeParents() returns (ok: bool)
      modifies this`dirs
      ensures steady ==> ok
      ensures forall d :: d in old(dirs) ==> Look(dirs, d) == Look(old(dirs), d)
      ensures forall d :: d in dirs && d !in old(dirs) ==> d in ancestors && dirs[d].Dir?
    {
      ok := *;
      if steady { ok := true; }
      for i := 0 to |ancestors|
        invariant forall d :: d in old(dirs) ==> Look(dirs, d) == Look(old(dirs), d)
        invariant forall d :: d in dirs && d !in old(dirs) ==> d in ancestors && dirs[d].Dir?
      {
        var make: bool, mode: nat, uid: nat, gid: nat := *, *, *, *;
        if make && ancestors[i] !in dirs { dirs := dirs[ancestors[i] := Dir(mode, uid, gid)]; }
      }
    }

    method Capture() returns (before: Option<Before>)
      ensures before.Some? ==>
        && (forall t :: t in targets ==> t in before.value.files && Snapshot(Look(files, t)) == Some(before.value.files[t]))
        && (forall d :: d in declared ==> d in before.value.dirs && SnapshotDir(Look(dirs, d)) == Some(before.value.dirs[d]))
        && before.value.enablement == enablement && before.value.activity == activity
      ensures before.None? ==>
        (exists t :: t in targets && Look(files, t) == Some(Other)) || (exists d :: d in declared && Look(dirs, d) == Some(NotDir))
    {
      var fs: map<Path, Prior>, ds: map<Path, PriorDir> := map[], map[];
      for i := 0 to |targets|
        invariant forall t :: t in targets[..i] ==> t in fs && Snapshot(Look(files, t)) == Some(fs[t])
      {
        var s := Snapshot(Look(files, targets[i]));
        if s == None { assert targets[i] in targets; return None; }
        fs := fs[targets[i] := s.value];
      }
      for i := 0 to |declared|
        invariant forall d :: d in declared[..i] ==> d in ds && SnapshotDir(Look(dirs, d)) == Some(ds[d])
      {
        var s := SnapshotDir(Look(dirs, declared[i]));
        if s == None { assert declared[i] in declared; return None; }
        ds := ds[declared[i] := s.value];
      }
      before := Some(Before(fs, ds, enablement, activity));
    }

    method AllInstalled() returns (yes: bool)
      requires Configured()
      ensures yes <==> forall t :: t in targets ==> MatchesInstalled(Look(files, t), sources[t])
    {
      for i := 0 to |targets|
        invariant forall t :: t in targets[..i] ==> MatchesInstalled(Look(files, t), sources[t])
      {
        if !MatchesInstalled(Look(files, targets[i]), sources[targets[i]]) {
          assert targets[i] in targets;
          return false;
        }
      }
      assert targets[..|targets|] == targets;
      yes := true;
    }

    method Install(ghost files0: map<Path, Node>, ghost dirs0: map<Path, DirNode>) returns (out: Outcome)
      requires Valid(files0, dirs0)
      modifies this
      ensures Valid(files0, dirs0)
      ensures old(receipt).Some? ==> files == old(files) && dirs == old(dirs) && receipt == old(receipt)
      ensures out == Done ==> receipt.Some? && receipt.value.status == INSTALLED
      ensures out == Done ==>
        forall t :: t in targets ==> MatchesInstalled(Look(files, t), sources[t])
      ensures out != Changed
      ensures out == Done && old(receipt).None? ==>
        && (forall t :: t in targets ==> Written(files, t, sources[t]))
        && enablement.enabled && commands == old(commands) + [DaemonReload, Enable]
      ensures out == Done && old(receipt).Some? ==> old(enablement.state) == "enabled" && commands == old(commands)
      ensures steady && old(receipt).None? && Ordinary(old(files), old(dirs), targets, declared) ==>
        receipt.Some? && (out == Done <==> enablement.enabled)
    {
      if receipt.Some? {
        var installed := AllInstalled();
        return if receipt.value.status == INSTALLED && installed && enablement.state == "enabled" then Done else Failed;
      }
      var before := Capture();
      if before == None { return Failed; }
      var cut := Pause();
      if cut { return Cut; }
      var r := Receipt(PREPARED, before.value, sources);
      receipt := Some(r);
      out := Complete(r, files0, dirs0);
    }

    // Everything after the prepared receipt is on disk.
    method Complete(r: Receipt, ghost files0: map<Path, Node>, ghost dirs0: map<Path, DirNode>) returns (out: Outcome)
      requires Valid(files0, dirs0) && receipt == Some(r) && r.status == PREPARED
      modifies this
      ensures Valid(files0, dirs0) && out != Changed
      ensures receipt == if out == Done then Some(r.(status := INSTALLED)) else Some(r)
      ensures out == Done ==>
        && (forall t :: t in targets ==> Written(files, t, sources[t]))
        && enablement.enabled && commands == old(commands) + [DaemonReload, Enable]
      ensures steady ==> (out == Done <==> enablement.enabled)
    {
      hide Valid, Written;
      out := WriteTargets(r, files0, dirs0);
      if out != Done { return; }
      var ok := Tmpfiles(r, files0, dirs0);
      if !ok { return Failed; }
      var cut := Pause();
      if cut { return Cut; }
      ok := Ask(DaemonReload, r, files0, dirs0);
      if !ok { return Failed; }
      cut := Pause();
      if cut { return Cut; }
      ok := Ask(Enable, r, files0, dirs0);
      if !ok || !enablement.enabled { return Failed; }
      cut := Pause();
      if cut { return Cut; }
      Seal(r, files0, dirs0);
    }

    method Tmpfiles(r: Receipt, ghost files0: map<Path, Node>, ghost dirs0: map<Path, DirNode>) returns (ok: bool)
      requires Valid(files0, dirs0) && receipt == Some(r) && r.status == PREPARED
      modifies this`dirs
      ensures Valid(files0, dirs0) && (steady ==> ok)
    {
      hide Snapshot, SnapshotDir, Traceable, FilesRestored, DirsRestored;
      ok := CreateDirectories();
    }

    method Ask(command: Command, r: Receipt, ghost files0: map<Path, Node>, ghost dirs0: map<Path, DirNode>) returns (ok: bool)
      requires Valid(files0, dirs0) && receipt == Some(r) && r.status == PREPARED
      modifies this`enablement, this`activity, this`commands
      ensures Valid(files0, dirs0) && commands == old(commands) + [command] && (steady ==> ok)
    {
      hide Snapshot, SnapshotDir, Traceable, FilesRestored, DirsRestored, DirsKept, SameBut;
      ok := Systemctl(command);
    }

    method Seal(r: Receipt, ghost files0: map<Path, Node>, ghost dirs0: map<Path, DirNode>)
      requires Valid(files0, dirs0) && receipt == Some(r) && r.status == PREPARED
      modifies this`receipt
      ensures Valid(files0, dirs0) && receipt == Some(r.(status := INSTALLED))
    {
      hide Snapshot, SnapshotDir, FilesRestored, DirsRestored, DirsKept, SameBut, MatchesPrior, MatchesInstalled;
      receipt := Some(r.(status := INSTALLED));
    }

    method WriteTarget(t: Path, r: Receipt, ghost files0: map<Path, Node>, ghost dirs0: map<Path, DirNode>)
      requires t in targets && Valid(files0, dirs0) && receipt == Some(r) && r.status == PREPARED
      modifies this`files
      ensures Valid(files0, dirs0)
      ensures Written(files, t, sources[t])
      ensures forall p :: p != t ==> Look(files, p) == Look(old(files), p)
    {
      hide Snapshot, SnapshotDir, FilesRestored, DirsRestored, DirsKept;
      files := files[t := File(sources[t], 0x1a4, 0, 0)];
    }

    method ParentsFor(r: Receipt, ghost files0: map<Path, Node>, ghost dirs0: map<Path, DirNode>) returns (ok: bool)
      requires Valid(files0, dirs0) && receipt == Some(r) && r.status == PREPARED
      modifies this`dirs
      ensures Valid(files0, dirs0) && (steady ==> ok)
    {
      hide Snapshot, SnapshotDir, FilesRestored, DirsRestored, SameBut, Traceable, Covers;
      ok := MakeParents();
    }

    method WriteTargets(r: Receipt, ghost files0: map<Path, Node>, ghost dirs0: map<Path, DirNode>) returns (out: Outcome)
      requires Valid(files0, dirs0) && receipt == Some(r) && r.status == PREPARED
      modifies this`files, this`dirs
      ensures Valid(files0, dirs0)
      ensures out == Done || out == Cut || out == Failed
      ensures steady ==> out == Done
      ensures out == Done ==> forall t :: t in targets ==> Written(files, t, sources[t])
    {
      for i := 0 to |targets|
        invariant Valid(files0, dirs0)
        invariant forall t :: t in targets[..i] ==> Written(files, t, sources[t])
      {
        var cut := Pause();
        if cut { return Cut; }
        var made := ParentsFor(r, files0, dirs0);
        if !made { return Failed; }
        cut := Pause();
        if cut { return Cut; }
        WriteTarget(targets[i], r, files0, dirs0);
      }
      assert targets[..|targets|] == targets;
      out := Done;
    }

    // The rollback's first pass: refuse a target it does not know.
    method Check(r: Receipt) returns (known: bool, observed: bool)
      requires Covers(r, targets, declared)
      ensures known <==> forall t :: t in targets ==> Known(files, r, t)
      ensures known <==> !Foreign(files, r, targets)
      ensures known ==> (observed <==> Touched(files, r, targets))
    {
      hide Ours, Known;
      forall t | t in targets ensures Known(files, r, t) <==> Ours(files, r, t) {
        KnownExactly(files, r, t);
      }
      observed := false;
      for i := 0 to |targets|
        invariant forall t :: t in targets[..i] ==> Known(files, r, t)
        invariant observed <==> exists t :: t in targets[..i] && MatchesInstalled(Look(files, t), r.installed[t])
      {
        if !Known(files, r, targets[i]) {
          assert targets[i] in targets;
          return false, observed;
        }
        assert targets[..i + 1] == targets[..i] + [targets[i]];
        observed := observed || MatchesInstalled(Look(files, targets[i]), r.installed[targets[i]]);
      }
      assert targets[..|targets|] == targets;
      known := true;
    }

    method RestoreFile(t: Path, r: Receipt) returns (out: Outcome)
      requires t in targets && Covers(r, targets, declared)
      requires Traceable(files, r, targets)
      modifies this`files
      ensures out == Done || (out == Cut && !steady)
      ensures forall p :: p != t ==> Look(files, p) == Look(old(files), p)
      ensures Known(files, r, t) || InGap(Look(files, t), r.before.files[t])
      ensures out == Done ==> Snapshot(Look(files, t)) == Some(r.before.files[t])
      ensures out == Cut && !r.before.files[t].WasLink? ==> Known(files, r, t)
    {
      var cut := Pause();
      if cut { return Cut; }
      match r.before.files[t]
      case WasAbsent =>
        files := files - {t};
        out := Done;
      case WasLink(target) =>
        files := files - {t};
        cut := Pause();
        if cut { return Cut; }
        files := files[t := Link(target)];
        out := Done;
      case WasFile(content, mode, uid, gid) =>
        files := files[t := File(content, mode, 0, 0)];
        cut := Pause();
        if cut { return Cut; }
        files := files[t := File(content, mode, uid, gid)];
        out := Done;
    }

    method RestoreFiles(r: Receipt) returns (out: Outcome)
      requires Covers(r, targets, declared) && Traceable(files, r, targets)
      modifies this`files
      ensures out == Done || (out == Cut && !steady)
      ensures Traceable(files, r, targets) && SameBut(old(files), files, targets)
      ensures NoLinks(r) && old(forall t :: t in targets ==> Known(files, r, t)) ==> forall t :: t in targets ==> Known(files, r, t)
      ensures out == Done ==> FilesRestored(files, r, targets)
    {
      for i := 0 to |targets|
        invariant Traceable(files, r, targets) && SameBut(old(files), files, targets)
        invariant NoLinks(r) && old(forall t :: t in targets ==> Known(files, r, t)) ==> forall t :: t in targets ==> Known(files, r, t)
        invariant forall t :: t in targets[..i] ==> Snapshot(Look(files, t)) == Some(r.before.files[t])
      {
        out := RestoreFile(targets[i], r);
        if out == Cut { return; }
      }
      assert targets[..|targets|] == targets;
      out := Done;
    }

    method RestoreDirs(r: Receipt) returns (out: Outcome)
      requires Covers(r, targets, declared)
      modifies this`dirs
      ensures steady ==> out == Done || (out == Failed && DirsRefuse(old(dirs), r, declared))
      ensures out != Changed && SameBut(old(dirs), dirs, declared)
      ensures out == Done ==> DirsRestored(dirs, r, declared)
    {
      for i := 0 to |declared|
        invariant SameBut(old(dirs), dirs, declared)
        invariant forall d :: d !in declared[..i] ==> Look(dirs, d) == Look(old(dirs), d)
        invariant forall d :: d in declared[..i] ==> SnapshotDir(Look(dirs, d)) == Some(r.before.dirs[d])
      {
        var d := declared[i];
        var cut, notEmpty: bool := *, *;
        if steady { cut, notEmpty := false, false; }
        if cut { return Cut; }
        match r.before.dirs[d] {
          case DirWasAbsent =>
            if d in dirs {
              if dirs[d].NotDir? || notEmpty { return Failed; }
              dirs := dirs - {d};
            }
          case WasDir(mode, uid, gid) =>
            if d !in dirs || dirs[d].NotDir? { return Failed; }
            dirs := dirs[d := dirs[d].(mode := mode)];
            cut := Pause();
            if cut { return Cut; }
            dirs := dirs[d := dirs[d].(uid := uid, gid := gid)];
        }
      }
      assert declared[..|declared|] == declared;
      out := Done;
    }

    method StopService(observed: bool, was: Enablement) returns (out: Outcome)
      modifies this`enablement, this`activity, this`commands
      ensures out in {Done, Cut, Failed} && (steady ==> out == Done)
      ensures out == Done ==> commands == old(commands) + Silence(observed, was)
    {
      if observed {
        var ok := Systemctl(Stop);
        if !ok { return Failed; }
        var cut := Pause();
        if cut { return Cut; }
        if !was.enabled {
          ok := Systemctl(Disable);
          if !ok { return Failed; }
        }
      }
      out := Done;
    }

    method StartService(was: Enablement, active: Activity) returns (out: Outcome)
      modifies this`enablement, this`activity, this`commands
      ensures out in {Done, Cut, Failed} && (steady ==> out == Done)
      ensures out == Done ==> commands == old(commands) + Revive(was, active)
    {
      var ok := Systemctl(DaemonReload);
      if !ok { return Failed; }
      var cut := Pause();
      if cut { return Cut; }
      if was.state == "enabled" {
        ok := Systemctl(Enable);
        if !ok { return Failed; }
      } else if was.state == "enabled-runtime" {
        ok := Systemctl(EnableRuntime);
        if !ok { return Failed; }
      }
      cut := Pause();
      if cut { return Cut; }
      if active.active {
        ok := Systemctl(Start);
        if !ok { return Failed; }
      }
      out := Done;
    }

    // The rest of a rollback, with every file back.
    method Finish(r: Receipt, ghost files0: map<Path, Node>, ghost dirs0: map<Path, DirNode>) returns (out: Outcome)
      requires Valid(files0, dirs0) && receipt == Some(r) && r.status != ROLLED_BACK && FilesRestored(files, r, targets)
      modifies this`dirs, this`enablement, this`activity, this`rollbackReceipt, this`receipt, this`commands
      ensures Valid(files0, dirs0) && receipt.Some? && receipt.value.before == r.before && out != Changed
      ensures receipt == Some(r) || (out == Done && receipt == Some(r.(status := ROLLED_BACK)))
      ensures SameBut(old(dirs), dirs, declared)
      ensures out == Done ==> commands == old(commands) + Revive(r.before.enablement, r.before.activity)
      ensures steady ==> Falls(out, DirsRefuse(old(dirs), r, declared) || Differs(enablement, activity, r.before))
      ensures out == Done ==> receipt.value.status == ROLLED_BACK && DirsRestored(dirs, receipt.value, declared)
      ensures out == Done ==> enablement.state == r.before.enablement.state && activity.state == r.before.activity.state
    {
      out := RestoreDirs(r);
      if out != Done { return; }
      out := StartService(r.before.enablement, r.before.activity);
      if out != Done { return; }
      if enablement.state != r.before.enablement.state || activity.state != r.before.activity.state { return Failed; }
      var cut := Pause();
      if cut { return Cut; }
      rollbackReceipt := true;
      cut := Pause();
      if cut { return Cut; }
      receipt := Some(r.(status := ROLLED_BACK));
    }

    // Everything after the check of the targets.
    method Undo(r: Receipt, observed: bool, ghost files0: map<Path, Node>, ghost dirs0: map<Path, DirNode>) returns (out: Outcome)
      requires Recorded(files0, dirs0) && receipt == Some(r) && r.status != ROLLED_BACK
      requires forall t :: t in targets ==> Known(files, r, t)
      modifies this
      ensures Valid(files0, dirs0) && receipt.Some? && receipt.value.before == r.before && out != Changed
      ensures receipt == Some(r) || (out == Done && receipt == Some(r.(status := ROLLED_BACK)))
      ensures SameBut(old(dirs), dirs, declared)
      ensures out == Done ==> receipt.value.status == ROLLED_BACK
      ensures out == Done ==> FilesRestored(files, receipt.value, targets) && DirsRestored(dirs, receipt.value, declared)
      ensures out == Done ==>
        commands == old(commands) + Silence(observed, r.before.enablement) + Revive(r.before.enablement, r.before.activity)
      ensures steady ==> Falls(out, old(DirsRefuse(dirs, r, declared)) || Differs(enablement, activity, r.before))
      ensures out == Done ==> enablement.state == r.before.enablement.state && activity.state == r.before.activity.state
    {
      hide Ours, Snapshot, SnapshotDir, MatchesPrior, MatchesInstalled, DirsKept, DirsRefuse, Silence, Revive;
      out := StopService(observed, r.before.enablement);
      if out != Done { return; }
      out := RestoreFiles(r);
      if out == Cut { return; }
      out := Finish(r, files0, dirs0);
    }

    /** One rollback attempt from the receipt on disk, whatever the targets hold. */
    method Rollback(ghost files0: map<Path, Node>, ghost dirs0: map<Path, DirNode>) returns (out: Outcome)
      requires Recorded(files0, dirs0) && receipt.Some?
      modifies this
      ensures Recorded(files0, dirs0) && receipt.Some? && receipt.value.before == old(receipt.value.before)
      ensures out == Changed <==> old(receipt.value.status != ROLLED_BACK && Foreign(files, receipt.value, targets))
      ensures if out == Changed then files == old(files) && dirs == old(dirs) && receipt == old(receipt) && commands == old(commands)
              else Valid(files0, dirs0)
      ensures old(Valid(files0, dirs0)) ==>
        Valid(files0, dirs0) && (out == Changed <==> old(receipt.value.status != ROLLED_BACK && Stuck(files, receipt.value, targets)))
      ensures old(receipt.value.status) == ROLLED_BACK ==> out == Done && files == old(files) && receipt == old(receipt)
      ensures out == Done ==> receipt.value.status == ROLLED_BACK
      ensures out == Done ==> FilesRestored(files, receipt.value, targets) && DirsRestored(dirs, receipt.value, declared)
      ensures SameBut(old(dirs), dirs, declared)
      ensures out == Done && old(receipt.value.status) != ROLLED_BACK ==>
        commands == old(commands) + Silence(old(Touched(files, receipt.value, targets)), receipt.value.before.enablement)
                  + Revive(receipt.value.before.enablement, receipt.value.before.activity)
      ensures steady && old(receipt.value.status != ROLLED_BACK && !Foreign(files, receipt.value, targets)) ==>
        Falls(out, old(DirsRefuse(dirs, receipt.value, declared)) || Differs(enablement, activity, receipt.value.before))
      ensures out == Done ==> enablement.state == receipt.value.before.enablement.state
      ensures out == Done ==> activity.state == receipt.value.before.activity.state
      ensures NoLinks(receipt.value) && !old(Foreign(files, receipt.value, targets)) ==> !Foreign(files, receipt.value, targets)
    {
      hide Ours, Snapshot, SnapshotDir, MatchesPrior, MatchesInstalled, FilesRestored, DirsRestored, DirsKept, DirsRefuse;
      var r := receipt.value;
      if old(Valid(files0, dirs0)) { ForeignIsStuck(files, r, targets); }
      if r.status == ROLLED_BACK {
        RestoredKnown(files, r, targets);
        return if rollbackReceipt then Done else Failed;
      }
      var known, observed := Check(r);
      if !known { return Changed; }
      out := Undo(r, observed, files0, dirs0);
      ForeignIsStuck(files, receipt.value, targets);
    }

    // A rolled-back receipt means that everything is as it was captured.
    lemma AsCaptured(files0: map<Path, Node>, dirs0: map<Path, DirNode>)
      requires Recorded(files0, dirs0) && receipt.Some? && receipt.value.status == ROLLED_BACK
      ensures forall p :: Look(files, p) == Look(files0, p)
      ensures forall d :: d in declared ==> Look(dirs, d) == Look(dirs0, d)
    {
      hide Snapshot, SnapshotDir, DirsKept;
      forall t | t in targets ensures Look(files, t) == Look(files0, t) {
        CaptureDetermines(Look(files, t), Look(files0, t), None, None);
      }
      forall d | d in declared ensures Look(dirs, d) == Look(dirs0, d) {
        CaptureDetermines(None, None, Look(dirs, d), Look(dirs0, d));
      }
    }

    /** An install cut off anywhere, then any number of rollbacks cut off
        anywhere. */
    method History(rollbacks: nat) returns (outs: seq<Outcome>)
      requires Configured() && receipt == None
      modifies this
      ensures Valid(old(files), old(dirs)) && |outs| <= rollbacks
      ensures receipt.Some? && NoLinks(receipt.value) ==> Changed !in outs
      ensures Done in outs ==>
        && receipt.Some? && FilesRestored(files, receipt.value, targets) && DirsRestored(dirs, receipt.value, declared)
        && (forall p :: Look(files, p) == Look(old(files), p))
        && (forall d :: d in declared ==> Look(dirs, d) == Look(old(dirs), d))
    {
      ghost var f0, d0 := files, dirs;
      outs := [];
      var installed := Install(f0, d0);
      if receipt == None { return; }
      for i := 0 to rollbacks
        invariant Valid(f0, d0) && receipt.Some? && |outs| == i
        invariant NoLinks(receipt.value) ==> Changed !in outs
        invariant Done in outs ==> receipt.value.status == ROLLED_BACK
      {
        var out := Rollback(f0, d0);
        outs := outs + [out];
      }
      if receipt.value.status == ROLLED_BACK { AsCaptured(f0, d0); }
    }
  }

  /** A symlink prior: the install replaces it, the rollback accepts the installed file
      and unlinks it, and, cut off before it links again, leaves a target that is neither
      prior nor installed, which every later rollback refuses. */
  lemma SymlinkGap(target: string, content: string, mode: nat, uid: nat, gid: nat)
    returns (r: Receipt, installed: map<Path, Node>, cut: map<Path, Node>)
    ensures
      var before: map<Path, Node> := map["t" := Link(target)];
      && r.status == INSTALLED && r.before.files == map["t" := WasLink(target)] && r.installed == map["t" := content]
      && Snapshot(Look(before, "t")) == Some(r.before.files["t"])
      && installed == before["t" := File(content, mode, uid, gid)] && Known(installed, r, "t")
      && cut == installed - {"t"} && Traceable(cut, r, ["t"]) && Stuck(cut, r, ["t"]) && !Known(cut, r, "t")
  {
    r := Receipt(INSTALLED, Before(map["t" := WasLink(target)], map[], Enablement("enabled", true), Activity("active", true)),
                 map["t" := content]);
    installed := map["t" := File(content, mode, uid, gid)];
    cut := installed - {"t"};
    assert "t" in ["t"];
  }
}
