/** The one-attempt observation token: interleaved launch attempts over one
    shared token root with a volatile and a durable layer. */
module ObservationToken {
  import opened Wrappers

  // The consumed marker; `owner` is the attempt that created it.
  datatype Marker = Marker(owner: nat, content: string)

  // Where one attempt stands.  Open..Verified follow `consume`; the last four
  // are final.
  datatype Pc =
    | Prepared | Admitted
    | Writing | FileSynced | ReadBack | DirSynced
    | Consumed
    | Launched | Refused | Ambiguous | Failed | Dead

  datatype Attempt = Attempt(controller: nat, pc: Pc)

  datatype State = State(
    visible: Option<Marker>,      // the marker name as processes see it
    durable: Option<Marker>,      // the marker name after a power loss
    attempts: map<nat, Attempt>,
    consumedFlags: set<nat>,      // controllers whose in-memory flag is set
    launches: seq<nat>)           // every launch that ever happened

  datatype Event =
    | Spawn(i: nat, c: nat)       // a controller prepared a sealed launch
    | CheckFlag(i: nat)           // the in-memory check under the lock
    | Open(i: nat)                // O_CREAT | O_EXCL
    | OpenError(i: nat)           // any other error of the open
    | Write(i: nat, k: nat)       // one write call that took k bytes
    | SyncFile(i: nat)
    | Read(i: nat)                // readback of the marker
    | SyncDir(i: nat)
    | Verify(i: nat)              // the root is still the named directory
    | Error(i: nat)               // any error after the marker was created
    | Launch(i: nat)
    | Kill(c: nat)                // one controller process dies
    | Crash(survives: bool)       // power loss; an unsynced name may vanish

  predicate At(s: State, i: nat, pc: Pc) {
    i in s.attempts && s.attempts[i].pc == pc
  }

  predicate Unsettled(pc: Pc) {
    pc in {Writing, FileSynced, ReadBack, DirSynced}
  }

  function Move(s: State, i: nat, pc: Pc): State
    requires i in s.attempts
  {
    s.(attempts := s.attempts[i := s.attempts[i].(pc := pc)])
  }

  function Killed(attempts: map<nat, Attempt>, cs: set<nat>): map<nat, Attempt> {
    map i | i in attempts ::
      if attempts[i].controller in cs && attempts[i].pc !in {Launched, Refused, Ambiguous, Failed}
      then attempts[i].(pc := Dead) else attempts[i]
  }

  // One step of one attempt or of the environment; None when it cannot happen.
  // `raw` is the grant hash that the marker has to hold.
  function Step(raw: string, s: State, ev: Event): Option<State> {
    match ev
    case Spawn(i, c) =>
      if i in s.attempts then None else Some(s.(attempts := s.attempts[i := Attempt(c, Prepared)]))
    case CheckFlag(i) =>
      if !At(s, i, Prepared) then None
      else if s.attempts[i].controller in s.consumedFlags then Some(Move(s, i, Refused))
      else Some(Move(s, i, Admitted))
    case Open(i) =>
      if !At(s, i, Admitted) then None
      else if s.visible.Some? then Some(Move(s, i, Refused))
      else Some(Move(s, i, Writing).(visible := Some(Marker(i, ""))))
    case OpenError(i) =>
      if !At(s, i, Admitted) then None else Some(Move(s, i, Failed))
    case Write(i, k) =>
      if !At(s, i, Writing) || s.visible.None? then None
      else
        var n := |s.visible.value.content|;
        if k == 0 || n + k > |raw| then None
        else Some(s.(visible := Some(s.visible.value.(content := raw[..n + k]))))
    case SyncFile(i) =>
      if !At(s, i, Writing) || s.visible.None? || s.visible.value.content != raw then None
      else Some(Move(s, i, FileSynced))
    case Read(i) =>
      if !At(s, i, FileSynced) then None
      else if s.visible.Some? && s.visible.value.content == raw then Some(Move(s, i, ReadBack))
      else Some(Flag(Move(s, i, Ambiguous), i))
    case SyncDir(i) =>
      if !At(s, i, ReadBack) then None
      else Some(Move(s, i, DirSynced).(durable := s.visible))
    case Verify(i) =>
      if !At(s, i, DirSynced) then None else Some(Flag(Move(s, i, Consumed), i))
    case Error(i) =>
      if i !in s.attempts || !Unsettled(s.attempts[i].pc) then None else Some(Flag(Move(s, i, Ambiguous), i))
    case Launch(i) =>
      if !At(s, i, Consumed) then None
      else Some(Move(s, i, Launched).(launches := s.launches + [i]))
    case Kill(c) =>
      Some(s.(attempts := Killed(s.attempts, {c}), consumedFlags := s.consumedFlags - {c}))
    case Crash(survives) =>
      Some(State(
        if survives then s.visible else s.durable, s.durable,
        Killed(s.attempts, set i | i in s.attempts :: s.attempts[i].controller), {}, s.launches))
  }

  function Flag(s: State, i: nat): State
    requires i in s.attempts
  {
    s.(consumedFlags := s.consumedFlags + {s.attempts[i].controller})
  }

  function Run(raw: string, s: State, evs: seq<Event>): Option<State>
    decreases |evs|
  {
    if evs == [] then Some(s)
    else
      match Step(raw, s, evs[0])
      case None => None
      case Some(next) => Run(raw, next, evs[1..])
  }

  const Init := State(None, None, map[], {}, [])

  /* ---- the invariant ---- */

  ghost predicate Owns(m: Option<Marker>, i: nat) {
    m.Some? && m.value.owner == i
  }

  ghost predicate AttemptOk(raw: string, s: State, i: nat)
    requires i in s.attempts
  {
    var pc := s.attempts[i].pc;
    && (pc in {Writing, FileSynced, ReadBack} ==> Owns(s.visible, i) && i !in s.launches)
    && (pc == Writing ==> s.visible.value.content <= raw)
    && (pc in {FileSynced, ReadBack} ==> s.visible.value.content == raw)
    && (pc in {DirSynced, Consumed} ==> s.durable == Some(Marker(i, raw)) && i !in s.launches)
    && (pc in {Prepared, Admitted, Refused, Ambiguous, Failed} ==> i !in s.launches)
    && (s.visible.Some? ==> s.visible.value.owner in s.attempts)
  }

  ghost predicate Inv(raw: string, s: State) {
    && (s.durable.Some? ==> s.visible == s.durable && s.durable.value.content == raw)
    && (forall i :: i in s.attempts ==> AttemptOk(raw, s, i))
    && (s.visible.Some? ==> s.visible.value.owner in s.attempts)
    && (s.launches == [] || (s.durable.Some? && s.launches == [s.durable.value.owner]))
  }

  lemma LaunchKeepsInv(raw: string, s: State, i: nat)
    requires Inv(raw, s) && At(s, i, Consumed)
    ensures s.launches == [] && Inv(raw, Step(raw, s, Launch(i)).value)
  {}

  lemma StopKeepsInv(raw: string, s: State, ev: Event)
    requires Inv(raw, s) && (ev.Kill? || ev.Crash?)
    ensures Inv(raw, Step(raw, s, ev).value)
  {
    var t := Step(raw, s, ev).value;
    forall k | k in t.attempts ensures AttemptOk(raw, t, k) {
      assert AttemptOk(raw, s, k);
    }
  }

  lemma SyncKeepsInv(raw: string, s: State, i: nat)
    requires Inv(raw, s) && At(s, i, ReadBack)
    ensures Inv(raw, Step(raw, s, SyncDir(i)).value)
  {}

  lemma MarkerKeepsInv(raw: string, s: State, ev: Event)
    requires Inv(raw, s) && (ev.Spawn? || ev.Open? || ev.Write?) && Step(raw, s, ev).Some?
    ensures Inv(raw, Step(raw, s, ev).value)
  {}

  lemma StepKeepsInv(raw: string, s: State, ev: Event)
    requires Inv(raw, s) && Step(raw, s, ev).Some?
    ensures Inv(raw, Step(raw, s, ev).value)
  {
    match ev
    case Launch(i) => LaunchKeepsInv(raw, s, i);
    case SyncDir(i) => SyncKeepsInv(raw, s, i);
    case Kill(_) => StopKeepsInv(raw, s, ev);
    case Crash(_) => StopKeepsInv(raw, s, ev);
    case Spawn(_, _) => MarkerKeepsInv(raw, s, ev);
    case Open(_) => MarkerKeepsInv(raw, s, ev);
    case Write(_, _) => MarkerKeepsInv(raw, s, ev);
    case _ =>
      assert AttemptOk(raw, s, ev.i);
      var t := Step(raw, s, ev).value;
      forall k | k in t.attempts ensures AttemptOk(raw, t, k) {
        assert AttemptOk(raw, s, k);
      }
  }

  lemma {:induction false} RunKeepsInv(raw: string, s: State, evs: seq<Event>)
    requires Inv(raw, s) && Run(raw, s, evs).Some?
    ensures Inv(raw, Run(raw, s, evs).value)
    decreases |evs|
  {
    if evs != [] {
      StepKeepsInv(raw, s, evs[0]);
      RunKeepsInv(raw, Step(raw, s, evs[0]).value, evs[1..]);
    }
  }

  /** Over every interleaving with kills and power losses, at most one launch. */
  lemma AtMostOneLaunch(raw: string, evs: seq<Event>)
    requires Run(raw, Init, evs).Some?
    ensures |Run(raw, Init, evs).value.launches| <= 1
  {
    RunKeepsInv(raw, Init, evs);
  }

  /** Whenever a launch can happen, the complete marker is already durable, it is
      the launcher's own, and nobody has launched before. */
  lemma DurableBeforeLaunch(raw: string, evs: seq<Event>, i: nat)
    requires Run(raw, Init, evs).Some?
    requires Step(raw, Run(raw, Init, evs).value, Launch(i)).Some?
    ensures var s := Run(raw, Init, evs).value;
      s.durable == Some(Marker(i, raw)) && s.visible == s.durable && s.launches == []
  {
    RunKeepsInv(raw, Init, evs);
    LaunchKeepsInv(raw, Run(raw, Init, evs).value, i);
    assert AttemptOk(raw, Run(raw, Init, evs).value, i);
  }

  ghost predicate Final(pc: Pc) {
    pc in {Refused, Ambiguous, Failed, Dead, Launched}
  }

  lemma FinalStays(raw: string, s: State, ev: Event, i: nat)
    requires i in s.attempts && Final(s.attempts[i].pc) && Step(raw, s, ev).Some?
    ensures var t := Step(raw, s, ev).value;
      i in t.attempts && Final(t.attempts[i].pc) && (i in t.launches <==> i in s.launches)
  {}

  /** An attempt whose consume was ambiguous (or refused, failed, or cut off)
      never launches, whatever happens later. */
  lemma {:induction false} AmbiguousNeverLaunches(raw: string, s: State, evs: seq<Event>, i: nat)
    requires Inv(raw, s) && i in s.attempts && Final(s.attempts[i].pc) && Run(raw, s, evs).Some?
    ensures i in Run(raw, s, evs).value.launches <==> i in s.launches
    ensures s.attempts[i].pc in {Refused, Ambiguous, Failed} ==> i !in Run(raw, s, evs).value.launches
    decreases |evs|
  {
    assert AttemptOk(raw, s, i);
    if evs != [] {
      FinalStays(raw, s, evs[0], i);
      StepKeepsInv(raw, s, evs[0]);
      AmbiguousNeverLaunches(raw, Step(raw, s, evs[0]).value, evs[1..], i);
    }
  }

  lemma {:induction false} DurableStays(raw: string, s: State, evs: seq<Event>)
    requires Inv(raw, s) && s.durable.Some? && Run(raw, s, evs).Some?
    ensures Run(raw, s, evs).value.durable == s.durable
    decreases |evs|
  {
    if evs != [] {
      var t := Step(raw, s, evs[0]).value;
      if evs[0].SyncDir? { assert AttemptOk(raw, s, evs[0].i); }
      StepKeepsInv(raw, s, evs[0]);
      DurableStays(raw, t, evs[1..]);
    }
  }

  /** Once a marker is durable the grant is spent for everybody else: no attempt
      other than its owner ever launches. */
  lemma SpentForOthers(raw: string, s: State, evs: seq<Event>, i: nat)
    requires Inv(raw, s) && s.durable.Some? && s.durable.value.owner != i && Run(raw, s, evs).Some?
    ensures i !in Run(raw, s, evs).value.launches
  {
    DurableStays(raw, s, evs);
    RunKeepsInv(raw, s, evs);
  }

  /* ---- the consuming code itself, refining the machine ---- */

  lemma {:induction false} RunAppend(raw: string, s: State, evs: seq<Event>, ev: Event)
    requires Run(raw, s, evs).Some?
    ensures Run(raw, s, evs + [ev]) == Step(raw, Run(raw, s, evs).value, ev)
    decreases |evs|
  {
    if evs == [] {
      assert [ev][1..] == [];
      assert evs + [ev] == [ev];
      var next := Step(raw, s, ev);
      if next.Some? { assert Run(raw, next.value, []) == next; }
    } else {
      assert (evs + [ev])[1..] == evs[1..] + [ev];
      RunAppend(raw, Step(raw, s, evs[0]).value, evs[1..], ev);
    }
  }

  lemma {:induction false} RunConcat(raw: string, s: State, a: seq<Event>, b: seq<Event>)
    requires Run(raw, s, a).Some?
    ensures Run(raw, s, a + b) == Run(raw, Run(raw, s, a).value, b)
    decreases |a|
  {
    if a == [] {
      assert a + b == b;
    } else {
      assert (a + b)[1..] == a[1..] + b;
      RunConcat(raw, Step(raw, s, a[0]).value, a[1..], b);
    }
  }

  // One more event that can happen.
  lemma Extend(raw: string, evs: seq<Event>, s: State, ev: Event) returns (evs': seq<Event>, s': State)
    requires Run(raw, Init, evs) == Some(s) && Step(raw, s, ev).Some?
    ensures evs' == evs + [ev] && s' == Step(raw, s, ev).value && Run(raw, Init, evs') == Some(s')
  {
    RunAppend(raw, Init, evs, ev);
    evs', s' := evs + [ev], Step(raw, s, ev).value;
  }

  /** The bound is reached: one controller that nothing disturbs does launch. */
  lemma LaunchHappens(raw: string, i: nat, c: nat) returns (evs: seq<Event>, s: State)
    requires raw != ""
    ensures Run(raw, Init, evs) == Some(s) && s.launches == [i] && s.durable == Some(Marker(i, raw))
  {
    hide Run;
    evs, s := [], Init;
    RunNone(raw);
    evs, s := Extend(raw, evs, s, Spawn(i, c));
    evs, s := Extend(raw, evs, s, CheckFlag(i));
    evs, s := Extend(raw, evs, s, Open(i));
    evs, s := Extend(raw, evs, s, Write(i, |raw|));
    assert raw[..|raw|] == raw;
    evs, s := Extend(raw, evs, s, SyncFile(i));
    evs, s := Extend(raw, evs, s, Read(i));
    evs, s := Extend(raw, evs, s, SyncDir(i));
    evs, s := Extend(raw, evs, s, Verify(i));
    evs, s := Extend(raw, evs, s, Launch(i));
  }

  lemma RunNone(raw: string)
    ensures Run(raw, Init, []) == Some(Init)
  {}

  /** Before the directory is synced a power loss may take the name away, and another
      attempt can then create it again. */
  lemma CrashForgets(raw: string, i: nat, j: nat, c: nat) returns (evs: seq<Event>, s: State)
    requires raw != "" && i != j
    ensures Run(raw, Init, evs) == Some(s) && At(s, i, Dead) && At(s, j, Writing)
    ensures s.visible == Some(Marker(j, "")) && s.durable == None && s.launches == []
  {
    hide Run;
    evs, s := [], Init;
    RunNone(raw);
    evs, s := Extend(raw, evs, s, Spawn(i, c));
    evs, s := Extend(raw, evs, s, CheckFlag(i));
    evs, s := Extend(raw, evs, s, Open(i));
    evs, s := Extend(raw, evs, s, Crash(false));
    evs, s := Extend(raw, evs, s, Spawn(j, c));
    evs, s := Extend(raw, evs, s, CheckFlag(j));
    evs, s := Extend(raw, evs, s, Open(j));
  }

  datatype Verdict = Spent | AlreadyConsumed | PersistenceAmbiguous | Broken

  function EndPc(v: Verdict): Pc {
    match v
    case Spent => Consumed
    case AlreadyConsumed => Refused
    case PersistenceAmbiguous => Ambiguous
    case Broken => Failed
  }

  // The token root as one process uses it; any system call may fail.
  class TokenRoot {
    const steady: bool  // no system call fails
    var visible: Option<Marker>
    var durable: Option<Marker>

    // Whether a system call fails.
    method Fails() returns (failed: bool)
      ensures steady ==> !failed
    {
      failed := *;
      if steady { failed := false; }
    }

    // Write the whole hash; a call may take only part of it.
    method WriteAll(raw: string, i: nat, ghost s: State) returns (ok: bool, ghost evs: seq<Event>, ghost s': State)
      requires visible == s.visible && At(s, i, Writing) && visible == Some(Marker(i, ""))
      modifies this`visible
      ensures Run(raw, s, evs) == Some(s') && s' == s.(visible := visible)
      ensures visible.Some? && visible.value.owner == i
      ensures ok ==> visible == Some(Marker(i, raw))
      ensures steady ==> ok
    {
      var n := 0;
      evs, s' := [], s;
      while n < |raw|
        invariant n <= |raw| && visible == Some(Marker(i, raw[..n]))
        invariant Run(raw, s, evs) == Some(s') && s' == s.(visible := visible)
      {
        var written: int := *;
        if steady && written <= 0 { written := 1; }
        if written <= 0 { return false, evs, s'; }
        var k := if n + written <= |raw| then written else |raw| - n;
        RunAppend(raw, s, evs, Write(i, k));
        visible := Some(Marker(i, raw[..n + k]));
        evs, s' := evs + [Write(i, k)], s'.(visible := visible);
        n := n + k;
      }
      assert raw[..n] == raw;
      ok := true;
    }

    method Persist(raw: string, i: nat, ghost s: State) returns (ok: bool, ghost evs: seq<Event>, ghost s': State)
      requires visible == s.visible && At(s, i, Writing) && visible == Some(Marker(i, ""))
      modifies this`visible
      ensures Run(raw, s, evs) == Some(s') && s'.visible == visible && s'.durable == s.durable && s'.launches == s.launches
      ensures visible.Some? && visible.value.owner == i && i in s'.attempts && Unsettled(s'.attempts[i].pc)
      ensures steady ==> ok
      ensures ok ==> visible == Some(Marker(i, raw)) && At(s', i, FileSynced)
    {
      ok, evs, s' := WriteAll(raw, i, s);
      var failed := Fails();
      ok := ok && !failed;
      if ok { evs, s' := Do(raw, s, evs, s', SyncFile(i)); }
    }

    method Confirm(raw: string, i: nat, ghost s: State) returns (ok: bool, ghost evs: seq<Event>, ghost s': State)
      requires visible == s.visible && durable == s.durable && At(s, i, FileSynced) && visible == Some(Marker(i, raw))
      modifies this`durable
      ensures Run(raw, s, evs) == Some(s') && s'.visible == visible && s'.durable == durable && s'.launches == s.launches
      ensures i in s'.attempts && if ok then s'.attempts[i].pc == Consumed else Unsettled(s'.attempts[i].pc)
      ensures ok ==> durable == visible
      ensures steady ==> ok
    {
      evs, s' := [], s;
      var failed := Fails();
      if failed || visible != Some(Marker(i, raw)) { return false, evs, s'; }
      evs, s' := Do(raw, s, evs, s', Read(i));
      failed := Fails();
      if failed { return false, evs, s'; }
      evs, s' := Do(raw, s, evs, s', SyncDir(i));
      durable := visible;
      failed := Fails();
      if failed { return false, evs, s'; }
      evs, s' := Do(raw, s, evs, s', Verify(i));
      ok := true;
    }

    // Everything after the exclusive create; an error is ambiguous from here on.
    method Settle(raw: string, i: nat, ghost s: State) returns (v: Verdict, ghost evs: seq<Event>, ghost s': State)
      requires visible == s.visible && durable == s.durable && At(s, i, Writing) && visible == Some(Marker(i, ""))
      modifies this
      ensures Run(raw, s, evs) == Some(s')
      ensures s'.visible == visible && s'.durable == durable && At(s', i, EndPc(v)) && s'.launches == s.launches
      ensures v == Spent || v == PersistenceAmbiguous
      ensures steady ==> v == Spent
      ensures v == Spent ==> durable == Some(Marker(i, raw)) && visible == durable
      ensures visible.Some? && visible.value.owner == i
    {
      var ok;
      ok, evs, s' := Persist(raw, i, s);
      if ok {
        ghost var tail;
        ghost var mid := s';
        ok, tail, s' := Confirm(raw, i, mid);
        RunConcat(raw, s, evs, tail);
        evs := evs + tail;
        if ok { return Spent, evs, s'; }
      }
      evs, s' := Do(raw, s, evs, s', Error(i));
      v := PersistenceAmbiguous;
    }

    lemma Do(raw: string, s: State, evs: seq<Event>, s': State, ev: Event) returns (evs': seq<Event>, next: State)
      requires Run(raw, s, evs) == Some(s') && Step(raw, s', ev).Some?
      ensures Run(raw, s, evs') == Some(next) && next == Step(raw, s', ev).value
    {
      RunAppend(raw, s, evs, ev);
      evs', next := evs + [ev], Step(raw, s', ev).value;
    }

    method Consume(raw: string, i: nat, ghost s: State)
      returns (v: Verdict, ghost evs: seq<Event>, ghost s': State)
      requires visible == s.visible && durable == s.durable && At(s, i, Admitted)
      modifies this
      ensures Run(raw, s, evs) == Some(s')
      ensures s'.visible == visible && s'.durable == durable && At(s', i, EndPc(v))
      ensures s'.launches == s.launches
      ensures v == Spent ==> old(visible).None? && durable == Some(Marker(i, raw)) && visible == durable
      ensures v == AlreadyConsumed <==> old(visible).Some? && visible == old(visible) && v != Broken
      ensures steady ==> v == if old(visible).None? then Spent else AlreadyConsumed
      ensures v == Broken ==> visible == old(visible) && durable == old(durable)
      ensures v == PersistenceAmbiguous ==> old(visible).None? && visible.Some? && visible.value.owner == i
    {
      evs, s' := [], s;
      var failed := Fails();
      var ev := if failed then OpenError(i) else Open(i);
      RunAppend(raw, s, evs, ev);
      evs, s' := evs + [ev], Step(raw, s', ev).value;
      if failed { return Broken, evs, s'; }
      if visible.Some? { return AlreadyConsumed, evs, s'; }
      visible := Some(Marker(i, ""));
      ghost var tail;
      ghost var mid := s';
      v, tail, s' := Settle(raw, i, mid);
      RunConcat(raw, s, evs, tail);
      evs := evs + tail;
    }
  }
}
