/** The host-state observation controller: one execution over descriptors that
    one-shot closures own, every exceptional path included. */
module ObservationController {
  import opened Wrappers
  import opened ObservationResult

  // Why an execution raised.  `Cleanup` is a close that failed; `Rejected` would be the validator refusing the
  // shape of a result that the controller itself built.
  datatype Why = NotReady | AlreadyConsumed | NotConsumed | StoreError | Unreadable | Cleanup | Rejected

  datatype Ending = Returned(result: Result) | Raised(why: Why)

  // What the evidence store did with one bundle.
  datatype Stored = Durable(bundle: Bundle) | Uncertain(context: Context, dispatched: bool) | StoreRaised

  // What the sealed launch gave back.
  datatype Reply = RemoteTerminal(t: Terminal) | Receipt(d: Doc) | LaunchRaised

  datatype Consumption = Spent | Already | TokenAmbiguous | ConsumeFailed

  function Checked(c: Codec, w: World, r: Result, found: Option<Bundle>, readable: bool): Ending {
    if !readable then Raised(Unreadable)
    else if ValidResult(c, w, r, found) then Returned(r)
    else Raised(Rejected)
  }

  // What happens to one bundle: the grant observation it needs, what the store does with
  // it, and whether what was written can be read back.
  datatype StoreFate = Publishes | LosesTrack | Refuses

  datatype Fates = Fates(stable: bool, store: StoreFate, readable: bool)

  predicate Good(f: Fates) { f.stable && f.store == Publishes && f.readable }

  // A receipt, or a terminal that only the remote side may send.
  predicate PassReply(w: World, reply: Reply) { reply.Receipt? && reply.d.ReceiptDoc? && w.receiptOk(reply.d) }

  predicate RemoteReply(w: World, reply: Reply) {
    reply.RemoteTerminal? && ValidTerminal(w, reply.t) && reply.t.kind in {HostNotReady, HelperFailed}
  }

  // The reply reaches the caller as it is.
  ghost predicate Delivered(w: World, reply: Reply, e: Ending) {
    && e.Returned?
    && (if reply.Receipt? then
          && e.result.terminal.kind == Passed && e.result.receipt == Some(reply.d)
          && reply.d.ReceiptDoc? && e.result.dependency == Some(Project(w, reply.d))
        else reply.RemoteTerminal? && e.result.terminal == reply.t && e.result.receipt == None)
  }

  // How an execution ends for each reply: delivered when everything goes well, a
  // persistence in doubt when the store loses track of it, and only otherwise, for a
  // reply that cannot be accepted or published, a dispatch in doubt.
  ghost predicate Told(w: World, reply: Reply, first: Fates, second: Fates, e: Ending) {
    var accepted := (PassReply(w, reply) || RemoteReply(w, reply)) && first.stable;
    && (accepted && Good(first) ==> Delivered(w, reply, e))
    && (accepted && first.store == LosesTrack ==> e.Returned? && e.result.terminal.kind == PersistenceUncertain(true))
    && (e.Returned? && e.result.terminal.kind == DispatchUncertain ==>
          !accepted || (RemoteReply(w, reply) && !Good(first) && first.store != LosesTrack))
    && (!accepted && second.store == Publishes && second.readable ==>
          e.Returned? && e.result.terminal.kind == DispatchUncertain)
    && (e.Returned? && e.result.terminal.kind in {Passed, HostNotReady, HelperFailed} ==>
          accepted && Good(first) && Delivered(w, reply, e))
    && (e.Returned? ==> e.result.terminal.kind in {Passed, HostNotReady, HelperFailed, DispatchUncertain, PersistenceUncertain(true)})
  }

  // What the surroundings of one execution do.
  datatype Script = Script(valid: bool, consumption: Consumption, reply: Reply, changed: bool, first: Fates, second: Fates)

  // The launch's reply as the controller sees it: a changed authority makes it raise.
  function Seen(script: Script): Reply { if script.changed then LaunchRaised else script.reply }

  // Evidence is referred to unless its persistence is what is in doubt.
  ghost predicate Evidenced(e: Ending) {
    e.Returned? ==> (e.result.evidence <==> e.result.terminal.kind.code != PERSISTENCE_UNCERTAIN)
  }

  /** The one ending, up to diagnostics, that a script allows when no close fails. */
  ghost predicate Answers(w: World, script: Script, e: Ending) {
    if !script.valid then e == Raised(NotReady)
    else
      match script.consumption
      case Already => e == Raised(AlreadyConsumed)
      case ConsumeFailed => e == Raised(NotConsumed)
      case TokenAmbiguous => ToldAmbiguous(script.first, e)
      case Spent => Told(w, Seen(script), script.first, script.second, e)
  }

  // An ambiguous token is reported as such when that can be published.
  ghost predicate ToldAmbiguous(f: Fates, e: Ending) {
    && (f.store == Publishes && f.readable ==> e.Returned? && e.result.terminal.kind == TokenUncertain)
    && (f.store == LosesTrack ==> e.Returned? && e.result.terminal.kind == PersistenceUncertain(false))
    && (e.Returned? ==> f.store != Refuses && e.result.terminal.kind in {TokenUncertain, PersistenceUncertain(false)})
  }

  // A failed close ends the execution, or, inside the launch, makes the launch raise.
  ghost predicate Salvaged(w: World, script: Script, e: Ending) {
    e == Raised(Cleanup) || (Launches(script) && Told(w, LaunchRaised, script.first, script.second, e))
  }

  ghost predicate Launches(script: Script) { script.valid && script.consumption == Spent }

  // A returned result hides a failed close only as a dispatch or persistence in doubt.
  ghost predicate Honest(e: Ending, closeFailed: bool) {
    e.Returned? && closeFailed ==> e.result.terminal.kind in {DispatchUncertain, PersistenceUncertain(true)}
  }

  class Session {
    const artifacts: seq<nat>
    const authorities: seq<nat>
    const evidenceFds: seq<nat>
    const tokenFds: seq<nat>
    const grantFds: seq<nat>

    var acquired: multiset<nat>
    var released: multiset<nat>
    var leaked: multiset<nat>     // instrumentation: skipped when a close before them failed
    var closeFailed: bool         // instrumentation
    var compositionUsed: bool
    var preparedUsed: bool
    var authoritiesClosed: bool
    var launchCalls: nat

    // A constructed composition, grant and token: everything is held once.
    constructor (artifacts: seq<nat>, authorities: seq<nat>, evidenceFds: seq<nat>, tokenFds: seq<nat>, grantFds: seq<nat>)
      ensures this.artifacts == artifacts && this.authorities == authorities
      ensures this.evidenceFds == evidenceFds && this.tokenFds == tokenFds && this.grantFds == grantFds
      ensures Fresh()
    {
      this.artifacts, this.authorities := artifacts, authorities;
      this.evidenceFds, this.tokenFds, this.grantFds := evidenceFds, tokenFds, grantFds;
      acquired := multiset(artifacts) + multiset(authorities) + multiset(evidenceFds) + multiset(tokenFds) + multiset(grantFds);
      released, leaked, closeFailed, launchCalls := multiset{}, multiset{}, false, 0;
      compositionUsed, preparedUsed, authoritiesClosed := false, false, false;
    }

    ghost predicate Fresh()
      reads this
    {
      && !compositionUsed && !preparedUsed && !authoritiesClosed && launchCalls == 0 && released == multiset{}
      && leaked == multiset{} && !closeFailed
      && acquired == Held() + multiset(artifacts) + multiset(authorities)
    }

    ghost function Held(): multiset<nat> {
      multiset(evidenceFds) + multiset(tokenFds) + multiset(grantFds)
    }

    // The launch and the composition share the artifacts and authorities; the
    // flags say which of them are still open.
    ghost predicate Balanced()
      reads this`acquired, this`released, this`leaked, this`closeFailed, this`preparedUsed, this`authoritiesClosed
    {
      && acquired == released + leaked + Held() + (if preparedUsed then multiset{} else multiset(artifacts))
                     + (if authoritiesClosed then multiset{} else multiset(authorities))
      && (!closeFailed ==> leaked == multiset{})
    }

    // Close in turn; a close that fails raises, and the rest of the loop is skipped.
    method CloseAll(fds: seq<nat>) returns (ok: bool, ghost rest: nat)
      modifies this`released, this`leaked, this`closeFailed
      ensures rest <= |fds| && released == old(released) + multiset(fds[rest..]) && leaked == old(leaked) + multiset(fds[..rest])
      ensures released + leaked == old(released) + old(leaked) + multiset(fds)
      ensures ok ==> rest == 0
      ensures closeFailed == (old(closeFailed) || !ok)
      ensures closeFailed || leaked == old(leaked)
    {
      for i := |fds| downto 0
        invariant released == old(released) + multiset(fds[i..]) && leaked == old(leaked) && closeFailed == old(closeFailed)
      {
        assert fds[i..] == [fds[i]] + fds[i + 1..];
        released := released + multiset{fds[i]};
        var failed: bool := *;
        if failed {
          closeFailed, leaked := true, leaked + multiset(fds[..i]);
          assert fds == fds[..i] + fds[i..];
          return false, i;
        }
      }
      assert fds[0..] == fds && fds[..0] == [];
      ok, rest := true, 0;
    }

    method ClosePrepared() returns (ok: bool)
      requires Balanced()
      modifies this`released, this`leaked, this`closeFailed, this`preparedUsed
      ensures Balanced() && preparedUsed && closeFailed == (old(closeFailed) || !ok)
    {
      ok := true;
      if !preparedUsed {
        preparedUsed := true;
        ghost var rest;
        ok, rest := CloseAll(artifacts);
      }
    }

    method CloseAuthorities() returns (ok: bool)
      requires Balanced()
      modifies this`released, this`leaked, this`closeFailed, this`authoritiesClosed
      ensures Balanced() && authoritiesClosed && closeFailed == (old(closeFailed) || !ok)
    {
      ok := true;
      if !authoritiesClosed {
        authoritiesClosed := true;
        ghost var rest;
        ok, rest := CloseAll(authorities);
      }
    }

    // Both run, whatever the first raises.
    method CloseLaunch() returns (ok: bool)
      requires Balanced()
      modifies this`released, this`leaked, this`closeFailed, this`preparedUsed, this`authoritiesClosed
      ensures Balanced() && preparedUsed && authoritiesClosed && closeFailed == (old(closeFailed) || !ok)
    {
      var first := ClosePrepared();
      var second := CloseAuthorities();
      ok := first && second;
    }

    // The provider's launch: not reusable, and it closes what it held and what
    // it acquired on every path.
    method RunPrepared(sent: Reply) returns (reply: Reply)
      requires Balanced()
      modifies this`acquired, this`released, this`leaked, this`closeFailed, this`preparedUsed
      ensures Balanced() && preparedUsed && old(acquired) <= acquired
      ensures closeFailed == old(closeFailed) || (closeFailed && reply == LaunchRaised)
      ensures reply == sent || (reply == LaunchRaised && (old(preparedUsed) || closeFailed))
    {
      if preparedUsed { return LaunchRaised; }
      preparedUsed := true;
      var sealed_: seq<nat> := *;
      acquired := acquired + multiset(sealed_);
      reply := sent;
      var ok, rest := CloseAll(artifacts + sealed_);
      if !ok { reply := LaunchRaised; }
    }

    method RunLaunch(sent: Reply, authoritiesChanged: bool) returns (reply: Reply)
      requires Balanced()
      modifies this`acquired, this`released, this`leaked, this`closeFailed, this`preparedUsed, this`authoritiesClosed, this`launchCalls
      ensures Balanced() && preparedUsed && authoritiesClosed && launchCalls == old(launchCalls) + 1
      ensures old(acquired) <= acquired
      ensures closeFailed == old(closeFailed) || (closeFailed && reply == LaunchRaised)
      ensures !old(preparedUsed) && !closeFailed ==> reply == if authoritiesChanged then LaunchRaised else sent
      ensures closeFailed || old(preparedUsed) || reply in {sent, LaunchRaised}
    {
      hide Balanced;
      launchCalls := launchCalls + 1;
      reply := RunPrepared(sent);
      var ok := CloseAuthorities();
      if authoritiesChanged || !ok { reply := LaunchRaised; }
    }

    method CloseComposition() returns (ok: bool)
      requires Balanced()
      modifies this`compositionUsed, this`released, this`leaked, this`closeFailed, this`preparedUsed, this`authoritiesClosed
      ensures Balanced() && compositionUsed && closeFailed == (old(closeFailed) || !ok)
      ensures !old(compositionUsed) ==> preparedUsed && authoritiesClosed
      ensures old(compositionUsed) ==> ok && preparedUsed == old(preparedUsed) && authoritiesClosed == old(authoritiesClosed)
    {
      ok := true;
      if !compositionUsed {
        compositionUsed := true;
        ok := CloseLaunch();
      }
    }

    method PersistTerminal(c: Codec, w: World, t: Terminal, stable: bool, fate: StoreFate) returns (s: Stored)
      requires ValidTerminal(w, t)
      ensures s == match fate
        case Publishes => Durable(Published(w, Failure(c, w, t), Attached(w, t, stable)))
        case LosesTrack =>
          Uncertain(BuildContext(c, w, Failure(c, w, t), Attached(w, t, stable), t, None, None), t.kind.dispatched)
        case Refuses => StoreRaised
    {
      if fate == Refuses { return StoreRaised; }
      if fate == LosesTrack {
        return Uncertain(BuildContext(c, w, Failure(c, w, t), Attached(w, t, stable), t, None, None), t.kind.dispatched);
      }
      return Durable(Published(w, Failure(c, w, t), Attached(w, t, stable)));
    }

    method PersistPass(c: Codec, w: World, t: Terminal, receipt: Doc, fate: StoreFate) returns (s: Stored)
      requires receipt.ReceiptDoc?
      ensures var dep := Project(w, receipt);
        s == match fate
          case Publishes => Durable(Published(w, receipt, AttachedPass(w, t, true, dep)))
          case LosesTrack =>
            Uncertain(BuildContext(c, w, receipt, AttachedPass(w, t, true, dep), t, Some(receipt), Some(dep)), true)
          case Refuses => StoreRaised
    {
      var dep := Project(w, receipt);
      if fate == Refuses { return StoreRaised; }
      if fate == LosesTrack {
        return Uncertain(BuildContext(c, w, receipt, AttachedPass(w, t, true, dep), t, Some(receipt), Some(dep)), true);
      }
      return Durable(Published(w, receipt, AttachedPass(w, t, true, dep)));
    }

    // Turn an ambiguous persistence into its own terminal result.
    method PersistenceResult(c: Codec, w: World, context: Context, dispatched: bool) returns (e: Ending)
      requires ValidContext(c, w, context, dispatched)
      ensures e.Returned? && e.result.terminal.kind == PersistenceUncertain(dispatched)
      ensures ValidResult(c, w, e.result, None)
      ensures Evidenced(e)
    {
      var diagnostic: string :| |diagnostic| <= 256;
      var t := Terminal(PersistenceUncertain(dispatched), w.request, diagnostic);
      var r := Result(w.composition, w.evidenceRoot, t, None, None, false, Some(context));
      e := Checked(c, w, r, None, true);
    }

    // Publish a failure terminal and return its validated result.
    method Conclude(c: Codec, w: World, t: Terminal, requireStable: bool, f: Fates) returns (e: Ending)
      requires ValidTerminal(w, t) && t.kind in Origins && t.kind != Passed
      requires t.kind.verdict != AMBIGUOUS ==> requireStable
      ensures var blocked := requireStable && !f.stable;
        && (!blocked && f.store == Publishes && f.readable ==>
              e.Returned? && e.result.terminal == t && e.result.receipt == None)
        && (!blocked && f.store == LosesTrack ==>
              e.Returned? && e.result.terminal.kind == PersistenceUncertain(t.kind.dispatched))
        && (e.Returned? ==> !blocked && (f.store == LosesTrack || (f.store == Publishes && f.readable)))
      ensures e.Returned? ==> exists found :: ValidResult(c, w, e.result, found)
      ensures e != Raised(Rejected)
      ensures Evidenced(e)
    {
      if requireStable && !f.stable { return Raised(StoreError); }
      FailureResultValid(c, w, t, f.stable);
      FailureContextValid(c, w, t, f.stable);
      var s := PersistTerminal(c, w, t, f.stable, f.store);
      match s
      case StoreRaised => e := Raised(StoreError);
      case Uncertain(context, dispatched) => e := PersistenceResult(c, w, context, dispatched);
      case Durable(bundle) => e := Checked(c, w, Bare(w, t), Some(bundle), f.readable);
    }

    method ConcludePass(c: Codec, w: World, receipt: Doc, f: Fates) returns (e: Ending)
      requires receipt.ReceiptDoc? && w.receiptOk(receipt)
      ensures f.store == Publishes && f.readable ==> Delivered(w, Receipt(receipt), e)
      ensures f.store == LosesTrack ==> e.Returned? && e.result.terminal.kind == PersistenceUncertain(true)
      ensures e.Returned? ==> f.store == LosesTrack || (f.store == Publishes && f.readable)
      ensures e.Returned? ==> exists found :: ValidResult(c, w, e.result, found)
      ensures e != Raised(Rejected)
      ensures Evidenced(e)
    {
      var t := Terminal(Passed, w.request, "");
      PassResultValid(c, w, t, receipt);
      PassContextValid(c, w, t, receipt);
      var s := PersistPass(c, w, t, receipt, f.store);
      match s
      case StoreRaised => e := Raised(StoreError);
      case Uncertain(context, dispatched) => e := PersistenceResult(c, w, context, dispatched);
      case Durable(bundle) =>
        var r := Bare(w, t).(receipt := Some(receipt), dependency := Some(Project(w, receipt)));
        e := Checked(c, w, r, Some(bundle), f.readable);
    }

    // Everything after the launch was called.
    method AfterLaunch(c: Codec, w: World, reply: Reply, first: Fates, second: Fates) returns (e: Ending)
      ensures e.Returned? ==>
        e.result.terminal.kind.dispatched && exists found :: ValidResult(c, w, e.result, found)
      ensures e != Raised(Rejected)
      ensures Told(w, reply, first, second, e)
      ensures Evidenced(e)
    {
      hide ValidResult, Project;
      match reply {
        case RemoteTerminal(t) =>
          if ValidTerminal(w, t) && t.kind in {HostNotReady, HelperFailed} {
            e := Conclude(c, w, t, true, first);
            if e.Returned? { return; }
          }
        case Receipt(d) =>
          if d.ReceiptDoc? && w.receiptOk(d) && first.stable {
            e := ConcludePass(c, w, d, first);
            return;
          }
        case LaunchRaised =>
      }
      // every other exception after the dispatch
      var diagnostic: string :| |diagnostic| <= 256;
      e := Conclude(c, w, Terminal(DispatchUncertain, w.request, diagnostic), false, second);
    }

    lemma StartsBalanced()
      requires Fresh()
      ensures Balanced() && !compositionUsed && !preparedUsed && launchCalls == 0 && !closeFailed
    {}

    // Evidence store, token and grant, each whatever the others raise.
    method CloseHeld() returns (ok: bool)
      requires Balanced() && preparedUsed && authoritiesClosed
      modifies this`released, this`leaked, this`closeFailed
      ensures acquired == released + leaked && (!closeFailed ==> released == acquired)
      ensures closeFailed == (old(closeFailed) || !ok)
    {
      var evidence, r0 := CloseAll(evidenceFds);
      var token, r1 := CloseAll(tokenFds);
      var grant, r2 := CloseAll(grantFds);
      ok := evidence && token && grant;
    }

    // The controller body, before the cleanup of its caller.
    method Attempt(c: Codec, w: World, script: Script) returns (e: Ending)
      requires Balanced() && !compositionUsed && !preparedUsed && launchCalls == 0 && !closeFailed
      modifies this
      ensures Balanced() && compositionUsed && preparedUsed && authoritiesClosed
      ensures launchCalls == (if Launches(script) then 1 else 0)
      ensures if closeFailed then Salvaged(w, script, e) else Answers(w, script, e)
      ensures old(acquired) <= acquired && Honest(e, closeFailed)
      ensures e.Returned? ==> (e.result.terminal.kind.dispatched <==> launchCalls == 1)
      ensures e.Returned? ==> exists found :: ValidResult(c, w, e.result, found)
      ensures e != Raised(Rejected) && Evidenced(e)
    {
      hide ValidResult, Balanced;
      if !script.valid {
        var ok := CloseComposition();
        return Raised(if ok then NotReady else Cleanup);
      }
      compositionUsed := true;  // take_launch
      if script.consumption == Spent {
        var reply := RunLaunch(script.reply, script.changed);
        e := AfterLaunch(c, w, reply, script.first, script.second);
        return;
      }
      var ok := CloseLaunch();
      if !ok { return Raised(Cleanup); }
      match script.consumption
      case Already => e := Raised(AlreadyConsumed);
      case ConsumeFailed => e := Raised(NotConsumed);
      case TokenAmbiguous =>
        var diagnostic: string :| |diagnostic| <= 256;
        e := Conclude(c, w, Terminal(TokenUncertain, w.request, diagnostic), false, script.first);
    }

    /** One execution, with the cleanup that runs on every path.  Each held descriptor is
        closed once or, when a close before it in the same loop failed, skipped. */
    method Execute(c: Codec, w: World, script: Script) returns (e: Ending)
      requires Fresh()
      modifies this
      ensures acquired == released + leaked && old(acquired) <= acquired
      ensures !closeFailed ==> released == acquired
      ensures launchCalls == (if Launches(script) then 1 else 0)
      ensures if closeFailed then Salvaged(w, script, e) else Answers(w, script, e)
      ensures e.Returned? ==> (e.result.terminal.kind.dispatched <==> launchCalls == 1)
      ensures e.Returned? ==> exists found :: ValidResult(c, w, e.result, found)
      ensures e != Raised(Rejected) && Evidenced(e) && Honest(e, closeFailed)
    {
      hide ValidResult, Balanced, Fresh, Answers, Told;
      StartsBalanced();
      e := Attempt(c, w, script);
      var composition := CloseComposition();
      var held := CloseHeld();
      if !(composition && held) { e := Raised(Cleanup); }
    }
  }

  /** What that means for a launch that answered: with every close, the grant, the store
      and the readback in order, its receipt is returned as a pass with its projection, or
      its terminal as it is. */
  lemma GoodReplyReturned(w: World, script: Script, e: Ending)
    requires Answers(w, script, e) && Launches(script) && !script.changed && Good(script.first)
    requires PassReply(w, script.reply) || RemoteReply(w, script.reply)
    ensures e.Returned? && e.result.terminal.kind != DispatchUncertain
    ensures script.reply.Receipt? ==>
      e.result.terminal.kind == Passed && e.result.receipt == Some(script.reply.d)
      && e.result.dependency == Some(DependencyDoc(script.reply.d.sha, w.ssh, w.composition))
    ensures script.reply.RemoteTerminal? ==> e.result.terminal == script.reply.t
  {}
}
