/** A fault scenario from apply to verdict: try/finally rollback under ignored signals, then recovery. */
module Orchestration {
  import opened Basics
  import opened Testbed
  import opened Hosts
  import opened FaultSpec
  import opened FaultInvariants
  import opened FaultRuns
  import opened FaultCauses
  import opened FaultInjection
  import opened OwnCommands
  import opened CoreReadiness
  import opened LiveBaseline
  import opened Assertions

  datatype Scenario = Scenario(id: string, fault: Fault, expected: seq<string>, forbidden: seq<string>)

  /** What the scenario finds on disk afterwards: the traffic file, its markers, and the parsed events. */
  datatype Evidence = Evidence(trafficFile: bool, successMarker: bool, failureMarker: bool, events: set<string>)

  datatype Report = Report(
    status: ResultStatus, baselineReady: bool, faultApplied: bool, faultVerified: bool,
    infrastructureError: bool, rollbackError: bool, recoveryAttempted: bool, rollbackVerified: bool,
    recoveryStatus: ResultStatus, recoveryVerified: bool, expectedFailureObserved: bool,
    assertions: seq<Assertion>)

  const BLOCKED_REPORT := Report(Blocked, false, false, false, false, false, false, false, Blocked, false, false, [])

  /** The report of a run that did nothing: it claims nothing. */
  predicate Blank(r: Report) {
    && r.status == Blocked && !r.baselineReady && !r.faultApplied && !r.faultVerified && !r.infrastructureError
    && !r.rollbackError && !r.recoveryAttempted && !r.rollbackVerified && !r.recoveryVerified
    && !r.expectedFailureObserved && r.recoveryStatus == Blocked && r.assertions == []
  }

  datatype Result = Reported(report: Report) | Escaped(exc: Exc)

  // ---- what the phases may put on the trace ----

  lemma InstallIssuesNoUndo(o: Oracle, f: Fault, s: Sys)
    ensures NoUndoSince(Install(o, f, s).s.w, s.w)
  {
    var q := Run(o, s, ShowQdisc(DeviceOf(f)));
    var a := InstallClsact(o, f, q.s);
    assert NoUndoSince(q.s.w, s.w) && NoUndoSince(a.s.w, q.s.w);
    assert NoUndoSince(InstallFilter(o, f, a.s).s.w, a.s.w);
  }

  lemma ApplyIssuesNoUndo(o: Oracle, f: Fault, s: Sys)
    ensures NoUndoSince(Apply(o, f, s).s.w, s.w)
  {
    if f.kind.Impairs() {
      var show := Run(o, s, ShowFilter(DeviceOf(f), Preference(f)));
      assert NoUndoSince(show.s.w, s.w);
      InstallIssuesNoUndo(o, f, show.s);
    } else if f.kind.RestartService? {
      var ps := Run(o, s, Ps(Service(f)));
      assert NoUndoSince(ps.s.w, s.w);
      assert NoUndoSince(Run(o, ps.s, Inspect(Service(f))).s.w, ps.s.w);
    }
  }

  lemma VerifyAppliedIssuesNoUndo(o: Oracle, f: Fault, s: Sys)
    ensures NoUndoSince(VerifyApplied(o, f, s).s.w, s.w)
  {
    var ps := Run(o, s, Ps(Service(f)));
    assert NoUndoSince(ps.s.w, s.w);
    assert NoUndoSince(Run(o, ps.s, Inspect(Service(f))).s.w, s.w);
  }

  // ---- the try block ----

  /** Settling, traffic and log collection, one after the other, until one is cut short. */
  function Gathering(o: Oracle, w: World): World {
    var settle := Send(o, w, Settle);
    if !settle.ending.Exited? then settle.w
    else
      var traffic := Send(o, settle.w, Traffic);
      if !traffic.ending.Exited? then traffic.w else Send(o, traffic.w, CollectLogs).w
  }

  /** From index n on: the settle time was not cut short, the logs were collected, and the traffic ended with one of its
      two verdicts, to which its file agrees. */
  ghost predicate EvidenceGathered(o: Oracle, w: World, n: nat, e: Evidence) {
    && Returned(o, w, n, Settle) && Passed(o, w, n + 2, CollectLogs) && e.trafficFile
    && ((Passed(o, w, n + 1, Traffic) && e.successMarker) || (Answers(o, w, n + 1, Traffic, 4) && e.failureMarker))
  }

  /** apply returned. */
  ghost predicate FaultApplied(o: Oracle, f: Fault, w: World) {
    Apply(o, f, Sys(w, FRESH)).out == Normal
  }

  /** verify_applied, made right after apply. */
  function CheckApplied(o: Oracle, f: Fault, w: World): Verdict {
    VerifyApplied(o, f, Apply(o, f, Sys(w, FRESH)).s)
  }

  /** apply returned, and the check said that the fault is in effect. */
  ghost predicate FaultConfirmed(o: Oracle, f: Fault, w: World) {
    FaultApplied(o, f, w) && CheckApplied(o, f, w).ok
  }

  /** The state in which the try block ends. */
  function Tried(o: Oracle, f: Fault, w: World): Sys {
    var a := Apply(o, f, Sys(w, FRESH));
    var v := VerifyApplied(o, f, a.s);
    if a.out.Raised? then a.s
    else if v.out.Raised? || !v.ok then v.s
    else v.s.(w := Gathering(o, v.s.w))
  }

  /** The fault was applied, found to be in effect, and observed to the end. */
  ghost predicate FaultRan(o: Oracle, f: Fault, w: World, e: Evidence) {
    FaultConfirmed(o, f, w) && EvidenceGathered(o, Tried(o, f, w).w, |CheckApplied(o, f, w).s.w.trace|, e)
  }

  method GatherEvidence(host: Host, evidence: Evidence) returns (out: Outcome)
    modifies host
    ensures host.lab == old(host.lab) && NoUndoSince(host.Now(), old(host.Now()))
    ensures host.sigint == old(host.sigint) && host.sigterm == old(host.sigterm)
    ensures host.Now() == Gathering(host.oracle, old(host.Now()))
    ensures out == Normal <==> EvidenceGathered(host.oracle, host.Now(), |old(host.trace)|, evidence)
    ensures out != Raised(BadValue) && Caused(host.oracle, host.trace, |old(host.trace)|, out)
  {
    var code, traffic;
    ghost var o, w, n := host.oracle, host.Now(), |host.trace|;
    code, out := RunOwn(host, Settle);
    if out.Raised? { return; }
    ghost var w1 := host.Now();
    traffic, out := RunOwn(host, Traffic);
    ghost var w2 := host.Now();
    NoUndoInBetween(w, w1, w2);
    StillAnswered(o, w1, w2, n, Settle);
    ThenCaused(o, w1.trace, w2.trace, n, Normal, out);
    if out.Raised? { return; }
    code, out := RunOwn(host, CollectLogs);
    NoUndoInBetween(w, w2, host.Now());
    StillAnswered(o, w2, host.Now(), n, Settle);
    StillAnswered(o, w2, host.Now(), n + 1, Traffic);
    ThenCaused(o, w2.trace, host.trace, n, Normal, out);
    if out.Raised? { return; }
    if code != 0 { return Raised(RuntimeFailure); }
    if (traffic != 0 && traffic != 4) || !evidence.trafficFile { return Raised(RuntimeFailure); }
    if !(if traffic == 0 then evidence.successMarker else evidence.failureMarker) { return Raised(RuntimeFailure); }
  }

  /** From index n on, SIGTERM would have interrupted every command. */
  ghost predicate GuardedFrom(trace: seq<Call<Command>>, n: nat) {
    forall k :: n <= k < |trace| ==> trace[k].sigterm == Raises
  }

  lemma GatheringGuarded(o: Oracle, w: World)
    requires w.sigterm == Raises
    ensures GuardedFrom(Gathering(o, w).trace, |w.trace|)
  {
  }

  /** The try block: apply, verify, settle, traffic, collect. */
  method RunFault(host: Host, injector: FaultInjector, evidence: Evidence)
    returns (out: Outcome, faultApplied: bool, faultVerified: bool)
    requires injector.host == host && injector.State() == Sys(host.Now(), FRESH) && ValidLab(host.lab)
    requires host.sigterm == Raises
    modifies injector, host
    ensures injector.host == host && ArmedOnChange(injector.fault, injector.State(), old(host.lab))
    ensures host.sigint == old(host.sigint) && host.sigterm == old(host.sigterm)
    ensures NoUndoSince(host.Now(), old(host.Now()))
    ensures faultApplied <==> FaultApplied(host.oracle, injector.fault, old(host.Now()))
    ensures faultVerified <==> FaultConfirmed(host.oracle, injector.fault, old(host.Now()))
    ensures injector.State() == Tried(host.oracle, injector.fault, old(host.Now()))
    ensures out == Normal <==> FaultRan(host.oracle, injector.fault, old(host.Now()), evidence)
    ensures Caused(host.oracle, host.trace, |old(host.trace)|, out)
    ensures out == Raised(BadValue) <==> !TargetAllowed(injector.fault)
    ensures GuardedFrom(host.trace, |old(host.trace)|)
  {
    faultApplied, faultVerified := false, false;
    ghost var w0 := host.Now();
    ApplyFacts(host.oracle, injector.fault, w0);
    out := injector.Apply();
    if out.Raised? { return; }
    faultApplied := injector.applied;
    ghost var s := injector.State();
    VerifyAppliedFacts(host.oracle, injector.fault, s, w0.lab);
    var ok;
    ok, out := injector.VerifyApplied();
    ThenCaused(host.oracle, s.w.trace, host.trace, |w0.trace|, Normal, out);
    NoUndoInBetween(w0, s.w, host.Now());
    if out.Raised? { return; }
    if !ok { out := Raised(RuntimeFailure); return; }
    faultVerified := true;
    ghost var v := host.Now();
    out := GatherEvidence(host, evidence);
    GatheringGuarded(host.oracle, v);
    NoUndoInBetween(w0, v, host.Now());
    ThenCaused(host.oracle, v.trace, host.trace, |w0.trace|, Normal, out);
  }

  /** All that RunFault needs of apply. */
  lemma ApplyFacts(o: Oracle, f: Fault, w0: World)
    requires ValidLab(w0.lab)
    ensures
      var s, a := Sys(w0, FRESH), Apply(o, f, Sys(w0, FRESH));
      && ArmedOnChange(f, a.s, w0.lab) && Later(a.s, s) && NoUndoSince(a.s.w, w0)
      && Caused(o, a.s.w.trace, |w0.trace|, a.out) && (a.out == Raised(BadValue) <==> !TargetAllowed(f))
      && (a.out == Normal ==> a.s.i.applied)
  {
    ApplyArms(o, f, w0);
    ApplyLater(o, f, Sys(w0, FRESH));
    ApplyIssuesNoUndo(o, f, Sys(w0, FRESH));
    ApplyBlamed(o, f, Sys(w0, FRESH));
  }

  /** All that RunFault needs of verify_applied. */
  lemma VerifyAppliedFacts(o: Oracle, f: Fault, s: Sys, lab0: Lab)
    requires ArmedOnChange(f, s, lab0)
    ensures
      var v := VerifyApplied(o, f, s);
      && ArmedOnChange(f, v.s, lab0) && Later(v.s, s) && NoUndoSince(v.s.w, s.w) && v.s.i.applied == s.i.applied
      && Caused(o, v.s.w.trace, |s.w.trace|, v.out) && (v.out.Raised? ==> !WentOn(v.out))
      && (v.ok ==> v.out == Normal)
  {
    VerifyAppliedKeeps(o, f, s, lab0);
    VerifyAppliedIssuesNoUndo(o, f, s);
    VerifyAppliedBlamed(o, f, s);
  }

  /** A fault that was confirmed was really in effect when it was. */
  lemma ConfirmedIsReal(o: Oracle, f: Fault, w: World)
    requires ValidLab(w.lab) && FaultConfirmed(o, f, w)
    ensures InEffect(f, CheckApplied(o, f, w).s.w.lab, w.lab)
  {
    VerifiedFaultIsReal(o, f, w);
  }

  // ---- the finally block ----

  /** Every command issued from index a up to b ran with both signals ignored. */
  ghost predicate MaskedBetween(trace: seq<Call<Command>>, a: nat, b: nat) {
    a <= b <= |trace| && forall k :: a <= k < b ==> trace[k].sigint == Ignored && trace[k].sigterm == Ignored
  }

  /** What the finally block leaves behind. verified is rollback_verified. */
  ghost predicate RolledBack(o: Oracle, f: Fault, w: World, w': World, lab0: Lab, verified: bool) {
    && w.trace <= w'.trace && MaskedBetween(w'.trace, |w.trace|, |w'.trace|)
    && (verified ==> Verified(f, w'.lab, lab0))
    && (FaithfulFrom(o, |w.trace|) ==> Restored(f, w'.lab, lab0))
  }

  lemma RollbackMeans(o: Oracle, f: Fault, s: Sys, lab0: Lab)
    requires ArmedOnChange(f, s, lab0) && s.w.sigint == Ignored && s.w.sigterm == Ignored
    ensures
      var r := Remove(o, f, s);
      && RolledBack(o, f, s.w, r.s.w, lab0, false)
      && RolledBack(o, f, s.w, VerifyRemoved(o, f, r.s).s.w, lab0, VerifyRemoved(o, f, r.s).ok)
  {
    var r := Remove(o, f, s);
    RemoveKeeps(o, f, s, lab0);
    if FaithfulFrom(o, |s.w.trace|) { HonestRollback(o, f, s, lab0); }
    var v := VerifyRemoved(o, f, r.s);
    VerifyRemovedKeeps(o, f, r.s, lab0);
    VerifyRemovedMeans(o, f, r.s, lab0);
    LaterStill(v.s, r.s, s);
  }

  /** Whom to blame for an exception from the rollback. */
  lemma RollbackBlamed(o: Oracle, f: Fault, s: Sys)
    ensures
      var r := Remove(o, f, s);
      var v := VerifyRemoved(o, f, r.s);
      && RollbackCaused(o, f, s, r.s.w.trace, r.out)
      && (r.out == Normal ==> RollbackCaused(o, f, s, v.s.w.trace, v.out))
      && v.out != Raised(RuntimeFailure) && (v.ok ==> v.out == Normal)
  {
    RemoveBlamed(o, f, s);
    var r := Remove(o, f, s);
    VerifyRemovedBlamed(o, f, r.s);
    var v := VerifyRemoved(o, f, r.s);
    if r.out == Normal { ThenCaused(o, r.s.w.trace, v.s.w.trace, |s.w.trace|, Normal, v.out); }
    if !TargetAllowed(f) {
      DisallowedRollback(o, f, s);
      DisallowedRollback(o, f, r.s);
      NothingCaused(o, s.w.trace, Normal);
    }
  }

  /** The rollback that left this trace crashed exactly with a command that could not be run, and raised ValueError
      exactly when there was something to undo on a target that is not allowed; then it issued no command. */
  ghost predicate RollbackCaused(o: Oracle, f: Fault, s: Sys, trace: seq<Call<Command>>, out: Outcome) {
    && Caused(o, trace, |s.w.trace|, out)
    && (out == Raised(BadValue) <==> Pending(s) && !TargetAllowed(f) && !f.kind.Unsupported?)
    && (!TargetAllowed(f) ==> WentOn(out))
  }

  /** In a smooth lab the rollback of an applicable fault is verified. */
  ghost predicate Reversible(o: Oracle, f: Fault, s: Sys, lab0: Lab) {
    Smooth(o, |s.w.trace|) && Applicable(f, lab0) && Pending(s)
  }

  /** The same state with both signals ignored. */
  function Masked(s: Sys): Sys {
    s.(w := s.w.(sigint := Ignored, sigterm := Ignored))
  }

  /** There is something to take back. */
  predicate Pending(s: Sys) {
    s.i.applied || s.i.cleanupRequired
  }

  /** remove returns from here, and the check after it says that nothing is left. */
  ghost predicate RollbackConfirmed(o: Oracle, f: Fault, s: Sys) {
    Remove(o, f, s).out == Normal && VerifyRemoved(o, f, Remove(o, f, s).s).ok
  }

  lemma RollbackSucceeds(o: Oracle, f: Fault, s: Sys, lab0: Lab)
    requires ArmedOnChange(f, s, lab0) && Reversible(o, f, s, lab0)
    ensures RollbackConfirmed(o, f, s)
  {
    SmoothRemove(o, f, s, lab0, |s.w.trace|);
  }

  /** Rollback with SIGINT and SIGTERM ignored; both dispositions are put back on every path. */
  method RollBack(host: Host, injector: FaultInjector, previousTerm: Handler, ghost lab0: Lab)
    returns (attempted: bool, verified: bool, error: bool, out: Outcome)
    requires injector.host == host && ArmedOnChange(injector.fault, injector.State(), lab0)
    modifies injector, host
    ensures host.sigint == old(host.sigint) && host.sigterm == previousTerm
    ensures RolledBack(host.oracle, injector.fault, old(host.Now()), host.Now(), lab0, verified)
    ensures attempted <==> old(Pending(injector.State()))
    ensures verified <==> attempted && RollbackConfirmed(host.oracle, injector.fault, Masked(old(injector.State())))
    ensures out == Normal ==> (error <==> attempted && !verified)
    ensures out != Raised(RuntimeFailure)
    ensures RollbackCaused(host.oracle, injector.fault, Masked(old(injector.State())), host.trace, out)
    ensures Reversible(host.oracle, injector.fault, old(injector.State()), lab0) ==> out == Normal && verified
  {
    var previousInt := host.sigint;
    host.sigint := Ignored;
    host.sigterm := Ignored;
    attempted, verified, error, out := RemoveAndVerify(injector, lab0);
    host.sigint := previousInt;
    host.sigterm := previousTerm;
  }

  /** The body of the finally block. */
  method RemoveAndVerify(injector: FaultInjector, ghost lab0: Lab)
    returns (attempted: bool, verified: bool, error: bool, out: Outcome)
    requires ArmedOnChange(injector.fault, injector.State(), lab0)
    requires injector.host.sigint == Ignored && injector.host.sigterm == Ignored
    modifies injector, injector.host
    ensures RolledBack(
      injector.host.oracle, injector.fault, old(injector.host.Now()), injector.host.Now(), lab0, verified)
    ensures attempted <==> old(Pending(injector.State()))
    ensures verified <==> attempted && RollbackConfirmed(injector.host.oracle, injector.fault, old(injector.State()))
    ensures out == Normal ==> (error <==> attempted && !verified)
    ensures out != Raised(RuntimeFailure)
    ensures RollbackCaused(
      injector.host.oracle, injector.fault, old(injector.State()), injector.host.trace, out)
    ensures Reversible(injector.host.oracle, injector.fault, old(injector.State()), lab0) ==> out == Normal && verified
  {
    attempted, verified, error, out := false, false, false, Normal;
    ghost var o, f, s := injector.host.oracle, injector.fault, injector.State();
    RollbackMeans(o, f, s, lab0);
    RollbackBlamed(o, f, s);
    if Reversible(o, f, s, lab0) { RollbackSucceeds(o, f, s, lab0); }
    if injector.applied || injector.cleanupRequired {
      attempted := true;
      out := injector.Remove();
      if out == Normal {
        verified, out := injector.VerifyRemoved();
        error := !verified;
      } else if out == Raised(RuntimeFailure) {
        error, out := true, Normal;
      }
    } else {
      NothingCaused(o, s.w.trace, Normal);
      assert injector.State() == s;
    }
  }

  // ---- one attempt, rolled back ----

  datatype Flags = Flags(
    applied: bool, verified: bool, infrastructureError: bool,
    attempted: bool, rollbackVerified: bool, rollbackError: bool)

  /** SIGTERM interrupts the scenario while the fault is in. */
  function Guarded(w: World): World {
    w.(sigterm := Raises)
  }

  /** The traffic file is there and agrees with what the traffic, as the n-th command, answers. */
  predicate FileAgrees(o: Oracle, n: nat, e: Evidence) {
    e.trafficFile && if o(n, Traffic).code == Exit(4) then e.failureMarker else e.successMarker
  }

  /** Nothing stands in the way of a complete scenario, whether its traffic gets through or not. */
  ghost predicate Unhindered(o: Oracle, f: Fault, w: World, e: Evidence) {
    && Smooth(o, |w.trace|) && Applicable(f, w.lab)
    && FileAgrees(o, |CheckApplied(o, f, Guarded(w)).s.w.trace| + 1, e)
  }

  /** The flags of an attempt that began in w, each of them exact. */
  ghost predicate FlagsExact(o: Oracle, f: Fault, e: Evidence, w: World, flags: Flags) {
    && (flags.applied <==> FaultApplied(o, f, w))
    && (flags.verified <==> FaultConfirmed(o, f, w))
    && (flags.verified ==> InEffect(f, CheckApplied(o, f, w).s.w.lab, w.lab))
    && (!flags.infrastructureError <==> FaultRan(o, f, w, e))
    && (flags.attempted <==> Pending(Tried(o, f, w)))
    && (flags.rollbackVerified <==> flags.attempted && RollbackConfirmed(o, f, Masked(Tried(o, f, w))))
    && (flags.rollbackError <==> flags.attempted && !flags.rollbackVerified)
  }

  /** The order and the effect of an attempt from w0 to w. From index mark on the finally block ran. */
  ghost predicate AttemptOrder(o: Oracle, f: Fault, w0: World, w: World, mark: nat, rollbackVerified: bool) {
    && w0.trace <= w.trace && |w0.trace| <= mark <= |w.trace| && w.trace[..mark] == Tried(o, f, Guarded(w0)).w.trace
    && GuardedFrom(w.trace[..mark], |w0.trace|)
    // every signal disposition is put back, on every exit path
    && w.sigint == w0.sigint && w.sigterm == w0.sigterm
    // undo commands are issued only in the finally block, and everything there runs with both signals ignored
    && MaskedBetween(w.trace, mark, |w.trace|)
    && (forall k :: |w0.trace| <= k < |w.trace| && w.trace[k].command.Undoes() ==> mark <= k)
    // a rollback reported as verified is real, whatever any mutating command answered
    && (rollbackVerified ==> Verified(f, w.lab, w0.lab))
    // whatever happened before, an honest rollback restores the lab on every exit path, exceptions included
    && (FaithfulFrom(o, mark) ==> Restored(f, w.lab, w0.lab))
  }

  /** How the try and finally blocks end: with a ValueError exactly for a target that is not allowed, with a crash
      exactly when a command could not be run, and else normally. */
  ghost predicate AttemptEscapes(o: Oracle, f: Fault, w0: World, w: World, out: Outcome) {
    && (out == Raised(BadValue) <==> !TargetAllowed(f))
    && (out == Raised(Crashed) <==> SomeCrashed(o, w.trace, |w0.trace|))
    && out != Raised(RuntimeFailure) && out != Raised(Interrupted)
  }

  /** What the try and finally blocks guarantee from w0 to w. */
  ghost predicate AttemptGuarantee(
    o: Oracle, f: Fault, e: Evidence, w0: World, w: World, mark: nat, out: Outcome, flags: Flags)
  {
    && AttemptOrder(o, f, w0, w, mark, flags.rollbackVerified)
    // an exception escapes exactly for a cause, and an interruption of the try block is none
    && AttemptEscapes(o, f, w0, w, out)
    // otherwise the flags are exact, and an interruption is an infrastructure error
    && (out == Normal ==>
          FlagsExact(o, f, e, Guarded(w0), flags)
          && (SomeCut(o, w.trace[..mark], |w0.trace|) ==> flags.infrastructureError))
    && (Unhindered(o, f, w0, e) ==>
          out == Normal && flags.verified && !flags.infrastructureError && flags.rollbackVerified)
  }

  lemma UnhinderedChecked(o: Oracle, f: Fault, w: World)
    requires ValidLab(w.lab) && Smooth(o, |w.trace|) && Applicable(f, w.lab)
    ensures FaultConfirmed(o, f, w)
    ensures var v := CheckApplied(o, f, w); v.out == Normal && v.s.i.applied && |w.trace| <= |v.s.w.trace|
  {
    SmoothApply(o, f, w);
    var a := Apply(o, f, Sys(w, FRESH));
    assert a.s.i.applied && ArmedOnChange(f, a.s, w.lab) by { ApplyFacts(o, f, w); }
    VerifyAppliedFacts(o, f, a.s, w.lab);
    CheckedLater(o, f, w);
  }

  lemma UnhinderedRuns(o: Oracle, f: Fault, w: World, e: Evidence)
    requires ValidLab(w.lab) && Smooth(o, |w.trace|) && Applicable(f, w.lab)
    requires FileAgrees(o, |CheckApplied(o, f, w).s.w.trace| + 1, e)
    ensures FaultRan(o, f, w, e) && Reversible(o, f, Tried(o, f, w), w.lab)
  {
    UnhinderedChecked(o, f, w);
    TriedToTheEnd(o, f, w);
    ConfirmedRuns(o, f, w, e, CheckApplied(o, f, w).s);
    GatheredIsReversible(o, f, CheckApplied(o, f, w).s, e, w.lab, |w.trace|);
  }

  lemma ConfirmedRuns(o: Oracle, f: Fault, w: World, e: Evidence, v: Sys)
    requires FaultConfirmed(o, f, w) && v == CheckApplied(o, f, w).s && Tried(o, f, w) == v.(w := Gathering(o, v.w))
    requires Smooth(o, |w.trace|) && |w.trace| <= |v.w.trace| && FileAgrees(o, |v.w.trace| + 1, e)
    ensures FaultRan(o, f, w, e)
  {
    SmoothGathering(o, v.w, e, |w.trace|);
  }

  lemma GatheredIsReversible(o: Oracle, f: Fault, v: Sys, e: Evidence, lab0: Lab, n: nat)
    requires Smooth(o, n) && n <= |v.w.trace| && Applicable(f, lab0) && v.i.applied && FileAgrees(o, |v.w.trace| + 1, e)
    ensures Reversible(o, f, v.(w := Gathering(o, v.w)), lab0)
  {
    SmoothGathering(o, v.w, e, n);
  }

  lemma TriedToTheEnd(o: Oracle, f: Fault, w: World)
    requires FaultConfirmed(o, f, w) && CheckApplied(o, f, w).out == Normal
    ensures var v := CheckApplied(o, f, w); Tried(o, f, w) == v.s.(w := Gathering(o, v.s.w))
  {
  }

  lemma CheckedLater(o: Oracle, f: Fault, w: World)
    requires ValidLab(w.lab)
    ensures |w.trace| <= |CheckApplied(o, f, w).s.w.trace|
  {
    var s := Apply(o, f, Sys(w, FRESH)).s;
    assert Later(s, Sys(w, FRESH)) by { ApplyLater(o, f, Sys(w, FRESH)); }
    assert Later(VerifyApplied(o, f, s).s, s) by {
      ApplyArms(o, f, w);
      VerifyAppliedKeeps(o, f, s, w.lab);
    }
  }

  lemma SmoothGathering(o: Oracle, w: World, e: Evidence, n: nat)
    requires Smooth(o, n) && n <= |w.trace| && FileAgrees(o, |w.trace| + 1, e)
    ensures EvidenceGathered(o, Gathering(o, w), |w.trace|, e)
    ensures |Gathering(o, w).trace| == |w.trace| + 3 && Smooth(o, |Gathering(o, w).trace|)
  {
    SmoothSent(o, w, Settle, n);
    OwnSent(o, w, Settle);
    var w1 := Send(o, w, Settle).w;
    SmoothSent(o, w1, Traffic, n);
    OwnSent(o, w1, Traffic);
    var w2 := Send(o, w1, Traffic).w;
    SmoothSent(o, w2, CollectLogs, n);
    OwnSent(o, w2, CollectLogs);
    var w3 := Send(o, w2, CollectLogs).w;
    StillAnswered(o, w1, w3, |w.trace|, Settle);
    StillAnswered(o, w2, w3, |w.trace| + 1, Traffic);
  }

  /** The try block with its handlers, and then the finally block. */
  method AttemptFault(host: Host, f: Fault, evidence: Evidence) returns (out: Outcome, flags: Flags, ghost mark: nat)
    requires ValidLab(host.lab)
    modifies host
    ensures AttemptGuarantee(host.oracle, f, evidence, old(host.Now()), host.Now(), mark, out, flags)
  {
    ghost var w0, o := host.Now(), host.oracle;
    var injector := new FaultInjector(f, host);
    var previousTerm := host.sigterm;
    host.sigterm := Raises;
    if Unhindered(o, f, w0, evidence) { UnhinderedRuns(o, f, Guarded(w0), evidence); }
    if FaultConfirmed(o, f, Guarded(w0)) { ConfirmedIsReal(o, f, Guarded(w0)); }
    var raised, applied, verified;
    raised, applied, verified := RunFault(host, injector, evidence);
    ghost var s := injector.State();
    mark := |host.trace|;
    var attempted, rollbackVerified, rollbackError;
    attempted, rollbackVerified, rollbackError, out := RollBack(host, injector, previousTerm, w0.lab);
    var infrastructureError := raised == Raised(RuntimeFailure) || raised == Raised(Interrupted);
    flags := Flags(applied, verified, infrastructureError, attempted, rollbackVerified, rollbackError);
    OrderOfAttempt(o, f, w0, s, host.Now(), rollbackVerified);
    CausesOfAttempt(o, f, w0, s, host.Now(), raised, out);
    if out == Normal && !infrastructureError { out := raised; }
  }

  /** The finally block changes nothing that was said about the try block, which left the state s. */
  lemma OrderOfAttempt(o: Oracle, f: Fault, w0: World, s: Sys, w: World, rollbackVerified: bool)
    requires s == Tried(o, f, Guarded(w0)) && NoUndoSince(s.w, w0) && GuardedFrom(s.w.trace, |w0.trace|)
    requires RolledBack(o, f, s.w, w, w0.lab, rollbackVerified) && w.sigint == w0.sigint && w.sigterm == w0.sigterm
    ensures AttemptOrder(o, f, w0, w, |s.w.trace|, rollbackVerified) && w.trace[..|s.w.trace|] == s.w.trace
  {
  }

  /** Nothing cuts a masked command short. */
  lemma MaskedUncut(o: Oracle, trace: seq<Call<Command>>, a: nat, b: nat)
    requires MaskedBetween(trace, a, b)
    ensures forall k :: a <= k < b ==> !CutAt(o, trace, k)
  {
  }

  /** How the attempt ends, from how its try block ended and how its finally block did. */
  lemma CausesOfAttempt(o: Oracle, f: Fault, w0: World, s: Sys, w: World, raised: Outcome, out: Outcome)
    requires w0.trace <= s.w.trace <= w.trace && MaskedBetween(w.trace, |s.w.trace|, |w.trace|)
    requires Caused(o, s.w.trace, |w0.trace|, raised) && (raised == Raised(BadValue) <==> !TargetAllowed(f))
    requires RollbackCaused(o, f, Masked(s), w.trace, out) && out != Raised(RuntimeFailure)
    ensures
      var reported := raised == Raised(RuntimeFailure) || raised == Raised(Interrupted);
      AttemptEscapes(o, f, w0, w, if out == Normal && !reported then raised else out)
  {
    MaskedUncut(o, w.trace, |s.w.trace|, |w.trace|);
    assert !SomeCut(o, w.trace, |s.w.trace|);
    Divided(o, s.w.trace, w.trace, |w0.trace|);
    if out.Raised? { EveryException(out.exc); }
    if raised.Raised? { EveryException(raised.exc); }
  }

  lemma EveryException(exc: Exc)
    ensures exc == RuntimeFailure || exc == BadValue || exc == Interrupted || exc == Crashed
  {
  }

  // ---- the verdict ----

  /** The report's flags are consistent and its status says exactly what happened. */
  ghost predicate VerdictExact(sc: Scenario, evidence: Evidence, r: Report) {
    var asExpected := AsExpected(sc.expected, sc.forbidden, evidence.events);
    && (r.status == Error <==> r.infrastructureError)
    && (r.status == Pass <==>
          !r.infrastructureError && r.faultVerified && r.rollbackVerified && r.recoveryStatus == Pass && asExpected)
    && r.status in {Pass, Fail, Error}
    && (!r.infrastructureError ==> r.faultVerified) && (r.faultVerified ==> r.faultApplied)
    && (r.recoveryVerified <==> r.recoveryStatus == Pass)
    && (r.recoveryVerified ==> r.rollbackVerified && r.faultVerified)
    && (r.rollbackVerified ==> r.recoveryAttempted)
    && (r.rollbackError <==> r.recoveryAttempted && !r.rollbackVerified)
    && (r.expectedFailureObserved <==> !r.infrastructureError && asExpected)
    && r.baselineReady && EventResults(sc.expected, sc.forbidden, evidence.events, r.assertions)
  }

  /** A scenario as it went: the worlds and clock readings before and after it, where on the trace the finally block
      began and ended, and the core wait of the recovery, if it came to that. */
  datatype Course = Course(before: World, after: World, mark: nat, stop: nat, began: real, ended: real, wait: Wait)

  /** The recovery is validated exactly when fault and rollback are verified, with a core wait of its own. */
  ghost predicate RecoveryExact(o: Oracle, core: Core, c: Course, r: Report) {
    if r.faultVerified && r.rollbackVerified then
      && |c.after.trace| == c.stop + 2 && LiveReturned(o, c.after, c.stop, Recovery)
      && Called(core, c.wait, c.began) && c.wait.ended == c.ended
      && r.recoveryStatus == (if LivePassed(o, c.after, c.stop, Recovery, c.wait) then Pass else Fail)
    else
      |c.after.trace| == c.stop && c.ended == c.began && r.recoveryStatus == Skipped
  }

  function FlagsOf(r: Report): Flags {
    Flags(r.faultApplied, r.faultVerified, r.infrastructureError,
          r.recoveryAttempted, r.rollbackVerified, r.rollbackError)
  }

  /** Everything after the finally block validates the recovery. */
  ghost predicate OnlyRecovery(trace: seq<Call<Command>>, stop: nat) {
    && stop <= |trace| <= stop + 2
    && forall k :: stop <= k < |trace| ==>
      trace[k].command == Baseline(Recovery) || trace[k].command == Recheck(Recovery)
  }

  /** The order and the effect of a fault scenario. */
  ghost predicate ScenarioOrder(o: Oracle, f: Fault, c: Course) {
    var w0, w1 := c.before, c.after;
    && w0.trace <= w1.trace && |w0.trace| <= c.mark <= c.stop && OnlyRecovery(w1.trace, c.stop)
    // the try block did exactly this
    && w1.trace[..c.mark] == Tried(o, f, Guarded(w0)).w.trace
    // every signal disposition is put back, on every exit path
    && w1.sigint == w0.sigint && w1.sigterm == w0.sigterm
    // undo commands are issued only in the finally block, and everything there runs with both signals ignored
    && MaskedBetween(w1.trace, c.mark, c.stop)
    && (forall k :: |w0.trace| <= k < |w1.trace| && w1.trace[k].command.Undoes() ==> c.mark <= k < c.stop)
    // whatever happened before, an honest rollback restores the lab on every exit path, exceptions included
    && (FaithfulFrom(o, c.mark) ==> Restored(f, w1.lab, w0.lab))
  }

  /** What the report of a fault scenario is worth. */
  ghost predicate ReportExact(o: Oracle, core: Core, f: Fault, e: Evidence, c: Course, r: Report) {
    // every flag of the report is exact: a fault reported as verified was confirmed and in effect, and no
    // infrastructure error is reported exactly when the fault ran and was observed to the end
    && FlagsExact(o, f, e, Guarded(c.before), FlagsOf(r))
    // a reported rollback is real, whatever any mutating command answered
    && (r.rollbackVerified ==> Verified(f, c.after.lab, c.before.lab))
    && RecoveryExact(o, core, c, r)
  }

  /** A signal that cuts the try block short is reported as an infrastructure error. */
  ghost predicate CutsReported(o: Oracle, c: Course, infrastructureError: bool) {
    c.mark <= |c.after.trace| && (SomeCut(o, c.after.trace[..c.mark], |c.before.trace|) ==> infrastructureError)
  }

  /** When nothing goes wrong in the lab, only the events and the core wait are left to decide. */
  ghost predicate ScenarioComplete(o: Oracle, f: Fault, e: Evidence, c: Course, result: Result) {
    Unhindered(o, f, c.before, e) ==>
      && result.Reported? && !result.report.infrastructureError && result.report.faultVerified
      && result.report.rollbackVerified && (result.report.recoveryStatus == Pass <==> c.wait.passed)
  }

  /** Which exception leaves a fault scenario, and when. An interruption of the try block never does: only one after the
      finally block, while the recovery is validated. */
  ghost predicate EscapesExactly(o: Oracle, f: Fault, c: Course, result: Result) {
    && (result == Escaped(BadValue) <==> !TargetAllowed(f))
    && (result == Escaped(Crashed) <==> SomeCrashed(o, c.after.trace, |c.before.trace|))
    && (result == Escaped(Interrupted) <==> SomeCut(o, c.after.trace, c.stop))
    && result != Escaped(RuntimeFailure)
  }

  /** The end-to-end guarantee of a fault scenario. */
  ghost predicate ScenarioGuarantee(o: Oracle, core: Core, f: Fault, e: Evidence, c: Course, result: Result) {
    && ScenarioOrder(o, f, c)
    && EscapesExactly(o, f, c, result)
    && (result.Reported? ==>
          ReportExact(o, core, f, e, c, result.report) && CutsReported(o, c, result.report.infrastructureError))
    && ScenarioComplete(o, f, e, c, result)
  }

  method ExecuteFaultScenario(host: Host, core: Core, sc: Scenario, evidence: Evidence)
    returns (result: Result, ghost c: Course)
    requires ValidLab(host.lab) && core.Valid()
    modifies host, core
    ensures c.before == old(host.Now()) && c.after == host.Now() && c.began == old(core.now) && c.ended == core.now
    ensures sc.fault.kind.MutatesConfig() ==>
      && result.Reported? && Blank(result.report) && host.Now() == old(host.Now()) && core.now == old(core.now)
      && c.mark == c.stop == |host.trace|
    ensures !sc.fault.kind.MutatesConfig() && result.Reported? ==> VerdictExact(sc, evidence, result.report)
    ensures !sc.fault.kind.MutatesConfig() ==> ScenarioGuarantee(host.oracle, core, sc.fault, evidence, c, result)
  {
    ghost var w0, t0 := host.Now(), core.now;
    if sc.fault.kind.MutatesConfig() {
      return Reported(BLOCKED_REPORT), Course(w0, w0, |w0.trace|, |w0.trace|, t0, t0, NO_WAIT);
    }
    var out, flags;
    ghost var mark;
    out, flags, mark := AttemptFault(host, sc.fault, evidence);
    ghost var w := host.Now();
    if out.Raised? {
      c := Course(w0, w, mark, |w.trace|, t0, t0, NO_WAIT);
      EscapedGuarantee(host.oracle, core, sc.fault, evidence, c, out, flags);
      return Escaped(out.exc), c;
    }
    var recoveryStatus;
    ghost var x, t := NO_WAIT, core.now;
    recoveryStatus, out, x := ValidateRecovery(host, core, flags);
    c := Course(w0, host.Now(), mark, |w.trace|, t0, core.now, x);
    if out.Raised? {
      result := Escaped(out.exc);
    } else {
      var report := Conclude(sc, evidence, flags, recoveryStatus);
      result := Reported(report);
    }
    RecoveredGuarantee(host.oracle, core, sc.fault, evidence, w, c, flags, out, result);
  }

  /** What validating the recovery adds from w to w', and from t to t' on the clock: how it ended, and with which
      status. */
  ghost predicate RecoveryStep(
    o: Oracle, core: Core, w: World, w': World, t: real, t': real, x: Wait, flags: Flags, status: ResultStatus,
    out: Outcome)
  {
    && NoUndoSince(w', w) && w'.lab == w.lab && OnlyRecovery(w'.trace, |w.trace|)
    && w'.sigint == w.sigint && w'.sigterm == w.sigterm
    && Caused(o, w'.trace, |w.trace|, out) && (out.Raised? ==> !WentOn(out))
    && (out == Normal ==>
          if flags.verified && flags.rollbackVerified then
            && |w'.trace| == |w.trace| + 2 && LiveReturned(o, w', |w.trace|, Recovery)
            && Called(core, x, t) && x.ended == t'
            && status == (if LivePassed(o, w', |w.trace|, Recovery, x) then Pass else Fail)
          else w' == w && t' == t && status == Skipped)
    && (Smooth(o, |w.trace|) && flags.verified && flags.rollbackVerified ==>
          out == Normal && (status == Pass <==> x.passed))
  }

  method ValidateRecovery(host: Host, core: Core, flags: Flags)
    returns (status: ResultStatus, out: Outcome, ghost x: Wait)
    requires core.Valid()
    modifies host, core
    ensures RecoveryStep(
      host.oracle, core, old(host.Now()), host.Now(), old(core.now), core.now, x, flags, status, out)
  {
    status, out, x := Skipped, Normal, NO_WAIT;
    NothingCaused(host.oracle, host.trace, Normal);
    if flags.verified && flags.rollbackVerified {
      status, out, x := ValidateCurrentBaseline(host, core, Recovery);
    }
  }

  /** An exception from the attempt leaves with all its guarantees. */
  lemma EscapedGuarantee(o: Oracle, core: Core, f: Fault, e: Evidence, c: Course, out: Outcome, flags: Flags)
    requires AttemptGuarantee(o, f, e, c.before, c.after, c.mark, out, flags) && out.Raised?
    requires c.stop == |c.after.trace|
    ensures ScenarioGuarantee(o, core, f, e, c, Escaped(out.exc))
  {
  }

  /** So does the attempt when the recovery has been validated, or that was not called for. */
  lemma RecoveredGuarantee(
    o: Oracle, core: Core, f: Fault, e: Evidence, w: World, c: Course, flags: Flags, out: Outcome, result: Result)
    requires AttemptGuarantee(o, f, e, c.before, w, c.mark, Normal, flags) && c.stop == |w.trace|
    requires (result.Reported? <==> out == Normal) && (out.Raised? ==> result == Escaped(out.exc))
    requires RecoveryStep(
      o, core, w, c.after, c.began, c.ended, c.wait, flags,
      if result.Reported? then result.report.recoveryStatus else Skipped, out)
    requires result.Reported? ==> FlagsOf(result.report) == flags
    ensures ScenarioGuarantee(o, core, f, e, c, result)
  {
    AfterRecovery(o, f, w, c, flags.rollbackVerified);
    if Smooth(o, |c.before.trace|) { SmoothLater(o, |c.before.trace|, |w.trace|); }
    Divided(o, w.trace, c.after.trace, |c.before.trace|);
    assert c.after.trace[..c.mark] == w.trace[..c.mark];
    if out == Normal { RecoveredReport(o, core, f, e, w, c, flags, result.report); }
  }

  lemma SmoothLater(o: Oracle, n: nat, m: nat)
    requires Smooth(o, n) && n <= m
    ensures Smooth(o, m)
  {
  }

  lemma RecoveredReport(o: Oracle, core: Core, f: Fault, e: Evidence, w: World, c: Course, flags: Flags, r: Report)
    requires FlagsExact(o, f, e, Guarded(c.before), flags) && c.stop == |w.trace| && FlagsOf(r) == flags
    requires (flags.rollbackVerified ==> Verified(f, w.lab, c.before.lab)) && flags.attempted == r.recoveryAttempted
    requires RecoveryStep(o, core, w, c.after, c.began, c.ended, c.wait, flags, r.recoveryStatus, Normal)
    ensures ReportExact(o, core, f, e, c, r)
  {
  }

  /** Validating the recovery changes nothing that was said about the attempt. */
  lemma AfterRecovery(o: Oracle, f: Fault, w: World, c: Course, rollbackVerified: bool)
    requires AttemptOrder(o, f, c.before, w, c.mark, rollbackVerified) && c.stop == |w.trace|
    requires NoUndoSince(c.after, w) && c.after.lab == w.lab && OnlyRecovery(c.after.trace, |w.trace|)
    requires c.after.sigint == w.sigint && c.after.sigterm == w.sigterm
    ensures ScenarioOrder(o, f, c)
  {
  }

  /** A scenario with an allowed target that a signal cut short is still reported, as an error and with its rollback
      made, unless a command could not be run or the signal came while the recovery was validated. */
  lemma InterruptionIsReported(o: Oracle, core: Core, sc: Scenario, e: Evidence, c: Course, result: Result)
    requires ScenarioGuarantee(o, core, sc.fault, e, c, result) && TargetAllowed(sc.fault)
    requires result.Reported? ==> VerdictExact(sc, e, result.report)
    ensures result.Reported? <==> !SomeCrashed(o, c.after.trace, |c.before.trace|) && !SomeCut(o, c.after.trace, c.stop)
    ensures result.Reported? && SomeCut(o, c.after.trace, |c.before.trace|) ==> result.report.status == Error
  {
    if result.Escaped? { EveryException(result.exc); }
    if result.Reported? && SomeCut(o, c.after.trace, |c.before.trace|) {
      var k :| |c.before.trace| <= k && CutAt(o, c.after.trace, k);
      MaskedUncut(o, c.after.trace, c.mark, c.stop);
      assert CutAt(o, c.after.trace[..c.mark], k);
    }
  }

  /** A recovery reported as verified means that the rollback is real, and that a core wait begun after the last undo
      command found the core calm at every poll and healthy at every poll of the last 30 seconds. */
  lemma RecoveryMeansReady(o: Oracle, core: Core, sc: Scenario, e: Evidence, c: Course, r: Report)
    requires ScenarioGuarantee(o, core, sc.fault, e, c, Reported(r)) && VerdictExact(sc, e, r) && r.recoveryVerified
    ensures Verified(sc.fault, c.after.lab, c.before.lab)
    ensures Called(core, c.wait, c.began) && c.wait.ended == c.ended && core.ReadyAtLast(c.wait)
    ensures forall k :: |c.before.trace| <= k < |c.after.trace| && c.after.trace[k].command.Undoes() ==> k < c.stop
  {
    core.PassedMeansReady(c.wait);
  }

  /** The verdict, from the flags the phases left behind. */
  method Conclude(sc: Scenario, evidence: Evidence, flags: Flags, recoveryStatus: ResultStatus) returns (r: Report)
    requires (!flags.infrastructureError ==> flags.verified) && (flags.verified ==> flags.applied)
    requires flags.rollbackVerified ==> flags.attempted
    requires flags.rollbackError <==> flags.attempted && !flags.rollbackVerified
    requires recoveryStatus in {Pass, Fail, Skipped}
    requires recoveryStatus == Pass ==> flags.verified && flags.rollbackVerified
    ensures VerdictExact(sc, evidence, r)
    ensures FlagsOf(r) == flags && r.recoveryStatus == recoveryStatus
  {
    var assertions := EvaluateScenarioEvents(sc.expected, sc.forbidden, evidence.events);
    var faultStatus := ScenarioStatus(assertions);
    var status :=
      if flags.infrastructureError then Error
      else if flags.rollbackError || !flags.rollbackVerified then Fail
      else faultStatus;
    if recoveryStatus != Pass {
      status := if status != Error then Fail else status;
    }
    r := Report(
      status, true, flags.applied, flags.verified, flags.infrastructureError, flags.rollbackError,
      flags.attempted, flags.rollbackVerified, recoveryStatus, recoveryStatus == Pass,
      !flags.infrastructureError && faultStatus == Pass, assertions);
  }
}
