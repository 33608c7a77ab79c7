/** The stored baseline result a fault scenario needs before anything is touched. */
module BaselineGate {
  import opened Basics

  datatype Json = Str(s: string) | Bool(b: bool) | Other
  datatype BaselineFile = NoPath | Missing | Malformed | NotObject | Object(fields: map<string, Json>)

  predicate HexDigit(c: char) {
    '0' <= c <= '9' || 'a' <= c <= 'f'
  }

  predicate IsFingerprint(s: string) {
    |s| == 64 && forall c :: c in s ==> HexDigit(c)
  }

  datatype Reason = NoResult | DoesNotExist | BadJson | BadFields | BadFingerprint | NotPassing | OtherContext

  /** The four fields are there, each of its type. */
  predicate WellTyped(d: map<string, Json>) {
    && "scenario_id" in d && d["scenario_id"].Str? && "status" in d && d["status"].Str?
    && "baseline_ready" in d && d["baseline_ready"].Bool?
    && "baseline_context_fingerprint" in d && d["baseline_context_fingerprint"].Str?
  }

  /** validate_baseline_result: the first failing check is the reason; None means passed. */
  function ValidateBaselineResult(file: BaselineFile, expected: string): (r: Option<Reason>)
    ensures r == None <==>
      && IsFingerprint(expected) && file.Object?
      && {"scenario_id", "status", "baseline_ready", "baseline_context_fingerprint"} <= file.fields.Keys
      && file.fields["scenario_id"] == Str("baseline_e2e") && file.fields["status"] == Str("PASS")
      && file.fields["baseline_ready"] == Bool(true) && file.fields["baseline_context_fingerprint"] == Str(expected)
    // the reasons exclude each other: each names what is wrong
    ensures (r == Some(NoResult) <==> file.NoPath?) && (r == Some(DoesNotExist) <==> file.Missing?)
    ensures r == Some(BadJson) <==> file.Malformed? || file.NotObject?
    ensures r == Some(BadFields) <==> file.Object? && !WellTyped(file.fields)
    ensures r == Some(BadFingerprint) <==>
      file.Object? && WellTyped(file.fields) && !IsFingerprint(file.fields["baseline_context_fingerprint"].s)
    ensures r == Some(OtherContext) ==> file.fields["baseline_context_fingerprint"] != Str(expected)
    ensures r == Some(NotPassing) ==>
      || file.fields["scenario_id"] != Str("baseline_e2e") || file.fields["status"] != Str("PASS")
      || file.fields["baseline_ready"] != Bool(true)
  {
    match file
    case NoPath => Some(NoResult)
    case Missing => Some(DoesNotExist)
    case Malformed => Some(BadJson)
    case NotObject => Some(BadJson)
    case Object(d) =>
      if !WellTyped(d) then Some(BadFields)
      else if !IsFingerprint(d["baseline_context_fingerprint"].s) then Some(BadFingerprint)
      else if d["scenario_id"].s != "baseline_e2e" || d["status"].s != "PASS" || d["baseline_ready"].b != true then
        Some(NotPassing)
      else if d["baseline_context_fingerprint"].s != expected then Some(OtherContext)
      else None
  }
}

/** Whole runs of the orchestrator: the gates before a fault, and the stages of a baseline. */
module RuntimeRuns {
  import opened Basics
  import opened Testbed
  import opened Hosts
  import opened FaultSpec
  import opened FaultInvariants
  import opened FaultRuns
  import opened FaultCauses
  import opened OwnCommands
  import opened CoreReadiness
  import opened LiveBaseline
  import opened Assertions
  import opened Orchestration
  import opened BaselineGate

  datatype Plan = Plan(scenario: Scenario, baseline: BaselineFile, fingerprint: string, evidence: Evidence)

  /** The stored baseline result lets the scenario run. */
  predicate Stored(p: Plan) {
    ValidateBaselineResult(p.baseline, p.fingerprint) == None
  }

  /** Every gate passed, in this order, before anything else happened; x is the core wait of the live baseline. */
  ghost predicate GatesPassed(o: Oracle, stored: bool, w: World, n: nat, x: Wait) {
    HostGatesPassed(o, stored, w, n) && LivePassed(o, w, n + 2, PreFault, x)
  }

  /** The world once the gate commands have been issued. */
  function AfterGates(o: Oracle, w: World): World {
    AfterLive(o, Send(o, Send(o, w, ResolveCompose).w, HostChecks).w, PreFault)
  }

  /** The gate commands, in order. */
  function Gate(k: nat): Command {
    match k
    case 0 => ResolveCompose
    case 1 => HostChecks
    case 2 => Baseline(PreFault)
    case _ => Recheck(PreFault)
  }

  /** From index n on the gates were asked in order, and nothing else. */
  ghost predicate GatesAsked(trace: seq<Call<Command>>, n: nat) {
    n <= |trace| <= n + 4 && forall k :: n <= k < |trace| ==> trace[k].command == Gate(k - n)
  }

  /** If the run came to the core wait, x is that wait, begun at time t. */
  ghost predicate Waited(core: Core, w: World, n: nat, x: Wait, t: real) {
    |w.trace| >= n + 4 ==> Called(core, x, t)
  }

  /** The gates before the live baseline. */
  ghost predicate HostGatesPassed(o: Oracle, stored: bool, w: World, n: nat) {
    Passed(o, w, n, ResolveCompose) && Passed(o, w, n + 1, HostChecks) && stored
  }

  ghost predicate HostGatesReturned(o: Oracle, w: World, n: nat) {
    Returned(o, w, n, ResolveCompose) && Returned(o, w, n + 1, HostChecks)
  }

  /** A gate said no: one of those before the live baseline, and then that was not asked, or the live baseline. */
  ghost predicate Refused(o: Oracle, stored: bool, w: World, n: nat, x: Wait) {
    || (|w.trace| == n + 2 && HostGatesReturned(o, w, n) && !HostGatesPassed(o, stored, w, n))
    || (&& |w.trace| == n + 4 && HostGatesPassed(o, stored, w, n)
        && LiveReturned(o, w, n + 2, PreFault) && !LivePassed(o, w, n + 2, PreFault, x))
  }

  method PassHostGates(host: Host, stored: bool) returns (ok: bool, out: Outcome)
    modifies host
    ensures host.sigint == old(host.sigint) && host.sigterm == old(host.sigterm) && host.lab == old(host.lab)
    ensures old(host.trace) <= host.trace && |host.trace| <= |old(host.trace)| + 2
    ensures GatesAsked(host.trace, |old(host.trace)|)
    ensures out == Normal ==> |host.trace| == |old(host.trace)| + 2
    ensures out == Normal ==> HostGatesReturned(host.oracle, host.Now(), |old(host.trace)|)
    ensures out == Normal ==>
      host.Now() == Send(host.oracle, Send(host.oracle, old(host.Now()), ResolveCompose).w, HostChecks).w
    ensures ok ==> out == Normal
    ensures out == Normal ==> (ok <==> HostGatesPassed(host.oracle, stored, host.Now(), |old(host.trace)|))
    ensures Caused(host.oracle, host.trace, |old(host.trace)|, out) && (out.Raised? ==> !WentOn(out))
    ensures Smooth(host.oracle, |old(host.trace)|) && stored ==> ok
  {
    ok := false;
    ghost var o, n := host.oracle, |host.trace|;
    if Smooth(o, n) { SmoothLater(o, n, n + 1); }
    var compose, checks;
    compose, out := RunOwn(host, ResolveCompose);
    if out.Raised? { return; }
    ghost var w1 := host.Now();
    checks, out := RunOwn(host, HostChecks);
    ThenCaused(o, w1.trace, host.trace, n, Normal, out);
    if out.Raised? { return; }
    StillAnswered(o, w1, host.Now(), n, ResolveCompose);
    ok := checks == 0 && compose == 0 && stored;
  }

  lemma StillHostGated(o: Oracle, stored: bool, w: World, w': World, n: nat)
    requires HostGatesReturned(o, w, n) && w.trace <= w'.trace
    ensures HostGatesReturned(o, w', n) && (HostGatesPassed(o, stored, w, n) <==> HostGatesPassed(o, stored, w', n))
  {
  }

  /** The gates of run_runtime_scenario, in order. Unless a command is cut short or cannot be run, either all of them
      have passed, or one has refused. */
  method PassGates(host: Host, core: Core, stored: bool) returns (ok: bool, out: Outcome, ghost x: Wait)
    requires core.Valid()
    modifies host, core
    ensures host.sigint == old(host.sigint) && host.sigterm == old(host.sigterm) && host.lab == old(host.lab)
    ensures old(host.trace) <= host.trace && GatesAsked(host.trace, |old(host.trace)|)
    ensures Waited(core, host.Now(), |old(host.trace)|, x, old(core.now))
    ensures ok ==> out == Normal && |host.trace| == |old(host.trace)| + 4
    ensures ok ==> host.Now() == AfterGates(host.oracle, old(host.Now())) && x.ended == core.now
    ensures out == Normal ==> (ok <==> GatesPassed(host.oracle, stored, host.Now(), |old(host.trace)|, x))
    ensures out == Normal && !ok ==> Refused(host.oracle, stored, host.Now(), |old(host.trace)|, x)
    ensures Caused(host.oracle, host.trace, |old(host.trace)|, out) && (out.Raised? ==> !WentOn(out))
    ensures Smooth(host.oracle, |old(host.trace)|) && stored ==>
      out == Normal && |host.trace| == |old(host.trace)| + 4 && (ok <==> x.passed)
  {
    x := NO_WAIT;
    ghost var n := |host.trace|;
    if Smooth(host.oracle, n) { SmoothLater(host.oracle, n, n + 2); }
    ok, out := PassHostGates(host, stored);
    if ok { ok, out, x := PassLiveGate(host, core, stored, n); }
  }

  /** The live baseline, once the gates before it have passed. */
  method PassLiveGate(host: Host, core: Core, ghost stored: bool, ghost n: nat)
    returns (ok: bool, out: Outcome, ghost x: Wait)
    requires core.Valid() && |host.trace| == n + 2 && GatesAsked(host.trace, n)
    requires HostGatesReturned(host.oracle, host.Now(), n) && HostGatesPassed(host.oracle, stored, host.Now(), n)
    requires Caused(host.oracle, host.trace, n, Normal)
    modifies host, core
    ensures host.sigint == old(host.sigint) && host.sigterm == old(host.sigterm) && host.lab == old(host.lab)
    ensures old(host.trace) <= host.trace && GatesAsked(host.trace, n)
    ensures Waited(core, host.Now(), n, x, old(core.now))
    ensures ok ==> out == Normal && |host.trace| == n + 4
    ensures ok ==> host.Now() == AfterLive(host.oracle, old(host.Now()), PreFault) && x.ended == core.now
    ensures out == Normal ==> (ok <==> GatesPassed(host.oracle, stored, host.Now(), n, x))
    ensures out == Normal && !ok ==> Refused(host.oracle, stored, host.Now(), n, x)
    ensures Caused(host.oracle, host.trace, n, out) && (out.Raised? ==> !WentOn(out))
    ensures Smooth(host.oracle, n + 2) ==> out == Normal && |host.trace| == n + 4 && (ok <==> x.passed)
  {
    ghost var w := host.Now();
    var live;
    live, out, x := ValidateCurrentBaseline(host, core, PreFault);
    StillHostGated(host.oracle, stored, w, host.Now(), n);
    ThenCaused(host.oracle, w.trace, host.trace, n, Normal, out);
    LiveAsked(w.trace, host.trace, n);
    ok := out == Normal && live == Pass;
  }

  lemma LiveAsked(a: seq<Call<Command>>, b: seq<Call<Command>>, n: nat)
    requires GatesAsked(a, n) && |a| == n + 2 && a <= b && n + 3 <= |b| <= n + 4
    requires b[n + 2].command == Baseline(PreFault) && (|b| == n + 4 ==> b[n + 3].command == Recheck(PreFault))
    ensures GatesAsked(b, n)
  {
    assert forall k :: n <= k < n + 2 ==> b[k] == a[k];
  }

  // ---- a whole run of a fault scenario ----

  ghost predicate CutAtGates(o: Oracle, w0: World, w1: World, result: Result) {
    && result.Escaped? && !WentOn(Raised(result.exc)) && Caused(o, w1.trace, |w0.trace|, Raised(result.exc))
    && GatesAsked(w1.trace, |w0.trace|) && w1.lab == w0.lab
  }

  ghost predicate RefusedAtGates(o: Oracle, stored: bool, w0: World, w1: World, gate: Wait, result: Result) {
    && result.Reported? && Blank(result.report) && Refused(o, stored, w1, |w0.trace|, gate)
    && GatesAsked(w1.trace, |w0.trace|) && w1.lab == w0.lab
  }

  ghost predicate Admitted(o: Oracle, stored: bool, w0: World, gate: Wait, c: Course) {
    && c.before == AfterGates(o, w0) && |c.before.trace| == |w0.trace| + 4 && w0.trace <= c.before.trace
    && c.before.trace <= c.after.trace && GatesAsked(c.before.trace, |w0.trace|) && c.before.lab == w0.lab
    && GatesPassed(o, stored, c.before, |w0.trace|, gate) && c.began == gate.ended
  }

  ghost predicate Executed(o: Oracle, core: Core, p: Plan, c: Course, result: Result) {
    if p.scenario.fault.kind.MutatesConfig() then
      && result.Reported? && Blank(result.report) && c.after == c.before
      && c.mark == c.stop == |c.after.trace|
    else
      && ScenarioGuarantee(o, core, p.scenario.fault, p.evidence, c, result)
      && (result.Reported? ==> VerdictExact(p.scenario, p.evidence, result.report))
  }

  /** How a run went, from w0 to w1: it was cut short at the gates, or refused by one, or the scenario was executed.
      gate is the core wait of the gates, and c the course of the scenario. */
  ghost predicate RunCourse(
    o: Oracle, core: Core, p: Plan, stored: bool, w0: World, w1: World, gate: Wait, c: Course, result: Result)
  {
    || (&& c.before == w1 && c.stop == |w1.trace|
        && (CutAtGates(o, w0, w1, result) || RefusedAtGates(o, stored, w0, w1, gate, result)))
    || (Admitted(o, stored, w0, gate, c) && c.after == w1 && Executed(o, core, p, c, result))
  }

  /** No mutating command is issued unless every gate has passed, and all of them come after the gates; undo commands
      are issued from index mark on, and run with both signals ignored. */
  ghost predicate RunOrder(o: Oracle, stored: bool, w0: World, w1: World, gate: Wait, mark: nat) {
    && (forall k :: |w0.trace| <= k < |w1.trace| && w1.trace[k].command.Mutates() ==>
          GatesPassed(o, stored, w1, |w0.trace|, gate) && k > |w0.trace| + 3)
    && (forall k :: |w0.trace| <= k < |w1.trace| && w1.trace[k].command.Undoes() ==>
          k >= mark && w1.trace[k].sigint == Ignored && w1.trace[k].sigterm == Ignored)
  }

  /** What the report of a run is worth. */
  ghost predicate Told(o: Oracle, p: Plan, stored: bool, w0: World, w1: World, gate: Wait, r: Report) {
    // a blocked run changes nothing and claims nothing, and a run is blocked exactly when a gate refused or the fault
    // is not automated
    && (r.status == Blocked ==> w1.lab == w0.lab && Blank(r))
    && (r.status == Blocked <==> Refused(o, stored, w1, |w0.trace|, gate) || p.scenario.fault.kind.MutatesConfig())
    && (!Refused(o, stored, w1, |w0.trace|, gate) ==> GatesPassed(o, stored, w1, |w0.trace|, gate))
    // otherwise its verdict and its flags are exact
    && (r.status != Blocked ==>
          && VerdictExact(p.scenario, p.evidence, r)
          && FlagsExact(o, p.scenario.fault, p.evidence, Guarded(AfterGates(o, w0)), FlagsOf(r)))
    && (r.rollbackVerified ==> Verified(p.scenario.fault, w1.lab, w0.lab))
  }

  /** A verified recovery, and so a PASS, ends with live checks that passed, the core wait begun after the gates' among
      them. */
  ghost predicate RecoveredTold(o: Oracle, core: Core, w1: World, gate: Wait, recovery: Wait, r: Report) {
    r.recoveryVerified ==>
      && |w1.trace| >= 2 && LivePassed(o, w1, |w1.trace| - 2, Recovery, recovery)
      && Called(core, recovery, gate.ended)
  }

  /** When nothing goes wrong in the lab, every gate is asked, and the core waits and the events decide. */
  ghost predicate RunComplete(
    o: Oracle, p: Plan, stored: bool, w0: World, w1: World, gate: Wait, recovery: Wait, result: Result)
  {
    Smooth(o, |w0.trace|) && Unhindered(o, p.scenario.fault, AfterGates(o, w0), p.evidence) && stored ==>
      && result.Reported? && |w1.trace| >= |w0.trace| + 4 && (result.report.status == Blocked <==> !gate.passed)
      && (result.report.status == Pass <==>
            && gate.passed && recovery.passed
            && AsExpected(p.scenario.expected, p.scenario.forbidden, p.evidence.events))
  }

  /** Which exception leaves a run, and when: a ValueError exactly when the gates have passed and the target is not
      allowed, a crash exactly when a command could not be run, an interruption exactly when a signal cut short a
      command of the gates or of the recovery. */
  ghost predicate RunEscapes(
    o: Oracle, f: Fault, stored: bool, w0: World, w1: World, gate: Wait, c: Course, result: Result)
  {
    && (result == Escaped(BadValue) <==> GatesPassed(o, stored, w1, |w0.trace|, gate) && !TargetAllowed(f))
    && (result == Escaped(Crashed) <==> SomeCrashed(o, w1.trace, |w0.trace|))
    && (result == Escaped(Interrupted) <==>
          SomeCut(o, c.before.trace, |w0.trace|) || SomeCut(o, w1.trace, c.stop))
    && result != Escaped(RuntimeFailure)
  }

  /** What a whole run of a fault scenario guarantees, from w0 to w1. */
  ghost predicate RunGuarantee(
    o: Oracle, core: Core, p: Plan, stored: bool, w0: World, w1: World, t0: real, gate: Wait, c: Course, result: Result)
  {
    && w1.sigint == w0.sigint && w1.sigterm == w0.sigterm && w0.trace <= w1.trace
    && RunCourse(o, core, p, stored, w0, w1, gate, c, result)
    && RunOrder(o, stored, w0, w1, gate, c.mark) && Waited(core, w1, |w0.trace|, gate, t0)
    // whatever happened before, an honest rollback restores the lab on every exit path, exceptions included
    && (FaithfulFrom(o, c.mark) ==> Restored(p.scenario.fault, w1.lab, w0.lab))
    && RunEscapes(o, p.scenario.fault, stored, w0, w1, gate, c, result)
    && (result.Reported? ==>
          Told(o, p, stored, w0, w1, gate, result.report) && RecoveredTold(o, core, w1, gate, c.wait, result.report))
    && RunComplete(o, p, stored, w0, w1, gate, c.wait, result)
  }

  /** Only gates were asked: nothing has touched the lab. */
  lemma OnlyGates(o: Oracle, f: Fault, stored: bool, w0: World, w1: World, gate: Wait, mark: nat)
    requires GatesAsked(w1.trace, |w0.trace|) && w1.lab == w0.lab
    ensures RunOrder(o, stored, w0, w1, gate, mark) && Restored(f, w1.lab, w0.lab)
  {
  }

  lemma RefusedRun(o: Oracle, p: Plan, stored: bool, w0: World, w1: World, gate: Wait, r: Report)
    requires Refused(o, stored, w1, |w0.trace|, gate) && w1.lab == w0.lab && Blank(r)
    ensures Told(o, p, stored, w0, w1, gate, r)
  {
  }

  /** Commands of passed gates were neither cut short nor crashed, and then no gate was disturbed. */
  lemma GatesUndisturbed(o: Oracle, stored: bool, w: World, n: nat, x: Wait)
    requires GatesPassed(o, stored, w, n, x) && |w.trace| == n + 4
    ensures !SomeCut(o, w.trace, n) && !SomeCrashed(o, w.trace, n)
  {
  }

  /** What stopped at the gates escaped for a cause there. */
  lemma GatesEscape(
    o: Oracle, f: Fault, stored: bool, w0: World, w1: World, gate: Wait, c: Course, out: Outcome, result: Result)
    requires Caused(o, w1.trace, |w0.trace|, out) && (out.Raised? ==> !WentOn(out) && result == Escaped(out.exc))
    requires out == Normal ==> result.Reported? && Refused(o, stored, w1, |w0.trace|, gate)
    requires c.before == w1 && c.stop == |w1.trace| && |w1.trace| <= |w0.trace| + 4
    ensures RunEscapes(o, f, stored, w0, w1, gate, c, result)
  {
    if GatesPassed(o, stored, w1, |w0.trace|, gate) {
      GatesLong(o, stored, w1, |w0.trace|, gate);
      GatesUndisturbed(o, stored, w1, |w0.trace|, gate);
    }
  }

  lemma RanOrderly(o: Oracle, f: Fault, stored: bool, w0: World, gate: Wait, c: Course)
    requires Admitted(o, stored, w0, gate, c)
    requires if f.kind.MutatesConfig() then c.after == c.before && c.mark == |c.after.trace| else ScenarioOrder(o, f, c)
    ensures RunOrder(o, stored, w0, c.after, gate, c.mark)
    ensures FaithfulFrom(o, c.mark) ==> Restored(f, c.after.lab, w0.lab)
  {
    StillGated(o, stored, c.before, c.after, |w0.trace|, gate);
    GatesFirst(w0, c.before, c.after);
    if !f.kind.MutatesConfig() { MaskedUndos(o, f, w0, c); }
  }

  lemma MaskedUndos(o: Oracle, f: Fault, w0: World, c: Course)
    requires ScenarioOrder(o, f, c) && w0.trace <= c.before.trace
    requires forall k :: |w0.trace| <= k < |c.after.trace| && c.after.trace[k].command.Undoes() ==>
      k >= |c.before.trace|
    ensures forall k :: |w0.trace| <= k < |c.after.trace| && c.after.trace[k].command.Undoes() ==>
      k >= c.mark && c.after.trace[k].sigint == Ignored && c.after.trace[k].sigterm == Ignored
  {
  }

  lemma RanEscapes(o: Oracle, f: Fault, stored: bool, w0: World, gate: Wait, c: Course, result: Result)
    requires Admitted(o, stored, w0, gate, c)
    requires
      if f.kind.MutatesConfig() then result.Reported? && c.after == c.before && c.stop == |c.after.trace|
      else EscapesExactly(o, f, c, result)
    ensures RunEscapes(o, f, stored, w0, c.after, gate, c, result)
  {
    StillGated(o, stored, c.before, c.after, |w0.trace|, gate);
    GatesUndisturbed(o, stored, c.before, |w0.trace|, gate);
    Divided(o, c.before.trace, c.after.trace, |w0.trace|);
  }

  lemma GatesFirst(w0: World, w: World, w1: World)
    requires GatesAsked(w.trace, |w0.trace|) && w.trace <= w1.trace
    ensures forall k :: |w0.trace| <= k < |w1.trace| && w1.trace[k].command.Mutates() ==> k >= |w.trace|
    ensures forall k :: |w0.trace| <= k < |w1.trace| && w1.trace[k].command.Undoes() ==> k >= |w.trace|
  {
    assert forall k :: 0 <= k < |w.trace| ==> w1.trace[k] == w.trace[k];
  }

  lemma StillGated(o: Oracle, stored: bool, w: World, w1: World, n: nat, x: Wait)
    requires GatesPassed(o, stored, w, n, x) && w.trace <= w1.trace
    ensures GatesPassed(o, stored, w1, n, x) && !Refused(o, stored, w1, n, x)
  {
  }

  lemma RanTold(o: Oracle, core: Core, p: Plan, stored: bool, w0: World, gate: Wait, c: Course, r: Report)
    requires Admitted(o, stored, w0, gate, c) && Executed(o, core, p, c, Reported(r))
    ensures Told(o, p, stored, w0, c.after, gate, r) && RecoveredTold(o, core, c.after, gate, c.wait, r)
  {
    StillGated(o, stored, c.before, c.after, |w0.trace|, gate);
    if !p.scenario.fault.kind.MutatesConfig() {
      ReportTold(o, p, stored, w0, c.after, gate, r);
      RecoveryTold(o, core, c, gate, r);
    }
  }

  lemma ReportTold(o: Oracle, p: Plan, stored: bool, w0: World, w1: World, gate: Wait, r: Report)
    requires GatesPassed(o, stored, w1, |w0.trace|, gate) && !Refused(o, stored, w1, |w0.trace|, gate)
    requires VerdictExact(p.scenario, p.evidence, r) && !p.scenario.fault.kind.MutatesConfig()
    requires FlagsExact(o, p.scenario.fault, p.evidence, Guarded(AfterGates(o, w0)), FlagsOf(r))
    requires r.rollbackVerified ==> Verified(p.scenario.fault, w1.lab, w0.lab)
    ensures Told(o, p, stored, w0, w1, gate, r)
  {
  }

  lemma RecoveryTold(o: Oracle, core: Core, c: Course, gate: Wait, r: Report)
    requires RecoveryExact(o, core, c, r) && c.began == gate.ended
    requires r.recoveryVerified ==> r.recoveryStatus == Pass && r.faultVerified && r.rollbackVerified
    ensures RecoveredTold(o, core, c.after, gate, c.wait, r)
  {
  }

  lemma RanCompletely(o: Oracle, core: Core, p: Plan, stored: bool, w0: World, gate: Wait, c: Course, result: Result)
    requires Admitted(o, stored, w0, gate, c) && Executed(o, core, p, c, result)
    ensures RunComplete(o, p, stored, w0, c.after, gate, c.wait, result)
  {
  }

  /** A run whose recovery is verified left a core that was calm at every poll of the wait before the fault and of the
      wait after the rollback, and healthy at every poll of the last 30 seconds of both. */
  lemma RunMeansReady(
    o: Oracle, core: Core, p: Plan, stored: bool, w0: World, w1: World, t0: real, gate: Wait, c: Course, r: Report)
    requires RunGuarantee(o, core, p, stored, w0, w1, t0, gate, c, Reported(r))
    requires r.status != Blocked && r.recoveryVerified
    ensures Called(core, gate, t0) && core.ReadyAtLast(gate)
    ensures Called(core, c.wait, gate.ended) && core.ReadyAtLast(c.wait)
    ensures Verified(p.scenario.fault, w1.lab, w0.lab)
  {
    GatesLong(o, stored, w1, |w0.trace|, gate);
    core.PassedMeansReady(gate);
    core.PassedMeansReady(c.wait);
  }

  lemma GatesLong(o: Oracle, stored: bool, w: World, n: nat, x: Wait)
    requires GatesPassed(o, stored, w, n, x)
    ensures |w.trace| >= n + 4 && x.passed
  {
  }

  /** run_runtime_scenario for a fault scenario. */
  method RunFaultScenario(host: Host, core: Core, p: Plan) returns (result: Result, ghost gate: Wait, ghost c: Course)
    requires ValidLab(host.lab) && core.Valid() && p.scenario.id != "baseline_e2e"
    modifies host, core
    ensures RunGuarantee(
      host.oracle, core, p, Stored(p), old(host.Now()), host.Now(), old(core.now), gate, c, result)
  {
    result, gate, c := RunGated(host, core, p, Stored(p));
  }

  method RunGated(host: Host, core: Core, p: Plan, stored: bool)
    returns (result: Result, ghost gate: Wait, ghost c: Course)
    requires ValidLab(host.lab) && core.Valid()
    modifies host, core
    ensures RunGuarantee(
      host.oracle, core, p, stored, old(host.Now()), host.Now(), old(core.now), gate, c, result)
  {
    ghost var o, w0 := host.oracle, host.Now();
    var ok, out;
    ok, out, gate := PassGates(host, core, stored);
    ghost var w := host.Now();
    c := Course(w, w, |w.trace|, |w.trace|, core.now, core.now, NO_WAIT);
    if !ok {
      OnlyGates(o, p.scenario.fault, stored, w0, w, gate, |w.trace|);
      result := if out.Raised? then Escaped(out.exc) else Reported(BLOCKED_REPORT);
      GatesEscape(o, p.scenario.fault, stored, w0, w, gate, c, out, result);
      if out == Normal { RefusedRun(o, p, stored, w0, w, gate, BLOCKED_REPORT); }
      return;
    }
    result, c := ExecuteFaultScenario(host, core, p.scenario, p.evidence);
    RanOrderly(o, p.scenario.fault, stored, w0, gate, c);
    RanEscapes(o, p.scenario.fault, stored, w0, gate, c, result);
    if result.Reported? { RanTold(o, core, p, stored, w0, gate, c, result.report); }
    RanCompletely(o, core, p, stored, w0, gate, c, result);
  }

  // ---- the baseline ----

  /** The k-th command of a complete baseline run: five stages, then NG setup, UE, live checks, log collection. */
  function Planned(k: nat): Command {
    match k
    case 0 => CollectLogs
    case 1 => StopRan
    case 2 => StartLab
    case 3 => AddSubscriber
    case 4 => UpGnb
    case 5 => WaitNg
    case 6 => UpUe
    case 7 => Baseline(Current)
    case 8 => Recheck(Current)
    case _ => CollectLogs
  }

  const LENGTH := 10

  /** Exactly the first m commands of a complete run were issued from index n on. */
  ghost predicate Begun(w: World, n: nat, m: nat) {
    m < LENGTH && |w.trace| == n + m && forall k :: 0 <= k < m ==> w.trace[n + k].command == Planned(k)
  }

  /** The first m commands of a complete run were issued from index n on and all passed. */
  ghost predicate PassedThrough(o: Oracle, w: World, n: nat, m: nat) {
    m <= LENGTH && forall k :: 0 <= k < m ==> Passed(o, w, n + k, Planned(k))
  }

  /** How many of the m commands issued have passed for sure: all but the last, but the checks after the core wait are
      asked whether or not those before it passed. */
  function Sure(m: nat): nat
    requires m > 0
  {
    if m == 9 then 7 else m - 1
  }

  /** A command that makes the run an infrastructure error failed: any stage, or the UE start. */
  ghost predicate StageFailed(o: Oracle, w: World, n: nat, m: nat) {
    exists k :: 0 <= k < m && k < 7 && k != 5 && !Passed(o, w, n + k, Planned(k))
  }

  datatype BaselineResult = Ran(status: ResultStatus, ready: bool) | Stopped(exc: Exc)

  lemma StillPassed(o: Oracle, w: World, w': World, n: nat, m: nat)
    requires PassedThrough(o, w, n, m) && w.trace <= w'.trace
    ensures PassedThrough(o, w', n, m)
  {
    assert forall k :: 0 <= k < m ==> Passed(o, w, n + k, Planned(k));
  }

  /** The next command of a complete run, asked once all before it passed. */
  method AskNext(host: Host, i: nat, ghost n: nat) returns (code: nat, out: Outcome)
    requires i < 8 && Begun(host.Now(), n, i) && PassedThrough(host.oracle, host.Now(), n, i)
    modifies host
    ensures host.sigint == old(host.sigint) && host.sigterm == old(host.sigterm)
    ensures old(host.trace) <= host.trace && Begun(host.Now(), n, i + 1)
    ensures PassedThrough(host.oracle, host.Now(), n, i)
    ensures out == Normal ==> (code == 0 <==> Passed(host.oracle, host.Now(), n + i, Planned(i)))
    ensures out == Normal ==> (code == 0 <==> PassedThrough(host.oracle, host.Now(), n, i + 1))
    ensures Caused(host.oracle, host.trace, |old(host.trace)|, out) && (out.Raised? ==> !WentOn(out))
  {
    ghost var before := host.Now();
    code, out := RunOwn(host, Planned(i));
    StillPassed(host.oracle, before, host.Now(), n, i);
  }

  /** The five stages before the NG setup wait, stopping at the first that fails. */
  method RunStages(host: Host) returns (failed: bool, out: Outcome, ghost m: nat)
    modifies host
    ensures host.sigint == old(host.sigint) && host.sigterm == old(host.sigterm)
    ensures old(host.trace) <= host.trace && 0 < m <= 5 && Begun(host.Now(), |old(host.trace)|, m)
    ensures PassedThrough(host.oracle, host.Now(), |old(host.trace)|, m - 1)
    ensures out == Normal && failed ==> !Passed(host.oracle, host.Now(), |old(host.trace)| + m - 1, Planned(m - 1))
    ensures out == Normal && !failed ==> m == 5 && PassedThrough(host.oracle, host.Now(), |old(host.trace)|, 5)
    ensures Caused(host.oracle, host.trace, |old(host.trace)|, out) && (out.Raised? ==> !WentOn(out))
  {
    failed, out := false, Normal;
    ghost var n := |host.trace|;
    m := 0;
    NothingCaused(host.oracle, host.trace, Normal);
    for i := 0 to 5
      invariant host.sigint == old(host.sigint) && host.sigterm == old(host.sigterm)
      invariant old(host.trace) <= host.trace && m == i && out == Normal
      invariant Begun(host.Now(), n, i) && PassedThrough(host.oracle, host.Now(), n, i)
      invariant Caused(host.oracle, host.trace, n, Normal)
    {
      var code;
      ghost var before := host.trace;
      code, out := AskNext(host, i, n);
      m := i + 1;
      ThenCaused(host.oracle, before, host.trace, n, Normal, out);
      if out.Raised? { return; }
      if code != 0 { failed := true; return; }
    }
  }

  /** A baseline run that went through the first m commands of a complete run, the last of them perhaps
      failing, and then collected logs; nothing else was issued. */
  ghost predicate Shape(o: Oracle, w: World, n: nat, m: nat) {
    && 0 < m < LENGTH && |w.trace| == n + m + 1 && PassedThrough(o, w, n, Sure(m))
    && (forall k :: 0 <= k < m ==> w.trace[n + k].command == Planned(k))
    && w.trace[n + m].command == CollectLogs
  }

  ghost predicate PassOrFail(assertions: seq<Assertion>) {
    forall i :: 0 <= i < |assertions| ==> assertions[i].status == Pass || assertions[i].status == Fail
  }

  ghost predicate AllPass(assertions: seq<Assertion>) {
    forall i :: 0 <= i < |assertions| ==> assertions[i].status == Pass
  }

  /** NG setup, UE start and the live baseline, each only after the one before it passed. */
  method StartRan(host: Host, core: Core, ghost n: nat)
    returns (failed: bool, assertions: seq<Assertion>, out: Outcome, ghost m: nat, ghost x: Wait)
    requires Begun(host.Now(), n, 5) && PassedThrough(host.oracle, host.Now(), n, 5) && core.Valid()
    modifies host, core
    ensures host.sigint == old(host.sigint) && host.sigterm == old(host.sigterm)
    ensures old(host.trace) <= host.trace && 5 < m <= 9 && Begun(host.Now(), n, m)
    ensures PassedThrough(host.oracle, host.Now(), n, Sure(m))
    ensures m == 9 ==> Called(core, x, old(core.now)) && x.ended == core.now
    ensures out == Normal ==> m != 8 && (failed <==> m == 7)
    ensures out == Normal && m < 9 ==> !Passed(host.oracle, host.Now(), n + m - 1, Planned(m - 1))
    ensures Caused(host.oracle, host.trace, |old(host.trace)|, out) && (out.Raised? ==> !WentOn(out))
    ensures PassOrFail(assertions)
    ensures out == Normal && !failed ==>
      (AllPass(assertions) <==> m == 9 && LivePassed(host.oracle, host.Now(), n + 7, Current, x))
  {
    failed, assertions, x := false, [], NO_WAIT;
    var ng;
    ng, out := AskNext(host, 5, n);
    m := 6;
    if out.Raised? { return; }
    if ng != 0 {
      assertions := Collect(false, None);
      return;
    }
    var live;
    ghost var w := host.trace;
    failed, live, out, m, x := StartUe(host, core, n);
    ThenCaused(host.oracle, w, host.trace, |old(host.trace)|, Normal, out);
    assertions := Collect(true, if out == Normal && !failed then Some(live == Pass) else None);
  }

  /** The assertions so far: on NG setup, and on the live checks if they were made. */
  method Collect(ng: bool, live: Option<bool>) returns (assertions: seq<Assertion>)
    ensures PassOrFail(assertions) && (AllPass(assertions) <==> ng && live != Some(false))
  {
    assertions := [Assertion(State("baseline:initial_ng_setup"), if ng then Pass else Fail)];
    assert assertions[0].status == if ng then Pass else Fail;
    if live.Some? {
      assertions := assertions + [Assertion(State("baseline"), if live.value then Pass else Fail)];
      assert assertions[0].status == if ng then Pass else Fail;
      assert assertions[1].status == if live.value then Pass else Fail;
    }
  }

  /** The UE start, and the live checks once it has succeeded. */
  method StartUe(host: Host, core: Core, ghost n: nat)
    returns (failed: bool, live: ResultStatus, out: Outcome, ghost m: nat, ghost x: Wait)
    requires Begun(host.Now(), n, 6) && PassedThrough(host.oracle, host.Now(), n, 6) && core.Valid()
    modifies host, core
    ensures host.sigint == old(host.sigint) && host.sigterm == old(host.sigterm)
    ensures old(host.trace) <= host.trace && 6 < m <= 9 && Begun(host.Now(), n, m)
    ensures PassedThrough(host.oracle, host.Now(), n, Sure(m))
    ensures m == 9 ==> Called(core, x, old(core.now)) && x.ended == core.now
    ensures out == Normal ==> m != 8 && (failed <==> m == 7)
    ensures out == Normal && failed ==> !Passed(host.oracle, host.Now(), n + m - 1, Planned(m - 1))
    ensures Caused(host.oracle, host.trace, |old(host.trace)|, out) && (out.Raised? ==> !WentOn(out))
    ensures out == Normal && !failed ==>
      && (live == Pass || live == Fail)
      && (live == Pass <==> LivePassed(host.oracle, host.Now(), n + 7, Current, x))
  {
    failed, live, x := false, Fail, NO_WAIT;
    var ue;
    ue, out := AskNext(host, 6, n);
    m := 7;
    if out.Raised? { return; }
    failed := ue != 0;
    if failed { return; }
    ghost var w := host.trace;
    live, out, m, x := CheckLive(host, core, n);
    ThenCaused(host.oracle, w, host.trace, |old(host.trace)|, Normal, out);
  }

  method CheckLive(host: Host, core: Core, ghost n: nat)
    returns (live: ResultStatus, out: Outcome, ghost m: nat, ghost x: Wait)
    requires Begun(host.Now(), n, 7) && PassedThrough(host.oracle, host.Now(), n, 7) && core.Valid()
    modifies host, core
    ensures host.sigint == old(host.sigint) && host.sigterm == old(host.sigterm)
    ensures old(host.trace) <= host.trace && 8 <= m <= 9 && Begun(host.Now(), n, m)
    ensures PassedThrough(host.oracle, host.Now(), n, 7)
    ensures m == 9 ==> Called(core, x, old(core.now)) && x.ended == core.now
    ensures out == Normal ==>
      && m == 9 && (live == Pass || live == Fail)
      && (live == Pass <==> LivePassed(host.oracle, host.Now(), n + 7, Current, x))
    ensures Caused(host.oracle, host.trace, |old(host.trace)|, out) && (out.Raised? ==> !WentOn(out))
  {
    ghost var w := host.Now();
    live, out, x := ValidateCurrentBaseline(host, core, Current);
    m := |host.trace| - n;
    LiveBegun(host.oracle, w, host.Now(), n, m);
  }

  lemma LiveBegun(o: Oracle, w: World, w': World, n: nat, m: nat)
    requires Begun(w, n, 7) && PassedThrough(o, w, n, 7) && w.trace <= w'.trace && |w'.trace| == n + m && 8 <= m <= 9
    requires w'.trace[n + 7].command == Baseline(Current) && (m == 9 ==> w'.trace[n + 8].command == Recheck(Current))
    ensures Begun(w', n, m) && PassedThrough(o, w', n, Sure(m))
  {
    StillPassed(o, w, w', n, 7);
  }

  /** What a finished baseline run guarantees, having begun at index n and at time t; x is its core wait. */
  ghost predicate BaselineGuarantee(
    o: Oracle, core: Core, w: World, n: nat, m: nat, t: real, x: Wait, status: ResultStatus, asExpected: bool)
  {
    && Shape(o, w, n, m)
    // a run is cut off only after a command that failed, and else its live checks include a core wait
    && m != 8 && (m < 9 ==> !Passed(o, w, n + m - 1, Planned(m - 1))) && (m == 9 ==> Called(core, x, t))
    && (status == Error <==> StageFailed(o, w, n, m) || !Passed(o, w, n + m, CollectLogs))
    // a PASS is exactly a complete run in which everything passed, the core was ready and the events are as expected
    && (status == Pass <==> PassedThrough(o, w, n, LENGTH) && x.passed && asExpected)
    // a FAIL is exactly one that finished without an error and in which one of these is missing
    && (status == Fail <==>
          && !StageFailed(o, w, n, m) && Passed(o, w, n + m, CollectLogs)
          && !(PassedThrough(o, w, n, LENGTH) && x.passed && asExpected))
  }

  /** The verdict follows from what the stages and the NG, UE and live checks reported. */
  lemma BaselineVerdict(
    o: Oracle, core: Core, w: World, n: nat, m: nat, t: real, x: Wait, failed: bool, ranPassed: bool,
    status: ResultStatus, asExpected: bool)
    requires Shape(o, w, n, m) && m != 8 && (m == 9 ==> Called(core, x, t))
    requires failed <==> (m <= 5 || m == 7)
    requires m < 9 ==> !Passed(o, w, n + m - 1, Planned(m - 1))
    requires !failed ==> (ranPassed <==> m == 9 && LivePassed(o, w, n + 7, Current, x))
    requires status == Error <==> failed || !Passed(o, w, n + m, CollectLogs)
    requires status != Error ==> status == if ranPassed && asExpected then Pass else Fail
    ensures BaselineGuarantee(o, core, w, n, m, t, x, status, asExpected)
  {
    assert forall k :: 0 <= k < Sure(m) ==> Passed(o, w, n + k, Planned(k));
    if failed {
      assert StageFailed(o, w, n, m);
    }
    CompleteRun(o, w, n, m);
  }

  /** A baseline that passed found the core calm at every poll and healthy at every poll of the last 30 seconds. */
  lemma BaselineMeansReady(
    o: Oracle, core: Core, w: World, n: nat, m: nat, t: real, x: Wait, status: ResultStatus, asExpected: bool)
    requires BaselineGuarantee(o, core, w, n, m, t, x, status, asExpected) && status == Pass
    ensures Called(core, x, t) && core.ReadyAtLast(x)
  {
    CompleteRun(o, w, n, m);
    core.PassedMeansReady(x);
  }

  /** The ten commands of a baseline that passed, in order, and there were no others. */
  lemma BaselineSteps(
    o: Oracle, core: Core, w: World, n: nat, m: nat, t: real, x: Wait, status: ResultStatus, asExpected: bool)
    requires BaselineGuarantee(o, core, w, n, m, t, x, status, asExpected) && status == Pass
    ensures |w.trace| == n + 10
    ensures Passed(o, w, n, CollectLogs) && Passed(o, w, n + 1, StopRan) && Passed(o, w, n + 2, StartLab)
    ensures Passed(o, w, n + 3, AddSubscriber) && Passed(o, w, n + 4, UpGnb) && Passed(o, w, n + 5, WaitNg)
    ensures Passed(o, w, n + 6, UpUe) && LivePassed(o, w, n + 7, Current, x) && Passed(o, w, n + 9, CollectLogs)
  {
    CompleteRun(o, w, n, m);
    StepPassed(o, w, n, 0, CollectLogs);
    StepPassed(o, w, n, 1, StopRan);
    StepPassed(o, w, n, 2, StartLab);
    StepPassed(o, w, n, 3, AddSubscriber);
    StepPassed(o, w, n, 4, UpGnb);
    StepPassed(o, w, n, 5, WaitNg);
    StepPassed(o, w, n, 6, UpUe);
  }

  lemma StepPassed(o: Oracle, w: World, n: nat, k: nat, c: Command)
    requires PassedThrough(o, w, n, LENGTH) && k < LENGTH && Planned(k) == c
    ensures Passed(o, w, n + k, c)
  {
  }

  /** A run is complete and passed exactly when it got to the end, and its live checks and log collection passed. */
  lemma CompleteRun(o: Oracle, w: World, n: nat, m: nat)
    requires Shape(o, w, n, m) && (m < 9 ==> !Passed(o, w, n + m - 1, Planned(m - 1)))
    ensures PassedThrough(o, w, n, LENGTH) <==>
      && m == 9 && Passed(o, w, n + 7, Baseline(Current)) && Passed(o, w, n + 8, Recheck(Current))
      && Passed(o, w, n + 9, CollectLogs)
  {
    if PassedThrough(o, w, n, LENGTH) {
      assert Passed(o, w, n + 9, Planned(9)) && Passed(o, w, n + 8, Planned(8)) && Passed(o, w, n + 7, Planned(7));
      assert Passed(o, w, n + (m - 1), Planned(m - 1));
    }
  }

  /** The UE is started only after NG setup passed, the gNB started and every stage before it returned zero. */
  ghost predicate UeOrdered(o: Oracle, w: World, n: nat) {
    forall k :: n <= k < |w.trace| && w.trace[k].command == UpUe ==> k == n + 6 && PassedThrough(o, w, n, 6)
  }

  lemma UeOrderedBegun(o: Oracle, w: World, n: nat, m: nat)
    requires Begun(w, n, m) && (m >= 7 ==> PassedThrough(o, w, n, 6))
    ensures UeOrdered(o, w, n)
  {
    forall k | n <= k < |w.trace| && w.trace[k].command == UpUe ensures k == n + 6 {
      assert Planned(k - n) == UpUe;
    }
  }

  /** Everything before the final log collection. */
  method RunUntilCollection(host: Host, core: Core)
    returns (failed: bool, assertions: seq<Assertion>, out: Outcome, ghost m: nat, ghost x: Wait)
    requires core.Valid()
    modifies host, core
    ensures host.sigint == old(host.sigint) && host.sigterm == old(host.sigterm)
    ensures old(host.trace) <= host.trace && 0 < m && Begun(host.Now(), |old(host.trace)|, m)
    ensures PassedThrough(host.oracle, host.Now(), |old(host.trace)|, Sure(m))
    ensures m == 9 ==> Called(core, x, old(core.now)) && x.ended == core.now
    ensures out == Normal ==>
      && m != 8 && (failed <==> (m <= 5 || m == 7))
      && (m < 9 ==> !Passed(host.oracle, host.Now(), |old(host.trace)| + m - 1, Planned(m - 1)))
    ensures Caused(host.oracle, host.trace, |old(host.trace)|, out) && (out.Raised? ==> !WentOn(out))
    ensures PassOrFail(assertions)
    ensures out == Normal && !failed ==>
      (AllPass(assertions) <==> m == 9 && LivePassed(host.oracle, host.Now(), |old(host.trace)| + 7, Current, x))
  {
    assertions, x := [], NO_WAIT;
    failed, out, m := RunStages(host);
    if out.Raised? || failed { return; }
    ghost var w := host.trace;
    failed, assertions, out, m, x := StartRan(host, core, |old(host.trace)|);
    ThenCaused(host.oracle, w, host.trace, |old(host.trace)|, Normal, out);
  }

  /** Which exception stops a baseline, and when. */
  ghost predicate StoppedExactly(o: Oracle, trace: seq<Call<Command>>, n: nat, result: BaselineResult) {
    && Caused(o, trace, n, if result.Stopped? then Raised(result.exc) else Normal)
    && (result.Stopped? ==> !WentOn(Raised(result.exc)))
  }

  /** execute_baseline. The verdict is exact, and every step of a complete run happened before the next. */
  method ExecuteBaseline(host: Host, core: Core, sc: Scenario, events: set<string>)
    returns (result: BaselineResult, ghost m: nat, ghost x: Wait)
    requires core.Valid()
    modifies host, core
    ensures host.sigint == old(host.sigint) && host.sigterm == old(host.sigterm) && old(host.trace) <= host.trace
    ensures UeOrdered(host.oracle, host.Now(), |old(host.trace)|)
    ensures result.Ran? ==>
      && (result.ready <==> result.status == Pass)
      && BaselineGuarantee(
           host.oracle, core, host.Now(), |old(host.trace)|, m, old(core.now), x, result.status,
           AsExpected(sc.expected, sc.forbidden, events))
    // an interruption escapes exactly when a command was cut short, a crash exactly when one could not be run
    ensures StoppedExactly(host.oracle, host.trace, |old(host.trace)|, result)
    // and when nothing goes wrong in the lab, the core wait and the events decide
    ensures Smooth(host.oracle, |old(host.trace)|) ==>
      result.Ran? && (result.ready <==> x.passed && AsExpected(sc.expected, sc.forbidden, events))
  {
    ghost var o, n, asExpected, t := host.oracle, |host.trace|, AsExpected(sc.expected, sc.forbidden, events), core.now;
    var failed, assertions, out;
    failed, assertions, out, m, x := RunUntilCollection(host, core);
    UeOrderedBegun(o, host.Now(), n, m);
    if out.Raised? {
      result := Stopped(out.exc);
    } else {
      result := FinishBaseline(host, core, sc, events, failed, assertions, n, m, t, x);
    }
    if Smooth(o, n) {
      NothingDisturbs(o, host.trace, n);
      if result.Ran? { SmoothBaseline(o, core, host.Now(), n, m, t, x, result.status, asExpected); }
    }
  }

  /** The final log collection and the verdict. */
  method FinishBaseline(host: Host, ghost core: Core, sc: Scenario, events: set<string>, failed: bool,
                        assertions: seq<Assertion>, ghost n: nat, ghost m: nat, ghost t: real, ghost x: Wait)
    returns (result: BaselineResult)
    requires 0 < m && Begun(host.Now(), n, m) && PassedThrough(host.oracle, host.Now(), n, Sure(m))
    requires UeOrdered(host.oracle, host.Now(), n) && (m == 9 ==> Called(core, x, t))
    requires m != 8 && (failed <==> (m <= 5 || m == 7))
    requires m < 9 ==> !Passed(host.oracle, host.Now(), n + m - 1, Planned(m - 1))
    requires PassOrFail(assertions)
    requires !failed ==> (AllPass(assertions) <==> m == 9 && LivePassed(host.oracle, host.Now(), n + 7, Current, x))
    requires Caused(host.oracle, host.trace, n, Normal)
    modifies host
    ensures host.sigint == old(host.sigint) && host.sigterm == old(host.sigterm) && old(host.trace) <= host.trace
    ensures UeOrdered(host.oracle, host.Now(), n)
    ensures result.Ran? ==>
      && (result.ready <==> result.status == Pass)
      && BaselineGuarantee(
           host.oracle, core, host.Now(), n, m, t, x, result.status, AsExpected(sc.expected, sc.forbidden, events))
    ensures StoppedExactly(host.oracle, host.trace, n, result)
  {
    ghost var w := host.Now();
    var collected, out;
    collected, out := RunOwn(host, CollectLogs);
    UeOrderedStill(host.oracle, w, host.Now(), n);
    ThenCaused(host.oracle, w.trace, host.trace, n, Normal, out);
    if out.Raised? { return Stopped(out.exc); }
    Collected(host.oracle, w, host.Now(), n, m);
    var status := Judge(failed, collected, assertions, sc, events);
    BaselineVerdict(
      host.oracle, core, host.Now(), n, m, t, x, failed, AllPass(assertions), status,
      AsExpected(sc.expected, sc.forbidden, events));
    result := Ran(status, status == Pass);
  }

  lemma NothingDisturbs(o: Oracle, trace: seq<Call<Command>>, n: nat)
    requires Smooth(o, n)
    ensures !SomeCut(o, trace, n) && !SomeCrashed(o, trace, n)
  {
    forall k | n <= k ensures !CutAt(o, trace, k) && !CrashedAt(o, trace, k) {
      if k < |trace| { assert UndisturbedAt(o, k, trace[k].command) && FaithfulAt(o, k, trace[k].command); }
    }
  }

  lemma SmoothPasses(o: Oracle, w: World, n: nat, k: nat)
    requires Smooth(o, n) && n <= k < |w.trace| && w.trace[k].command.Own() && !w.trace[k].command.Traffic?
    ensures Passed(o, w, k, w.trace[k].command)
  {
    assert UndisturbedAt(o, k, w.trace[k].command);
  }

  /** With honest commands a finished baseline run was complete. */
  lemma SmoothBaseline(
    o: Oracle, core: Core, w: World, n: nat, m: nat, t: real, x: Wait, status: ResultStatus, asExpected: bool)
    requires BaselineGuarantee(o, core, w, n, m, t, x, status, asExpected) && Smooth(o, n)
    ensures status == Pass <==> x.passed && asExpected
  {
    assert w.trace[n + (m - 1)].command == Planned(m - 1);
    SmoothPasses(o, w, n, n + m - 1);
    SmoothPasses(o, w, n, n + m);
    assert m == 9;
    assert w.trace[n + 7].command == Planned(7) && w.trace[n + 8].command == Planned(8);
    SmoothPasses(o, w, n, n + 7);
    CompleteRun(o, w, n, m);
  }

  /** The verdict of a baseline run from what its commands answered and the events seen. */
  method Judge(failed: bool, collected: nat, assertions: seq<Assertion>, sc: Scenario, events: set<string>)
    returns (status: ResultStatus)
    requires PassOrFail(assertions)
    ensures status == Error <==> failed || collected != 0
    ensures status != Error ==>
      status == if AllPass(assertions) && AsExpected(sc.expected, sc.forbidden, events) then Pass else Fail
  {
    var about := EvaluateScenarioEvents(sc.expected, sc.forbidden, events);
    StatusAppend(assertions, about);
    status := if failed || collected != 0 then Error else ScenarioStatus(assertions + about);
  }

  /** Collecting the logs after m commands completes the shape of a run and changes nothing said before. */
  lemma Collected(o: Oracle, w: World, w': World, n: nat, m: nat)
    requires 0 < m && Begun(w, n, m) && PassedThrough(o, w, n, Sure(m))
    requires w.trace <= w'.trace && |w'.trace| == |w.trace| + 1 && w'.trace[|w.trace|].command == CollectLogs
    ensures Shape(o, w', n, m)
    ensures forall k, c :: n <= k < n + m ==> (Passed(o, w', k, c) <==> Passed(o, w, k, c))
  {
    StillPassed(o, w, w', n, Sure(m));
  }

  lemma UeOrderedStill(o: Oracle, w: World, w': World, n: nat)
    requires UeOrdered(o, w, n) && w.trace <= w'.trace && |w'.trace| == |w.trace| + 1
    requires w'.trace[|w.trace|].command == CollectLogs
    ensures UeOrdered(o, w', n)
  {
    forall k | n <= k < |w'.trace| && w'.trace[k].command == UpUe ensures k == n + 6 && PassedThrough(o, w', n, 6) {
      assert w.trace[k].command == UpUe;
      StillPassed(o, w, w', n, 6);
    }
  }
}
