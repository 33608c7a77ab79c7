/** The live baseline checks that gate a fault and validate the recovery: after traffic, the core must be ready once
    more. */
module LiveBaseline {
  import opened Basics
  import opened Testbed
  import opened Hosts
  import opened FaultCauses
  import opened OwnCommands
  import opened ReadinessWatch
  import opened ReadinessRuns
  import opened CoreReadiness
  import opened Assertions

  /** The call of wait_core_ready with its default arguments, made at time t. */
  ghost predicate Called(core: Core, x: Wait, t: real) {
    core.Made(x) && x.run == Run(Limits(30.0, t + 120.0), t, 120.0, 2.0, core.maxLag)
  }

  method FinalWait(core: Core) returns (passed: bool, ghost x: Wait)
    requires core.Valid()
    modifies core
    ensures Called(core, x, old(core.now)) && x.passed == passed
    ensures x.ended == core.now && x.from == old(core.asked) && x.to == core.asked
  {
    var r;
    r, x := core.WaitCoreReady(120, 30, 2.0);
    passed := r.passed;
  }

  /** The world once the checks before and after the wait have been made. */
  function AfterLive(o: Oracle, w: World, phase: Phase): World {
    Send(o, Send(o, w, Baseline(phase)).w, Recheck(phase)).w
  }

  /** The checks from index n on returned. */
  ghost predicate LiveReturned(o: Oracle, w: World, n: nat, phase: Phase) {
    Returned(o, w, n, Baseline(phase)) && Returned(o, w, n + 1, Recheck(phase))
  }

  /** They passed, and so did the wait between them. */
  ghost predicate LivePassed(o: Oracle, w: World, n: nat, phase: Phase, x: Wait) {
    Passed(o, w, n, Baseline(phase)) && Passed(o, w, n + 1, Recheck(phase)) && x.passed
  }

  /** validate_current_baseline: services, gNB, UE, session, tunnel and traffic; the core wait; gNB, UE, session and
      containers again. All of it is asked whatever fails, and it passes exactly when all of it does. */
  method ValidateCurrentBaseline(host: Host, core: Core, phase: Phase)
    returns (status: ResultStatus, out: Outcome, ghost x: Wait)
    requires core.Valid()
    modifies host, core
    ensures NoUndoSince(host.Now(), old(host.Now())) && OnlyOwnSince(host.Now(), old(host.Now()))
    ensures host.lab == old(host.lab)
    ensures host.sigint == old(host.sigint) && host.sigterm == old(host.sigterm)
    ensures |old(host.trace)| + 1 <= |host.trace| <= |old(host.trace)| + 2
    ensures host.trace[|old(host.trace)|].command == Baseline(phase)
    ensures |host.trace| == |old(host.trace)| + 2 ==> host.trace[|old(host.trace)| + 1].command == Recheck(phase)
    ensures |host.trace| == |old(host.trace)| + 2 ==>
      && host.Now() == AfterLive(host.oracle, old(host.Now()), phase)
      && Called(core, x, old(core.now)) && x.ended == core.now && x.from == old(core.asked) && x.to == core.asked
    ensures |host.trace| == |old(host.trace)| + 1 ==> core.now == old(core.now) && core.asked == old(core.asked)
    ensures out == Normal <==> LiveReturned(host.oracle, host.Now(), |old(host.trace)|, phase)
    ensures Caused(host.oracle, host.trace, |old(host.trace)|, out) && (out.Raised? ==> !WentOn(out))
    ensures out == Normal ==>
      status == if LivePassed(host.oracle, host.Now(), |old(host.trace)|, phase, x) then Pass else Fail
    ensures Smooth(host.oracle, |old(host.trace)|) ==> out == Normal && (status == Pass <==> x.passed)
  {
    ghost var o, w, n := host.oracle, host.Now(), |host.trace|;
    status, x := Fail, NO_WAIT;
    var before, ready, after;
    before, out := RunOwn(host, Baseline(phase));
    if out.Raised? { return; }
    ghost var w1 := host.Now();
    ready, x := FinalWait(core);
    after, out := RunOwn(host, Recheck(phase));
    NoUndoInBetween(w, w1, host.Now());
    OwnInBetween(w, w1, host.Now());
    StillAnswered(o, w1, host.Now(), n, Baseline(phase));
    ThenCaused(o, w1.trace, host.trace, n, Normal, out);
    if out.Raised? { return; }
    status := StatusOfLive(before == 0, ready, after == 0);
  }

  method StatusOfLive(before: bool, ready: bool, after: bool) returns (status: ResultStatus)
    ensures status == if before && ready && after then Pass else Fail
  {
    var assertions := [
      Assertion(State("before"), if before then Pass else Fail),
      Assertion(State("final_core_ready"), if ready then Pass else Fail),
      Assertion(State("after"), if after then Pass else Fail)];
    assert assertions[0].status == Fail || assertions[1].status == Fail || assertions[2].status == Fail
      || forall i :: 0 <= i < 3 ==> assertions[i].status == Pass;
    status := ScenarioStatus(assertions);
  }
}
