/** Why an operation of the injector ends in an exception, and that without a cause it does not. */
module FaultCauses {
  import opened Basics
  import opened Testbed
  import opened FaultSpec
  import opened FaultInvariants
  import opened FaultRuns

  // ---- every exception has a cause ----

  /** A signal cut the k-th command short. */
  predicate CutAt(o: Oracle, trace: seq<Call<Command>>, k: nat) {
    k < |trace| && CutShort(o(k, trace[k].command).arrival, trace[k].sigint, trace[k].sigterm)
  }

  /** The k-th command could not be run at all. */
  predicate CrashedAt(o: Oracle, trace: seq<Call<Command>>, k: nat) {
    k < |trace| && !CutAt(o, trace, k) && o(k, trace[k].command).code == Crash
  }

  predicate DisturbedAt(o: Oracle, trace: seq<Call<Command>>, k: nat) {
    CutAt(o, trace, k) || CrashedAt(o, trace, k)
  }

  /** A signal cut some command short, from the n-th on. */
  ghost predicate SomeCut(o: Oracle, trace: seq<Call<Command>>, n: nat) {
    exists k :: n <= k && CutAt(o, trace, k)
  }

  /** Some command could not be run, from the n-th on. */
  ghost predicate SomeCrashed(o: Oracle, trace: seq<Call<Command>>, n: nat) {
    exists k :: n <= k && CrashedAt(o, trace, k)
  }

  /** An interruption is exactly the doing of a signal, and a crash that of a command that could not be run, among the
      commands from the n-th on. */
  ghost predicate Caused(o: Oracle, trace: seq<Call<Command>>, n: nat, out: Outcome) {
    && (out == Raised(Interrupted) <==> SomeCut(o, trace, n))
    && (out == Raised(Crashed) <==> SomeCrashed(o, trace, n))
  }

  /** The fault names a kind, a target and an interface that the validators accept. */
  predicate TargetAllowed(f: Fault) {
    !f.kind.Unsupported? && (f.kind.Impairs() || f.kind.ActsOnService() ==> ValidTarget(f))
  }

  /** Neither interrupted nor crashed. */
  predicate WentOn(out: Outcome) {
    out != Raised(Interrupted) && out != Raised(Crashed)
  }

  lemma NothingCaused(o: Oracle, trace: seq<Call<Command>>, out: Outcome)
    requires WentOn(out)
    ensures Caused(o, trace, |trace|, out)
  {
  }

  /** One command has one outcome. */
  lemma OneCaused(o: Oracle, trace: seq<Call<Command>>, n: nat, out: Outcome)
    requires |trace| == n + 1
    requires out == Raised(Interrupted) <==> CutAt(o, trace, n)
    requires out == Raised(Crashed) <==> CrashedAt(o, trace, n)
    ensures Caused(o, trace, n, out)
  {
  }

  /** When the commands up to trace went on, the whole ends as the rest does. */
  lemma ThenCaused(
    o: Oracle, trace: seq<Call<Command>>, trace': seq<Call<Command>>, n: nat, before: Outcome, out: Outcome)
    requires n <= |trace| && trace <= trace' && WentOn(before)
    requires Caused(o, trace, n, before) && Caused(o, trace', |trace|, out)
    ensures Caused(o, trace', n, out)
  {
    Divided(o, trace, trace', n);
  }

  /** What disturbs a run disturbs its beginning or its rest. */
  lemma Divided(o: Oracle, trace: seq<Call<Command>>, trace': seq<Call<Command>>, n: nat)
    requires n <= |trace| && trace <= trace'
    ensures SomeCut(o, trace', n) <==> SomeCut(o, trace, n) || SomeCut(o, trace', |trace|)
    ensures SomeCrashed(o, trace', n) <==> SomeCrashed(o, trace, n) || SomeCrashed(o, trace', |trace|)
  {
    assert forall k: nat :: k < |trace| ==>
      CutAt(o, trace', k) == CutAt(o, trace, k) && CrashedAt(o, trace', k) == CrashedAt(o, trace, k);
  }

  lemma RunBlamed(o: Oracle, f: Fault, s: Sys, c: Command)
    ensures Caused(o, Run(o, s, c).s.w.trace, |s.w.trace|, Run(o, s, c).out)
    ensures s.w.trace <= Run(o, s, c).s.w.trace && Run(o, s, c).out != Raised(BadValue)
  {
    OneCaused(o, Run(o, s, c).s.w.trace, |s.w.trace|, Run(o, s, c).out);
  }

  lemma ExamineBlamed(o: Oracle, f: Fault, s: Sys, service: string)
    ensures Caused(o, Examine(o, s, service).s.w.trace, |s.w.trace|, Examine(o, s, service).out)
    ensures s.w.trace <= Examine(o, s, service).s.w.trace && Examine(o, s, service).out != Raised(BadValue)
  {
    RunBlamed(o, f, s, Ps(service));
    var ps := Run(o, s, Ps(service));
    RunBlamed(o, f, ps.s, Inspect(service));
    var ins := Run(o, ps.s, Inspect(service));
    if WentOn(ps.out) { ThenCaused(o, ps.s.w.trace, ins.s.w.trace, |s.w.trace|, ps.out, ins.out); }
  }

  lemma InstallBlamed(o: Oracle, f: Fault, s: Sys)
    ensures Caused(o, Install(o, f, s).s.w.trace, |s.w.trace|, Install(o, f, s).out)
    ensures s.w.trace <= Install(o, f, s).s.w.trace && Install(o, f, s).out != Raised(BadValue)
  {
    RunBlamed(o, f, s, ShowQdisc(DeviceOf(f)));
    var q := Run(o, s, ShowQdisc(DeviceOf(f)));
    if q.out == Normal {
      InstallClsactBlamed(o, f, q.s);
      var a := InstallClsact(o, f, q.s);
      ThenCaused(o, q.s.w.trace, a.s.w.trace, |s.w.trace|, Normal, a.out);
      if a.out == Normal {
        RunBlamed(o, f, Armed(a.s.(i := a.s.i.(filterCleanup := true))), AddFilter(Rule(f)));
        var g := InstallFilter(o, f, a.s);
        ThenCaused(o, a.s.w.trace, g.s.w.trace, |s.w.trace|, Normal, g.out);
      }
    }
  }

  lemma InstallClsactBlamed(o: Oracle, f: Fault, s: Sys)
    ensures
      var a := InstallClsact(o, f, s);
      Caused(o, a.s.w.trace, |s.w.trace|, a.out) && s.w.trace <= a.s.w.trace && a.out != Raised(BadValue)
  {
    NothingCaused(o, s.w.trace, Normal);
    RunBlamed(o, f, Armed(s.(i := s.i.(createdClsact := true))), AddClsact(DeviceOf(f)));
  }

  lemma ApplyImpairmentBlamed(o: Oracle, f: Fault, s: Sys)
    requires f.kind.Impairs()
    ensures
      var a := ApplyImpairment(o, f, s);
      Caused(o, a.s.w.trace, |s.w.trace|, a.out) && (a.out == Raised(BadValue) <==> !ValidTarget(f))
  {
    NothingCaused(o, s.w.trace, Raised(BadValue));
    RunBlamed(o, f, s, ShowFilter(DeviceOf(f), Preference(f)));
    var show := Run(o, s, ShowFilter(DeviceOf(f), Preference(f)));
    if show.out == Normal {
      InstallBlamed(o, f, show.s);
      var t := Install(o, f, show.s);
      ThenCaused(o, show.s.w.trace, t.s.w.trace, |s.w.trace|, Normal, t.out);
    }
  }

  lemma ApplyRestartBlamed(o: Oracle, f: Fault, s: Sys)
    ensures
      var a := ApplyRestart(o, f, s);
      Caused(o, a.s.w.trace, |s.w.trace|, a.out) && (a.out == Raised(BadValue) <==> !ValidService(f))
  {
    NothingCaused(o, s.w.trace, Raised(BadValue));
    ExamineBlamed(o, f, s, Service(f));
    var look := Examine(o, s, Service(f));
    if look.out == Normal && look.found.Some? {
      var s' := Armed(look.s.(i := look.s.i.(restartedAt := Some(look.found.value.startedAt))));
      RunBlamed(o, f, s', Restart(Service(f)));
      var t := Finish(Run(o, s', Restart(Service(f))));
      ThenCaused(o, s'.w.trace, t.s.w.trace, |s.w.trace|, Normal, t.out);
    }
  }

  /** apply is interrupted exactly by a signal, crashes exactly with a command that cannot be run, and raises ValueError
      exactly for a target that is not allowed. */
  lemma ApplyBlamed(o: Oracle, f: Fault, s: Sys)
    ensures
      var a := Apply(o, f, s);
      Caused(o, a.s.w.trace, |s.w.trace|, a.out) && (a.out == Raised(BadValue) <==> !TargetAllowed(f))
  {
    NothingCaused(o, s.w.trace, Normal);
    NothingCaused(o, s.w.trace, Raised(BadValue));
    if f.kind.Impairs() {
      ApplyImpairmentBlamed(o, f, s);
    } else if f.kind.RestartService? {
      ApplyRestartBlamed(o, f, s);
    } else if f.kind.StopService? {
      RunBlamed(o, f, Armed(s), Stop(Service(f)));
    }
  }

  lemma UndoBlamed(o: Oracle, f: Fault, s: Sys, c: Command)
    ensures Caused(o, Undo(o, f, s, c).s.w.trace, |s.w.trace|, Undo(o, f, s, c).out)
    ensures s.w.trace <= Undo(o, f, s, c).s.w.trace && Undo(o, f, s, c).out != Raised(BadValue)
    ensures Undo(o, f, s, c).out != Raised(RuntimeFailure)
  {
    RunBlamed(o, f, s, c);
    var r := Run(o, s, c);
    var show := if c.DelFilter? then ShowFilter(DeviceOf(f), Preference(f)) else ShowQdisc(DeviceOf(f));
    RunBlamed(o, f, r.s, show);
    var look := Run(o, r.s, show);
    if WentOn(r.out) { ThenCaused(o, r.s.w.trace, look.s.w.trace, |s.w.trace|, r.out, look.out); }
  }

  lemma {:induction false} SweepBlamed(o: Oracle, f: Fault, s: Sys, cmds: seq<Command>)
    ensures
      var w := SweepAll(o, f, s, cmds);
      && Caused(o, w.s.w.trace, |s.w.trace|, w.out) && s.w.trace <= w.s.w.trace
      && w.out != Raised(BadValue) && w.out != Raised(RuntimeFailure)
    decreases |cmds|
  {
    NothingCaused(o, s.w.trace, Normal);
    if cmds != [] {
      if Skipped(s.i, cmds[0]) {
        SweepBlamed(o, f, s, cmds[1..]);
      } else {
        UndoBlamed(o, f, s, cmds[0]);
        var u := Undo(o, f, s, cmds[0]);
        if u.out == Normal {
          SweepBlamed(o, f, u.s, cmds[1..]);
          var rest := SweepAll(o, f, u.s, cmds[1..]);
          ThenCaused(o, u.s.w.trace, rest.s.w.trace, |s.w.trace|, Normal, rest.out);
        }
      }
    }
  }

  /** remove is interrupted exactly by a signal, crashes exactly with a command that cannot be run, and raises
      ValueError exactly when there is something to undo on a target that is not allowed. */
  lemma RemoveBlamed(o: Oracle, f: Fault, s: Sys)
    ensures
      var r := Remove(o, f, s);
      && Caused(o, r.s.w.trace, |s.w.trace|, r.out) && s.w.trace <= r.s.w.trace
      && (r.out == Raised(BadValue) <==>
            (s.i.applied || s.i.cleanupRequired) && !TargetAllowed(f) && !f.kind.Unsupported?)
  {
    NothingCaused(o, s.w.trace, Normal);
    NothingCaused(o, s.w.trace, Raised(BadValue));
    var cmds := RollbackCommands(f, s.i);
    if cmds.Some? { SweepBlamed(o, f, s, cmds.value); }
  }

  lemma VerifyAppliedBlamed(o: Oracle, f: Fault, s: Sys)
    ensures
      var v := VerifyApplied(o, f, s);
      && Caused(o, v.s.w.trace, |s.w.trace|, v.out) && s.w.trace <= v.s.w.trace
      && (v.out.Raised? ==> !WentOn(v.out)) && (v.ok ==> v.out == Normal)
  {
    NothingCaused(o, s.w.trace, Normal);
    if f.kind.Impairs() {
      RunBlamed(o, f, s, ShowFilter(DeviceOf(f), Preference(f)));
    } else if f.kind.ActsOnService() {
      ExamineBlamed(o, f, s, Service(f));
    }
  }

  lemma VerifyRemovedBlamed(o: Oracle, f: Fault, s: Sys)
    ensures
      var v := VerifyRemoved(o, f, s);
      && Caused(o, v.s.w.trace, |s.w.trace|, v.out) && s.w.trace <= v.s.w.trace
      && (v.out.Raised? ==> !WentOn(v.out)) && (v.ok ==> v.out == Normal)
  {
    NothingCaused(o, s.w.trace, Normal);
    if f.kind.Impairs() {
      VerifyImpairmentRemovedBlamed(o, f, s);
    } else if f.kind.ActsOnService() {
      ExamineBlamed(o, f, s, Service(f));
    }
  }

  lemma VerifyImpairmentRemovedBlamed(o: Oracle, f: Fault, s: Sys)
    ensures
      var v := VerifyImpairmentRemoved(o, f, s);
      && Caused(o, v.s.w.trace, |s.w.trace|, v.out) && s.w.trace <= v.s.w.trace
      && (v.out.Raised? ==> !WentOn(v.out)) && (v.ok ==> v.out == Normal)
  {
    NothingCaused(o, s.w.trace, Normal);
    RunBlamed(o, f, s, ShowFilter(DeviceOf(f), Preference(f)));
    var show := Run(o, s, ShowFilter(DeviceOf(f), Preference(f)));
    RunBlamed(o, f, show.s, ShowQdisc(DeviceOf(f)));
    var q := Run(o, show.s, ShowQdisc(DeviceOf(f)));
    if WentOn(show.out) { ThenCaused(o, show.s.w.trace, q.s.w.trace, |s.w.trace|, show.out, q.out); }
  }

  /** A target that is not allowed makes apply and remove issue no command at all: apply raises ValueError, and so does
      every later remove when it was stop_service, which arms the cleanup before it looks at its target. */
  lemma DisallowedTarget(o: Oracle, f: Fault, w0: World)
    requires !TargetAllowed(f)
    ensures
      var a := Apply(o, f, Sys(w0, FRESH));
      var r := Remove(o, f, a.s);
      && a.s.w == w0 && a.out == Raised(BadValue) && (a.s.i.cleanupRequired <==> f.kind.StopService?)
      && r.s == a.s && r.out == (if f.kind.StopService? then Raised(BadValue) else Normal)
  {
  }

  /** The rollback with its check issues no command for such a target either. */
  lemma DisallowedRollback(o: Oracle, f: Fault, s: Sys)
    requires !TargetAllowed(f)
    ensures Remove(o, f, s).s.w == s.w && VerifyRemoved(o, f, s) == Verdict(s, false, Normal)
  {
  }

  // ---- without a cause, everything works ----

  /** No signal, no illness, and the orchestrator's own commands succeed; traffic may also report that it failed. */
  predicate UndisturbedAt(o: Oracle, k: nat, c: Command) {
    var r := o(k, c);
    && r.arrival == Quiet && r.health != Unhealthy
    && (c.Own() ==> r.code == AsKernelSays || r.code == Exit(0) || (c.Traffic? && r.code == Exit(4)))
  }

  /** From the n-th command on the lab is honest and nothing disturbs the orchestrator. */
  ghost predicate Smooth(o: Oracle, n: nat) {
    FaithfulFrom(o, n) && forall k: nat, c: Command :: k >= n ==> UndisturbedAt(o, k, c)
  }

  /** The fault can be applied to this lab: its target is allowed and there, and nothing is in its way. */
  ghost predicate Applicable(f: Fault, lab: Lab) {
    && TargetAllowed(f) && !f.kind.MutatesConfig()
    && (f.kind.Impairs() ==> !FilterAt(lab, DeviceOf(f), Preference(f)))
    && (f.kind.ActsOnService() ==> Service(f) in lab.containers)
    && (f.kind.RestartService? ==> lab.containers[Service(f)].running)
  }

  lemma SmoothIsHonest(o: Oracle, w: World, n: nat)
    requires Smooth(o, n) && n <= |w.trace|
    ensures Honest(o, w)
  {
    forall k: nat, c: Command | k >= |w.trace| ensures o(k, c).arrival == Quiet { assert UndisturbedAt(o, k, c); }
  }

  lemma SmoothLook(o: Oracle, s: Sys, service: string, n: nat)
    requires Smooth(o, n) && n <= |s.w.trace| && service in s.w.lab.containers
    ensures
      var look := Examine(o, s, service);
      && look.out == Normal && look.found.Some? && look.found.value.health != Unhealthy
      && look.found.value.running == s.w.lab.containers[service].running
      && look.found.value.startedAt == s.w.lab.containers[service].startedAt
      && service in look.s.w.lab.containers && look.s.w.lab.containers[service] == look.found.value
      && look.s.w.lab.clock == s.w.lab.clock
  {
    SmoothIsHonest(o, s.w, n);
    HonestRun(o, s, Ps(service));
    var ps := Run(o, s, Ps(service));
    HonestRun(o, ps.s, Inspect(service));
    assert UndisturbedAt(o, |ps.s.w.trace|, Inspect(service));
  }

  /** An applicable fault is applied and verified. */
  lemma SmoothApply(o: Oracle, f: Fault, w0: World)
    requires ValidLab(w0.lab) && Smooth(o, |w0.trace|) && Applicable(f, w0.lab)
    ensures
      var a := Apply(o, f, Sys(w0, FRESH));
      a.out == Normal && VerifyApplied(o, f, a.s).ok
  {
    if f.kind.Impairs() {
      SmoothImpairment(o, f, w0);
    } else if f.kind.StopService? {
      SmoothStop(o, f, w0);
    } else if f.kind.RestartService? {
      SmoothRestart(o, f, w0);
    }
  }

  lemma SmoothStop(o: Oracle, f: Fault, w0: World)
    requires f.kind.StopService? && Smooth(o, |w0.trace|) && Applicable(f, w0.lab)
    ensures
      var a := Apply(o, f, Sys(w0, FRESH));
      a.out == Normal && VerifyApplied(o, f, a.s).ok
  {
    var s := Armed(Sys(w0, FRESH));
    SmoothIsHonest(o, w0, |w0.trace|);
    HonestRun(o, s, Stop(Service(f)));
    SmoothLook(o, Apply(o, f, Sys(w0, FRESH)).s, Service(f), |w0.trace|);
  }

  lemma SmoothRestart(o: Oracle, f: Fault, w0: World)
    requires f.kind.RestartService? && Smooth(o, |w0.trace|) && Applicable(f, w0.lab) && ValidLab(w0.lab)
    ensures
      var a := Apply(o, f, Sys(w0, FRESH));
      a.out == Normal && VerifyApplied(o, f, a.s).ok
  {
    SmoothLook(o, Sys(w0, FRESH), Service(f), |w0.trace|);
    ExamineBlamed(o, f, Sys(w0, FRESH), Service(f));
    var look := Examine(o, Sys(w0, FRESH), Service(f));
    var s := Armed(look.s.(i := look.s.i.(restartedAt := Some(look.found.value.startedAt))));
    SmoothIsHonest(o, s.w, |w0.trace|);
    SmoothRelaunch(o, f, s, |w0.trace|);
  }

  lemma SmoothRelaunch(o: Oracle, f: Fault, s: Sys, n: nat)
    requires f.kind.RestartService? && ValidService(f) && Smooth(o, n) && n <= |s.w.trace|
    requires Service(f) in s.w.lab.containers
    requires s.i.restartedAt.Some? && s.i.restartedAt.value < s.w.lab.clock
    ensures
      var t := Finish(Run(o, s, Restart(Service(f))));
      t.out == Normal && VerifyApplied(o, f, t.s).ok
  {
    SmoothIsHonest(o, s.w, n);
    HonestRun(o, s, Restart(Service(f)));
    SmoothLook(o, Finish(Run(o, s, Restart(Service(f)))).s, Service(f), n);
  }

  lemma SmoothImpairment(o: Oracle, f: Fault, w0: World)
    requires f.kind.Impairs() && Smooth(o, |w0.trace|) && Applicable(f, w0.lab)
    ensures
      var a := Apply(o, f, Sys(w0, FRESH));
      a.out == Normal && VerifyApplied(o, f, a.s).ok
  {
    var s := Sys(w0, FRESH);
    SmoothIsHonest(o, w0, |w0.trace|);
    HonestRun(o, s, ShowFilter(DeviceOf(f), Preference(f)));
    var show := Run(o, s, ShowFilter(DeviceOf(f), Preference(f)));
    SmoothInstall(o, f, show.s);
    var a := Install(o, f, show.s);
    HonestRun(o, a.s, ShowFilter(DeviceOf(f), Preference(f)));
  }

  lemma SmoothInstall(o: Oracle, f: Fault, s: Sys)
    requires Honest(o, s.w) && !FilterAt(s.w.lab, DeviceOf(f), Preference(f))
    ensures
      var a := Install(o, f, s);
      a.out == Normal && Rule(f) in a.s.w.lab.filters && Honest(o, a.s.w)
  {
    HonestRun(o, s, ShowQdisc(DeviceOf(f)));
    var q := Run(o, s, ShowQdisc(DeviceOf(f)));
    HonestRun(o, Armed(q.s.(i := q.s.i.(createdClsact := true))), AddClsact(DeviceOf(f)));
    var a := InstallClsact(o, f, q.s);
    assert a.out == Normal && DeviceOf(f) in a.s.w.lab.clsact && a.s.w.lab.filters == s.w.lab.filters;
    HonestRun(o, Armed(a.s.(i := a.s.i.(filterCleanup := true))), AddFilter(Rule(f)));
  }

  /** An applicable fault is removed and its removal verified, from any state it can be in. */
  lemma SmoothRemove(o: Oracle, f: Fault, s: Sys, lab0: Lab, n: nat)
    requires Smooth(o, n) && n <= |s.w.trace| && Applicable(f, lab0)
    requires Footprint(f, s, lab0) && (s.i.applied || s.i.cleanupRequired)
    requires WriteAhead(f, s, lab0)
    ensures
      var r := Remove(o, f, s);
      r.out == Normal && VerifyRemoved(o, f, r.s).ok
  {
    SmoothIsHonest(o, s.w, n);
    RemoveKeeps(o, f, s, lab0);
    HonestSweep(o, f, s, RollbackCommands(f, s.i).value, lab0);
    HonestRollback(o, f, s, lab0);
    var r := Remove(o, f, s);
    SmoothIsHonest(o, r.s.w, n);
    if f.kind.Impairs() {
      SmoothAbsent(o, f, r.s);
    } else if f.kind.ActsOnService() {
      HonestStart(o, f, s);
      SmoothLook(o, r.s, Service(f), n);
    }
  }

  lemma SmoothAbsent(o: Oracle, f: Fault, s: Sys)
    requires f.kind.Impairs() && ValidTarget(f) && Honest(o, s.w)
    requires !FilterAt(s.w.lab, DeviceOf(f), Preference(f)) && (s.i.createdClsact ==> DeviceOf(f) !in s.w.lab.clsact)
    ensures VerifyRemoved(o, f, s).ok
  {
    HonestRun(o, s, ShowFilter(DeviceOf(f), Preference(f)));
    var show := Run(o, s, ShowFilter(DeviceOf(f), Preference(f)));
    HonestRun(o, show.s, ShowQdisc(DeviceOf(f)));
  }
}
