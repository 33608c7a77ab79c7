/** The process that runs commands: its signal dispositions, the lab behind the commands, and the trace. */
module Hosts {
  import opened Basics
  import opened Testbed

  class Host {
    const oracle: Oracle
    var lab: Lab
    var trace: seq<Call<Command>>
    var sigint: Handler
    var sigterm: Handler

    function Now(): World
      reads this
    {
      World(lab, trace, sigint, sigterm)
    }

    constructor (oracle: Oracle, lab: Lab, sigint: Handler, sigterm: Handler)
      ensures Now() == World(lab, [], sigint, sigterm) && this.oracle == oracle
    {
      this.oracle := oracle;
      this.lab, this.trace, this.sigint, this.sigterm := lab, [], sigint, sigterm;
    }

    /** The child process under the dispositions now in force. */
    method RunChild(c: Command) returns (ending: Ending)
      modifies this`lab, this`trace
      ensures
        var r := oracle(|old(trace)|, c);
        && lab == After(c, old(lab), r) && trace == old(trace) + [Call(c, sigint, sigterm)]
        && ending == EndingOf(r, c, old(lab), sigint, sigterm)
    {
      var r := oracle(|trace|, c);
      ending := EndingOf(r, c, lab, sigint, sigterm);
      lab, trace := After(c, lab, r), trace + [Call(c, sigint, sigterm)];
    }

    /** run_command: installs its SIGTERM handler only when SIGTERM is not ignored, and puts the previous
        disposition back on every path. */
    method RunCommand(c: Command) returns (ending: Ending)
      modifies this
      ensures Now() == Send(oracle, old(Now()), c).w
      ensures ending == Send(oracle, old(Now()), c).ending
      ensures sigint == old(sigint) && sigterm == old(sigterm)
      ensures |trace| == |old(trace)| + 1
      ensures trace[|old(trace)|] == Call(c, old(sigint), if old(sigterm) == Ignored then Ignored else Raises)
    {
      var previous := sigterm;
      if previous != Ignored {
        sigterm := Raises;
      }
      ending := RunChild(c);
      sigterm := previous;
    }
  }
}

/** The injector object itself, updated in place, proved against FaultSpec. */
module FaultInjection {
  import opened Basics
  import opened Testbed
  import opened Hosts
  import Spec = FaultSpec
  import opened FaultSpec

  class FaultInjector {
    const fault: Fault
    const host: Host
    var applied: bool
    var history: seq<Command>
    var cleanupRequired: bool
    var createdClsact: bool
    var filterCleanup: bool
    var restartedAt: Option<nat>

    function State(): Sys
      reads this, host
    {
      Sys(host.Now(), Injector(applied, cleanupRequired, createdClsact, filterCleanup, restartedAt, history))
    }

    constructor (fault: Fault, host: Host)
      ensures State() == Sys(host.Now(), FRESH) && this.fault == fault && this.host == host
    {
      this.fault, this.host := fault, host;
      applied, history, cleanupRequired := false, [], false;
      createdClsact, filterCleanup, restartedAt := false, false, None;
    }

    method Run(c: Command) returns (out: Outcome)
      modifies this`history, host
      ensures Step(State(), out) == Spec.Run(host.oracle, old(State()), c)
    {
      history := history + [c];
      var ending := host.RunCommand(c);
      out := match ending
        case Exited(code) => if code != 0 then Raised(RuntimeFailure) else Normal
        case Cut => Raised(Interrupted)
        case Broke => Raised(Crashed);
    }

    method ContainerState(service: string) returns (out: Outcome, found: Option<Container>)
      modifies this`history, host
      ensures Look(State(), out, found) == Examine(host.oracle, old(State()), service)
    {
      found := None;
      out := Run(Ps(service));
      if out.Raised? || service !in host.lab.containers { return; }
      out := Run(Inspect(service));
      if out == Normal && service in host.lab.containers {
        found := Some(host.lab.containers[service]);
      }
    }

    /** Every mutating command is issued with the cleanup flag already set. */
    method Mutate(c: Command) returns (out: Outcome)
      requires cleanupRequired
      modifies this`history, this`applied, host
      ensures Step(State(), out) == Finish(Spec.Run(host.oracle, old(State()), c))
    {
      out := Run(c);
      if out == Normal { applied := true; }
    }

    method ApplyImpairment() returns (out: Outcome)
      requires fault.kind.Impairs()
      modifies this, host
      ensures Step(State(), out) == Spec.ApplyImpairment(host.oracle, fault, old(State()))
    {
      if !ValidTarget(fault) { return Raised(BadValue); }
      var device := DeviceOf(fault);
      out := Run(ShowFilter(device, Preference(fault)));
      if out.Raised? { return; }
      if FilterAt(host.lab, device, Preference(fault)) { return Raised(RuntimeFailure); }
      out := Install(device);
    }

    /** clsact unless it is there, and then the rule. */
    method Install(device: Device) returns (out: Outcome)
      requires device == DeviceOf(fault)
      modifies this, host
      ensures Step(State(), out) == Spec.Install(host.oracle, fault, old(State()))
    {
      out := Run(ShowQdisc(device));
      if out.Raised? { return; }
      if device !in host.lab.clsact {
        createdClsact := true;
        cleanupRequired := true;
        out := Run(AddClsact(device));
        if out.Raised? { return; }
      }
      cleanupRequired := true;
      filterCleanup := true;
      out := Mutate(AddFilter(Rule(fault)));
    }

    method Apply() returns (out: Outcome)
      modifies this, host
      ensures Step(State(), out) == Spec.Apply(host.oracle, fault, old(State()))
    {
      if fault.kind.NoFault? || fault.kind.MutatesConfig() {
        applied := true;
        return Normal;
      }
      if fault.kind.RestartService? {
        if !ValidService(fault) { return Raised(BadValue); }
        var before;
        out, before := ContainerState(Service(fault));
        if out.Raised? { return; }
        if before == None || !before.value.running { return Raised(RuntimeFailure); }
        restartedAt := Some(before.value.startedAt);
        cleanupRequired := true;
        out := Mutate(Restart(Service(fault)));
        return;
      }
      if fault.kind.StopService? {
        cleanupRequired := true;
        if !ValidService(fault) { return Raised(BadValue); }
        out := Mutate(Stop(Service(fault)));
        return;
      }
      if fault.kind.Impairs() {
        out := ApplyImpairment();
        return;
      }
      out := Raised(BadValue);
    }

    /** One command of the rollback loop, with its confirmation when the command fails. */
    method UndoOne(c: Command) returns (failed: bool, out: Outcome)
      modifies this`history, host
      ensures Sweep(State(), if failed then 1 else 0, out) == Undo(host.oracle, fault, old(State()), c)
    {
      failed := false;
      out := Run(c);
      if out == Normal || out.exc != RuntimeFailure { return; }
      if !fault.kind.Impairs() { return true, Normal; }
      if c.DelFilter? {
        out := Run(ShowFilter(DeviceOf(fault), Preference(fault)));
        failed := out == Normal && FilterAt(host.lab, DeviceOf(fault), Preference(fault));
      } else {
        out := Run(ShowQdisc(DeviceOf(fault)));
        failed := out == Normal && DeviceOf(fault) in host.lab.clsact;
      }
      if out == Raised(RuntimeFailure) { failed, out := true, Normal; }
    }

    /** The rollback loop, with the commands that failed and are not confirmed to be unnecessary. */
    method RollBackAll(cmds: seq<Command>) returns (errors: seq<Command>, out: Outcome)
      modifies this`history, host
      ensures
        var w := SweepAll(host.oracle, fault, old(State()), cmds);
        State() == w.s && out == w.out && (out == Normal ==> |errors| == w.errors)
    {
      errors, out := [], Normal;
      ghost var whole := SweepAll(host.oracle, fault, State(), cmds);
      assert cmds[0..] == cmds;
      for i := 0 to |cmds|
        invariant State().i == old(State()).i.(history := history) && out == Normal
        invariant
          var rest := SweepAll(host.oracle, fault, State(), cmds[i..]);
          && whole.s == rest.s && whole.out == rest.out
          && (rest.out == Normal ==> whole.errors == |errors| + rest.errors)
      {
        SweepStep(host.oracle, fault, State(), cmds, i);
        if !(cmds[i].DelFilter? && !filterCleanup) {
          var failed;
          failed, out := UndoOne(cmds[i]);
          if out.Raised? { return; }
          if failed { errors := errors + [cmds[i]]; }
        }
      }
    }

    method Remove() returns (out: Outcome)
      modifies this, host
      ensures Step(State(), out) == Spec.Remove(host.oracle, fault, old(State()))
    {
      if !applied && !cleanupRequired { return Normal; }
      var commands := RollbackCommands(fault, State().i);
      if commands.None? { return Raised(BadValue); }
      var errors;
      errors, out := RollBackAll(commands.value);
      if out.Raised? { return; }
      if errors != [] { return Raised(RuntimeFailure); }
      applied := false;
      cleanupRequired := false;
    }

    method VerifyApplied() returns (ok: bool, out: Outcome)
      modifies this`history, host
      ensures Verdict(State(), ok, out) == Spec.VerifyApplied(host.oracle, fault, old(State()))
    {
      ok, out := false, Normal;
      if fault.kind.NoFault? { return true, Normal; }
      if fault.kind.ActsOnService() {
        if !ValidService(fault) { return; }
        var found;
        out, found := ContainerState(Service(fault));
        if out.Raised? { return false, Escaping(out); }
        if fault.kind.StopService? {
          ok := found != None && !found.value.running;
        } else {
          ok := found != None && found.value.running && found.value.health != Unhealthy
          && restartedAt != None && found.value.startedAt != restartedAt.value;
        }
      } else if fault.kind.Impairs() {
        if !ValidTarget(fault) { return; }
        out := Run(ShowFilter(DeviceOf(fault), Preference(fault)));
        if out.Raised? { return false, Escaping(out); }
        ok := Rule(fault) in host.lab.filters;
      }
    }

    method VerifyRemoved() returns (ok: bool, out: Outcome)
      modifies this`history, host
      ensures Verdict(State(), ok, out) == Spec.VerifyRemoved(host.oracle, fault, old(State()))
    {
      ok, out := false, Normal;
      if fault.kind.NoFault? { return true, Normal; }
      if fault.kind.ActsOnService() {
        if !ValidService(fault) { return; }
        var found;
        out, found := ContainerState(Service(fault));
        if out.Raised? { return false, Escaping(out); }
        ok := found != None && found.value.running && found.value.health != Unhealthy;
      } else if fault.kind.Impairs() {
        if !ValidTarget(fault) { return; }
        out := Run(ShowFilter(DeviceOf(fault), Preference(fault)));
        if out.Raised? { return false, Escaping(out); }
        ok := !FilterAt(host.lab, DeviceOf(fault), Preference(fault));
        if !createdClsact || !ok { return; }
        out := Run(ShowQdisc(DeviceOf(fault)));
        if out.Raised? { return false, Escaping(out); }
        ok := DeviceOf(fault) !in host.lab.clsact;
      }
    }
  }

  /** One turn of the rollback loop, as the recursive sweep sees it. */
  lemma SweepStep(o: Oracle, f: Fault, s: Sys, cmds: seq<Command>, i: nat)
    requires i < |cmds|
    ensures
      SweepAll(o, f, s, cmds[i..]) ==
      if Skipped(s.i, cmds[i]) then SweepAll(o, f, s, cmds[i + 1..])
      else
        var u := Undo(o, f, s, cmds[i]);
        if u.out.Raised? then u
        else SweepAll(o, f, u.s, cmds[i + 1..]).(errors := u.errors + SweepAll(o, f, u.s, cmds[i + 1..]).errors)
  {
    assert cmds[i..][0] == cmds[i] && cmds[i..][1..] == cmds[i + 1..];
  }

  /** RuntimeError and ValueError are caught by the verification methods. */
  function Escaping(out: Outcome): Outcome {
    if out == Raised(RuntimeFailure) || out == Raised(BadValue) then Normal else out
  }
}
