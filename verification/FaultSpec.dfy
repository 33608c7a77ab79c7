/** The fault injector as a pure state machine over the testbed: what each operation of the injector does
    under a given oracle. The class in FaultInjector.dfy is proved against these functions. */
module FaultSpec {
  import opened Basics
  import opened Testbed

  datatype FaultKind =
    | NoFault
    | SubscriberKeyMismatch | UnknownSubscriber | DnnMismatch | SnssaiMismatch
    | RestartService | StopService
    | N2Impairment | N3Impairment
    | Unsupported
  {
    predicate Impairs() { N2Impairment? || N3Impairment? }
    predicate ActsOnService() { RestartService? || StopService? }
    predicate MutatesConfig() { SubscriberKeyMismatch? || UnknownSubscriber? || DnnMismatch? || SnssaiMismatch? }
  }

  datatype Fault = Fault(kind: FaultKind, target: Option<string>, value: Option<string>)

  const ALLOWED_SERVICES: set<string> := {"amf", "smf", "upf", "gnb", "ue"}
  const ALLOWED_INTERFACES: set<string> := {"eth0", "uesimtun0", "ogstun"}

  predicate ValidService(f: Fault) {
    f.target.Some? && f.target.value in ALLOWED_SERVICES
  }

  /** `value or "eth0"`: an absent and an empty interface both mean eth0. */
  function Interface(f: Fault): string {
    if f.value == None || f.value.value == "" then "eth0" else f.value.value
  }

  predicate ValidTarget(f: Fault) {
    ValidService(f) && (f.kind.Impairs() ==> Interface(f) in ALLOWED_INTERFACES)
  }

  function Service(f: Fault): string {
    if f.target.Some? then f.target.value else ""
  }

  function DeviceOf(f: Fault): Device {
    Device(Service(f), Interface(f))
  }

  function Preference(f: Fault): nat {
    if f.kind.N2Impairment? then 38412 else 2152
  }

  /** The one filter the impairment installs. */
  function Rule(f: Fault): Filter {
    if f.kind.N2Impairment? then
      Filter(DeviceOf(f), Preference(f), 0x4e32, Match("sctp", "10.45.0.20", "38412"))
    else
      Filter(DeviceOf(f), Preference(f), 0x4e33, Match("udp", "10.45.0.30", "2152"))
  }

  datatype Injector = Injector(
    applied: bool, cleanupRequired: bool, createdClsact: bool, filterCleanup: bool,
    restartedAt: Option<nat>, history: seq<Command>)

  const FRESH := Injector(false, false, false, false, None, [])

  datatype Sys = Sys(w: World, i: Injector)
  datatype Step = Step(s: Sys, out: Outcome)

  function OutcomeOf(e: Ending): Outcome {
    match e
    case Exited(code) => if code == 0 then Normal else Raised(RuntimeFailure)
    case Cut => Raised(Interrupted)
    case Broke => Raised(Crashed)
  }

  /** `_run`: a non-zero return code becomes RuntimeError; signals and other errors pass through. */
  function Run(o: Oracle, s: Sys, c: Command): Step {
    var sent := Send(o, s.w, c);
    Step(Sys(sent.w, s.i.(history := s.i.history + [c])), OutcomeOf(sent.ending))
  }

  datatype Look = Look(s: Sys, out: Outcome, found: Option<Container>)

  /** `_container_state` */
  function Examine(o: Oracle, s: Sys, service: string): Look {
    var ps := Run(o, s, Ps(service));
    if ps.out.Raised? then Look(ps.s, ps.out, None)
    else if service !in ps.s.w.lab.containers then Look(ps.s, Normal, None)
    else
      var ins := Run(o, ps.s, Inspect(service));
      if ins.out.Raised? then Look(ins.s, ins.out, None)
      else
        var containers := ins.s.w.lab.containers;
        Look(ins.s, Normal, if service in containers then Some(containers[service]) else None)
  }

  // ---- apply ----

  function Finish(t: Step): Step {
    if t.out.Raised? then t else Step(t.s.(i := t.s.i.(applied := true)), Normal)
  }

  function Armed(s: Sys): Sys {
    s.(i := s.i.(cleanupRequired := true))
  }

  function InstallClsact(o: Oracle, f: Fault, s: Sys): Step {
    if DeviceOf(f) in s.w.lab.clsact then Step(s, Normal)
    else Run(o, Armed(s.(i := s.i.(createdClsact := true))), AddClsact(DeviceOf(f)))
  }

  function InstallFilter(o: Oracle, f: Fault, s: Sys): Step {
    Finish(Run(o, Armed(s.(i := s.i.(filterCleanup := true))), AddFilter(Rule(f))))
  }

  function Install(o: Oracle, f: Fault, s: Sys): Step {
    var q := Run(o, s, ShowQdisc(DeviceOf(f)));
    if q.out.Raised? then q
    else
      var a := InstallClsact(o, f, q.s);
      if a.out.Raised? then a else InstallFilter(o, f, a.s)
  }

  function ApplyImpairment(o: Oracle, f: Fault, s: Sys): Step {
    if !ValidTarget(f) then Step(s, Raised(BadValue))
    else
      var show := Run(o, s, ShowFilter(DeviceOf(f), Preference(f)));
      if show.out.Raised? then show
      else if FilterAt(show.s.w.lab, DeviceOf(f), Preference(f)) then Step(show.s, Raised(RuntimeFailure))
      else Install(o, f, show.s)
  }

  function ApplyRestart(o: Oracle, f: Fault, s: Sys): Step {
    if !ValidService(f) then Step(s, Raised(BadValue))
    else
      var look := Examine(o, s, Service(f));
      if look.out.Raised? then Step(look.s, look.out)
      else if look.found == None || !look.found.value.running then Step(look.s, Raised(RuntimeFailure))
      else
        var s' := Armed(look.s.(i := look.s.i.(restartedAt := Some(look.found.value.startedAt))));
        Finish(Run(o, s', Restart(Service(f))))
  }

  function ApplyStop(o: Oracle, f: Fault, s: Sys): Step {
    if !ValidService(f) then Step(Armed(s), Raised(BadValue))
    else Finish(Run(o, Armed(s), Stop(Service(f))))
  }

  function Apply(o: Oracle, f: Fault, s: Sys): Step {
    if f.kind.NoFault? || f.kind.MutatesConfig() then Finish(Step(s, Normal))
    else if f.kind.RestartService? then ApplyRestart(o, f, s)
    else if f.kind.StopService? then ApplyStop(o, f, s)
    else if f.kind.Impairs() then ApplyImpairment(o, f, s)
    else Step(s, Raised(BadValue))
  }

  // ---- remove ----

  /** `rollback_commands`; None when building them raises ValueError. */
  function RollbackCommands(f: Fault, i: Injector): Option<seq<Command>> {
    if f.kind.ActsOnService() then
      if ValidService(f) then Some([Start(Service(f))]) else None
    else if f.kind.Impairs() then
      if !ValidTarget(f) then None
      else
        var del := DelFilter(DeviceOf(f), Preference(f), Rule(f).handle);
        Some(if i.createdClsact then [del, DelClsact(DeviceOf(f))] else [del])
    else Some([])
  }

  predicate Skipped(i: Injector, c: Command) {
    c.DelFilter? && !i.filterCleanup
  }

  /** A rollback pass in progress: how many commands failed without the thing being confirmed absent. */
  datatype Sweep = Sweep(s: Sys, errors: nat, out: Outcome)

  function ConfirmAbsent(o: Oracle, f: Fault, s: Sys, c: Command): Sweep {
    if !f.kind.Impairs() then Sweep(s, 1, Normal)
    else
      var look := Run(o, s, if c.DelFilter? then ShowFilter(DeviceOf(f), Preference(f)) else ShowQdisc(DeviceOf(f)));
      if look.out == Normal then
        var absent := if c.DelFilter? then !FilterAt(look.s.w.lab, DeviceOf(f), Preference(f))
                      else DeviceOf(f) !in look.s.w.lab.clsact;
        Sweep(look.s, if absent then 0 else 1, Normal)
      else if look.out.exc == RuntimeFailure then Sweep(look.s, 1, Normal)
      else Sweep(look.s, 0, look.out)
  }

  function Undo(o: Oracle, f: Fault, s: Sys, c: Command): Sweep {
    var r := Run(o, s, c);
    if r.out == Normal then Sweep(r.s, 0, Normal)
    else if r.out.exc != RuntimeFailure then Sweep(r.s, 0, r.out)
    else ConfirmAbsent(o, f, r.s, c)
  }

  function SweepAll(o: Oracle, f: Fault, s: Sys, cmds: seq<Command>): Sweep
    decreases |cmds|
  {
    if cmds == [] then Sweep(s, 0, Normal)
    else if Skipped(s.i, cmds[0]) then SweepAll(o, f, s, cmds[1..])
    else
      var u := Undo(o, f, s, cmds[0]);
      if u.out.Raised? then u
      else
        var rest := SweepAll(o, f, u.s, cmds[1..]);
        rest.(errors := u.errors + rest.errors)
  }

  function Settled(w: Sweep): Step {
    if w.out.Raised? then Step(w.s, w.out)
    else if w.errors > 0 then Step(w.s, Raised(RuntimeFailure))
    else Step(w.s.(i := w.s.i.(applied := false, cleanupRequired := false)), Normal)
  }

  function Remove(o: Oracle, f: Fault, s: Sys): Step {
    if !s.i.applied && !s.i.cleanupRequired then Step(s, Normal)
    else
      match RollbackCommands(f, s.i)
      case None => Step(s, Raised(BadValue))
      case Some(cmds) => Settled(SweepAll(o, f, s, cmds))
  }

  // ---- verification ----

  datatype Verdict = Verdict(s: Sys, ok: bool, out: Outcome)

  /** RuntimeError and ValueError count as "not verified"; anything else escapes. */
  function Caught(s: Sys, out: Outcome): Verdict
    requires out.Raised?
  {
    Verdict(s, false, if out.exc == RuntimeFailure || out.exc == BadValue then Normal else out)
  }

  function VerifyApplied(o: Oracle, f: Fault, s: Sys): Verdict {
    if f.kind.NoFault? then Verdict(s, true, Normal)
    else if f.kind.ActsOnService() then
      if !ValidService(f) then Verdict(s, false, Normal)
      else
        var look := Examine(o, s, Service(f));
        if look.out.Raised? then Caught(look.s, look.out)
        else if f.kind.StopService? then Verdict(look.s, look.found.Some? && !look.found.value.running, Normal)
        else
          Verdict(look.s,
                  && look.found.Some? && look.found.value.running && look.found.value.health != Unhealthy
                  && s.i.restartedAt.Some? && look.found.value.startedAt != s.i.restartedAt.value,
                  Normal)
    else if f.kind.Impairs() then
      if !ValidTarget(f) then Verdict(s, false, Normal)
      else
        var show := Run(o, s, ShowFilter(DeviceOf(f), Preference(f)));
        if show.out.Raised? then Caught(show.s, show.out)
        else Verdict(show.s, Rule(f) in show.s.w.lab.filters, Normal)
    else Verdict(s, false, Normal)
  }

  function VerifyImpairmentRemoved(o: Oracle, f: Fault, s: Sys): Verdict {
    if !ValidTarget(f) then Verdict(s, false, Normal)
    else
      var show := Run(o, s, ShowFilter(DeviceOf(f), Preference(f)));
      if show.out.Raised? then Caught(show.s, show.out)
      else
        var gone := !FilterAt(show.s.w.lab, DeviceOf(f), Preference(f));
        if !s.i.createdClsact || !gone then Verdict(show.s, gone, Normal)
        else
          var q := Run(o, show.s, ShowQdisc(DeviceOf(f)));
          if q.out.Raised? then Caught(q.s, q.out)
          else Verdict(q.s, DeviceOf(f) !in q.s.w.lab.clsact, Normal)
  }

  function VerifyRemoved(o: Oracle, f: Fault, s: Sys): Verdict {
    if f.kind.NoFault? then Verdict(s, true, Normal)
    else if f.kind.ActsOnService() then
      if !ValidService(f) then Verdict(s, false, Normal)
      else
        var look := Examine(o, s, Service(f));
        if look.out.Raised? then Caught(look.s, look.out)
        else
          Verdict(look.s,
                  look.found.Some? && look.found.value.running && look.found.value.health != Unhealthy,
                  Normal)
    else if f.kind.Impairs() then VerifyImpairmentRemoved(o, f, s)
    else Verdict(s, false, Normal)
  }
}
