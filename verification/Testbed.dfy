/** Values shared by every module. */
module Basics {
  datatype Option<+T> = None | Some(value: T)

  /** The Python exceptions the code tells apart; Crashed stands for one that no caller
      catches, such as an OSError from starting a process. */
  datatype Exc = RuntimeFailure | BadValue | Interrupted | Crashed

  datatype Outcome = Normal | Raised(exc: Exc)

  /** A signal disposition; Raises is the handler that raises KeyboardInterrupt. */
  datatype Handler = Default | Raises | Ignored | Other(id: nat)

  datatype Arrival = Quiet | SigInt | SigTerm

  /** A signal that is not ignored cuts the running command short. */
  predicate CutShort(arrival: Arrival, sigint: Handler, sigterm: Handler) {
    (arrival == SigInt && sigint != Ignored) || (arrival == SigTerm && sigterm != Ignored)
  }

  /** One command together with the signal dispositions in force while it ran. */
  datatype Call<+C> = Call(command: C, sigint: Handler, sigterm: Handler)
}

/** The lab the commands act on, and what one command may do to it and answer. */
module Testbed {
  import opened Basics

  datatype Device = Device(service: string, iface: string)
  datatype Match = Match(protocol: string, peer: string, port: string)
  datatype Filter = Filter(device: Device, pref: nat, handle: nat, drops: Match)

  datatype Health = NoHealthcheck | Starting | Healthy | Unhealthy
  datatype Container = Container(running: bool, startedAt: nat, health: Health)

  datatype Lab = Lab(clsact: set<Device>, filters: set<Filter>, containers: map<string, Container>, clock: nat)

  datatype Command =
    | ShowFilter(device: Device, pref: nat)
    | ShowQdisc(device: Device)
    | AddClsact(device: Device)
    | DelClsact(device: Device)
    | AddFilter(filter: Filter)
    | DelFilter(device: Device, pref: nat, handle: nat)
    | Ps(service: string)
    | Inspect(service: string)
    | Stop(service: string)
    | Start(service: string)
    | Restart(service: string)
    // The orchestrator's own commands: none of them touches what the faults touch.
    | ResolveCompose | HostChecks | Baseline(phase: Phase) | Recheck(phase: Phase) | Settle | Traffic | CollectLogs
    | StopRan | StartLab | AddSubscriber | UpGnb | WaitNg | UpUe
  {
    predicate Mutates() {
      AddClsact? || DelClsact? || AddFilter? || DelFilter? || Stop? || Start? || Restart?
    }

    /** The orchestrator's own commands, which leave alone everything a fault touches. */
    predicate Own() {
      || ResolveCompose? || HostChecks? || Baseline? || Recheck? || Settle? || Traffic? || CollectLogs?
      || StopRan? || StartLab? || AddSubscriber? || UpGnb? || WaitNg? || UpUe?
    }

    /** The commands that only ever undo a fault. */
    predicate Undoes() {
      DelClsact? || DelFilter? || Start?
    }
  }

  datatype Phase = PreFault | Recovery | Current

  datatype Progress = NotStarted | Halfway | Done
  datatype Code = AsKernelSays | Exit(code: nat) | Crash

  /** What the world does with one command: how far it gets, whether a signal arrives meanwhile, how the
      command ends when no signal cuts it short, and the health its container reports afterwards.
      Exit(0) with NotStarted is a lie; Exit(1) with Done is a lost reply. */
  datatype Reply = Reply(progress: Progress, arrival: Arrival, code: Code, health: Health)

  /** The answer to the n-th command the world ever receives. */
  type Oracle = (nat, Command) -> Reply

  predicate FilterAt(lab: Lab, d: Device, pref: nat) {
    exists g :: g in lab.filters && g.device == d && g.pref == pref
  }

  predicate SlotTaken(lab: Lab, d: Device, pref: nat, handle: nat) {
    exists g :: g in lab.filters && g.device == d && g.pref == pref && g.handle == handle
  }

  /** The kernel keeps a device's egress filters inside its clsact qdisc. */
  ghost predicate ValidLab(lab: Lab) {
    && (forall g :: g in lab.filters ==> g.device in lab.clsact)
    && (forall s :: s in lab.containers ==> lab.containers[s].startedAt < lab.clock)
  }

  predicate Possible(c: Command, lab: Lab) {
    match c
    case AddClsact(d) => d !in lab.clsact
    case DelClsact(d) => d in lab.clsact
    case AddFilter(g) => g.device in lab.clsact && !SlotTaken(lab, g.device, g.pref, g.handle)
    case DelFilter(d, pref, handle) => SlotTaken(lab, d, pref, handle)
    case Inspect(s) => s in lab.containers
    case Stop(s) => s in lab.containers
    case Start(s) => s in lab.containers
    case Restart(s) => s in lab.containers
    case _ => true
  }

  function Launch(lab: Lab, s: string): Lab
    requires s in lab.containers
  {
    lab.(containers := lab.containers[s := lab.containers[s].(running := true, startedAt := lab.clock)],
    clock := lab.clock + 1)
  }

  function Halt(lab: Lab, s: string): Lab
    requires s in lab.containers
  {
    lab.(containers := lab.containers[s := lab.containers[s].(running := false)])
  }

  /** The full effect of a command; deleting clsact takes the device's filters with it. */
  function Effect(c: Command, lab: Lab): Lab {
    if !Possible(c, lab) then lab else
    match c
    case AddClsact(d) => lab.(clsact := lab.clsact + {d})
    case DelClsact(d) => lab.(clsact := lab.clsact - {d}, filters := set g | g in lab.filters && g.device != d)
    case AddFilter(g) => lab.(filters := lab.filters + {g})
    case DelFilter(d, pref, handle) =>
      lab.(filters := set g | g in lab.filters && !(g.device == d && g.pref == pref && g.handle == handle))
    case Stop(s) => Halt(lab, s)
    case Start(s) => if lab.containers[s].running then lab else Launch(lab, s)
    case Restart(s) => Launch(lab, s)
    case _ => lab
  }

  /** A restart cut in half has stopped the container; every other command is all or nothing. */
  function HalfEffect(c: Command, lab: Lab): Lab {
    if c.Restart? && c.service in lab.containers then Halt(lab, c.service) else lab
  }

  function Progressed(c: Command, lab: Lab, p: Progress): Lab {
    match p
    case NotStarted => lab
    case Halfway => HalfEffect(c, lab)
    case Done => Effect(c, lab)
  }

  /** A container's health moves on its own; it is fixed when a command about that container ends. */
  function Observed(c: Command, lab: Lab, h: Health): Lab {
    if (c.Ps? || c.Inspect? || c.Stop? || c.Start? || c.Restart?) && c.service in lab.containers then
      lab.(containers := lab.containers[c.service := lab.containers[c.service].(health := h)])
    else
      lab
  }

  function After(c: Command, lab: Lab, r: Reply): Lab {
    Observed(c, Progressed(c, lab, r.progress), r.health)
  }

  datatype World = World(lab: Lab, trace: seq<Call<Command>>, sigint: Handler, sigterm: Handler)

  datatype Ending = Exited(code: nat) | Cut | Broke

  /** run_command installs the raising handler unless SIGTERM is ignored. */
  function DuringCall(sigterm: Handler): Handler {
    if sigterm == Ignored then Ignored else Raises
  }

  function EndingOf(r: Reply, c: Command, lab: Lab, sigint: Handler, sigterm: Handler): Ending {
    if CutShort(r.arrival, sigint, sigterm) then Cut
    else match r.code
      case Crash => Broke
      case Exit(code) => Exited(code)
      case AsKernelSays => Exited(if Possible(c, lab) then 0 else 1)
  }

  datatype Sent = Sent(w: World, ending: Ending)

  function Send(o: Oracle, w: World, c: Command): Sent {
    var r := o(|w.trace|, c);
    var term := DuringCall(w.sigterm);
    Sent(w.(lab := After(c, w.lab, r), trace := w.trace + [Call(c, w.sigint, term)]),
         EndingOf(r, c, w.lab, w.sigint, term))
  }

  predicate FaithfulAt(o: Oracle, k: nat, c: Command) {
    c.Own() || (o(k, c).progress == Done && o(k, c).code == AsKernelSays)
  }

  /** From the n-th command on the oracle plays the kernel honestly in all that concerns the lab. */
  ghost predicate FaithfulFrom(o: Oracle, n: nat) {
    forall k: nat, c: Command :: k >= n ==> FaithfulAt(o, k, c)
  }

  /** Every later show command runs to its end. */
  ghost predicate ShowsAnswer(o: Oracle, w: World) {
    forall k: nat, c: Command :: k >= |w.trace| && (c.ShowFilter? || c.ShowQdisc?) ==>
      !CutShort(o(k, c).arrival, w.sigint, DuringCall(w.sigterm)) && o(k, c).code == AsKernelSays
  }

  /** No later command can be cut short: both signals are ignored, or none arrives. */
  ghost predicate Uninterrupted(o: Oracle, w: World) {
    || (w.sigint == Ignored && w.sigterm == Ignored)
    || forall k: nat, c: Command :: k >= |w.trace| ==> o(k, c).arrival == Quiet
  }

  /** From the n-th command on, a zero return code on an undo command means it was carried out. */
  ghost predicate TruthfulUndos(o: Oracle, n: nat) {
    forall k: nat, c: Command ::
      k >= n && c.Undoes() && (o(k, c).code == AsKernelSays || o(k, c).code == Exit(0)) ==> o(k, c).progress == Done
  }

  lemma SendKeepsValidLab(o: Oracle, w: World, c: Command)
    requires ValidLab(w.lab)
    ensures ValidLab(Send(o, w, c).w.lab)
  {
    var r := o(|w.trace|, c);
    var mid := Progressed(c, w.lab, r.progress);
    assert ValidLab(mid);
  }
}
