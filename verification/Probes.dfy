/** The isolated probe runner: a plan of one-off containers, each removed and confirmed absent before the next
    one starts, whatever the commands answer and whenever a signal arrives. */
module Probes {
  import opened Basics
  import opened Assertions

  datatype Role = Init | Logs | Bootstrap | Mongo
  datatype Probe = Probe(service: string, role: Role)

  /** The containers of the k-th probe: its own, and the one that removes its file from the log volume. */
  datatype Name = Own(k: nat) | Companion(k: nat) | Foreign(id: nat)

  const OPEN5GS_NFS: seq<string> := ["nrf", "ausf", "udm", "udr", "bsf", "pcf", "amf", "smf", "upf"]

  function Plan(mongodb: bool): seq<Probe> {
    [Probe("log-init", Init)]
    + seq(|OPEN5GS_NFS|, i requires 0 <= i < |OPEN5GS_NFS| => Probe(OPEN5GS_NFS[i], Logs))
    + [Probe("upf", Bootstrap)]
    + if mongodb then [Probe("mongodb", Mongo)] else []
  }

  /** The log directory first, then one log probe for every network function, then the UPF bootstrap, and MongoDB
      exactly when it is asked for. */
  lemma PlanCovers(mongodb: bool)
    ensures var plan := Plan(mongodb);
      && |plan| == 2 + |OPEN5GS_NFS| + (if mongodb then 1 else 0)
      && plan[0] == Probe("log-init", Init) && plan[1 + |OPEN5GS_NFS|] == Probe("upf", Bootstrap)
      && (forall i :: 0 <= i < |OPEN5GS_NFS| ==> plan[1 + i] == Probe(OPEN5GS_NFS[i], Logs))
      && (mongodb ==> plan[2 + |OPEN5GS_NFS|] == Probe("mongodb", Mongo))
  {
  }

  /** The log probes are those of the nine network functions, and every image a probe needs is inspected first. */
  lemma PlanIsPrepared(mongodb: bool, s: string)
    ensures Probe(s, Logs) in Plan(mongodb) <==>
      || s == "nrf" || s == "ausf" || s == "udm" || s == "udr" || s == "bsf" || s == "pcf" || s == "amf" || s == "smf"
      || s == "upf"
    ensures forall probe :: probe in Plan(mongodb) && probe.service == s ==> s in Images(mongodb)
    ensures s in Images(mongodb) ==> exists role :: Probe(s, role) in Plan(mongodb)
  {
    assert s in OPEN5GS_NFS <==>
      || s == "nrf" || s == "ausf" || s == "udm" || s == "udr" || s == "bsf" || s == "pcf" || s == "amf" || s == "smf"
      || s == "upf" by {
      assert OPEN5GS_NFS[0] == "nrf" && OPEN5GS_NFS[1] == "ausf" && OPEN5GS_NFS[2] == "udm" && OPEN5GS_NFS[3] == "udr"
        && OPEN5GS_NFS[4] == "bsf" && OPEN5GS_NFS[5] == "pcf" && OPEN5GS_NFS[6] == "amf" && OPEN5GS_NFS[7] == "smf"
        && OPEN5GS_NFS[8] == "upf";
    }
    PlanCovers(mongodb);
    var plan := Plan(mongodb);
    if s in OPEN5GS_NFS {
      var i :| 0 <= i < |OPEN5GS_NFS| && OPEN5GS_NFS[i] == s;
      assert plan[1 + i] == Probe(s, Logs);
    }
    assert Probe("log-init", Init) in plan && (mongodb ==> Probe("mongodb", Mongo) in plan);
  }

  function Images(mongodb: bool): seq<string> {
    ["log-init"] + OPEN5GS_NFS + if mongodb then ["mongodb"] else []
  }

  datatype Command =
    | DockerInfo | ComposeVersion | ResolveCompose | InspectImage(service: string) | CreateVolume
    | Start(k: nat, probe: Probe) | CleanFile(k: nat) | Rm(name: Name) | Ps(name: Name)

  /** What the world does with one command: its return code (None: an exception that is no signal), whether its
      output is the wanted one, the signal that arrives meanwhile, and what it leaves behind: a container, a
      container it should have removed, a file. */
  datatype Reply = Reply(code: Option<nat>, says: bool, arrival: Arrival, leaves: bool, wrote: bool)
  type Oracle = (nat, Command) -> Reply

  function ContainersAfter(c: Command, containers: set<Name>, r: Reply): set<Name> {
    match c
    case Start(k, _) => if r.leaves then containers + {Own(k)} else containers
    case CleanFile(k) => if r.leaves then containers + {Companion(k)} else containers
    case Rm(name) => if r.leaves then containers else containers - {name}
    case _ => containers
  }

  /** The file removal ends with a test that the file is gone, so a zero return code is its word for it. */
  function FilesAfter(c: Command, files: set<nat>, r: Reply): set<nat> {
    match c
    case Start(k, probe) => if probe.role.Logs? && r.wrote then files + {k} else files
    case CleanFile(k) => if r.code == Some(0) || !r.wrote then files - {k} else files
    case _ => files
  }

  datatype About =
    | Environment | Compose | Contract(item: nat) | Image(service: string) | LogVolume
    | ProbeResult(probe: Probe) | FileCleanup(file: nat) | ContainerCleanup(name: Name)

  datatype Check = Check(about: About, status: ResultStatus)

  predicate AllPass(checks: seq<Check>) {
    forall c :: c in checks ==> c.status == Pass
  }

  /** The checks only ever pass, fail or block. */
  predicate Decided(checks: seq<Check>) {
    forall c :: c in checks ==> c.status == Pass || c.status == Fail || c.status == Blocked
  }

  /** None of these is the result of a probe itself. */
  predicate OnlyCleanup(checks: seq<Check>) {
    forall c :: c in checks ==> !c.about.ProbeResult?
  }

  predicate Without(checks: seq<Check>, status: ResultStatus) {
    forall c :: c in checks ==> c.status != status
  }

  function CapabilityStatus(checks: seq<Check>): (status: ResultStatus)
    ensures status == Pass || status == Fail || status == Blocked
    ensures Decided(checks) ==> (status == Pass <==> AllPass(checks))
    ensures status == Fail <==> !Without(checks, Fail)
    ensures status == Blocked <==> Without(checks, Fail) && !Without(checks, Blocked)
  {
    if exists c :: c in checks && c.status == Fail then Fail
    else if exists c :: c in checks && c.status == Blocked then Blocked
    else Pass
  }

  // ---- what one probe issues, and what the whole plan issues ----

  function Script(k: nat, probe: Probe): seq<Command> {
    [Start(k, probe), Rm(Own(k)), Ps(Own(k))]
    + if probe.role.Logs? then [CleanFile(k), Rm(Companion(k)), Ps(Companion(k))] else []
  }

  function Scripts(plan: seq<Probe>, m: nat): seq<Command>
    requires m <= |plan|
  {
    if m == 0 then [] else Scripts(plan, m - 1) + Script(m - 1, plan[m - 1])
  }

  function Issued(trace: seq<Call<Command>>): seq<Command> {
    seq(|trace|, i requires 0 <= i < |trace| => trace[i].command)
  }

  /** From the n-th command on, everything but a probe itself ran with both signals ignored. */
  ghost predicate CleanupMasked(trace: seq<Call<Command>>, n: nat) {
    forall i :: n <= i < |trace| && !trace[i].command.Start? ==>
      trace[i].sigint == Ignored && trace[i].sigterm == Ignored
  }

  /** The command issued n-th returned zero, and said what was wanted when its output is looked at. */
  ghost predicate Succeeded(o: Oracle, n: nat, c: Command) {
    o(n, c).code == Some(0) && (c.DockerInfo? || c.InspectImage? || c.Start? ==> o(n, c).says)
  }

  predicate Faithful(r: Reply, c: Command) {
    r.code == Some(0) && r.says && r.arrival == Quiet && (c.Rm? ==> !r.leaves)
  }

  ghost predicate FaithfulAt(o: Oracle, n: nat, c: Command) {
    Faithful(o(n, c), c)
  }

  /** Every command succeeds and does what it is for; no signal arrives. */
  ghost predicate Honest(o: Oracle) {
    forall n: nat, c: Command :: FaithfulAt(o, n, c)
  }

  predicate NamesOf(k: nat, name: Name) {
    name == Own(k) || name == Companion(k)
  }

  /** The containers the k-th probe may leave. */
  function ContainersOf(k: nat, probe: Probe): set<Name> {
    {Own(k)} + if probe.role.Logs? then {Companion(k)} else {}
  }

  ghost predicate ListedAt(o: Oracle, trace: seq<Call<Command>>, i: nat, name: Name) {
    i < |trace| && trace[i].command == Ps(name) && o(i, Ps(name)).code == Some(0)
  }

  /** A listing that asked for the container has worked. */
  ghost predicate Listed(o: Oracle, trace: seq<Call<Command>>, name: Name) {
    exists i :: ListedAt(o, trace, i, name)
  }

  lemma StillListed(o: Oracle, a: seq<Call<Command>>, b: seq<Call<Command>>, name: Name)
    requires a <= b && Listed(o, a, name)
    ensures Listed(o, b, name)
  {
    var i :| ListedAt(o, a, i, name);
    assert ListedAt(o, b, i, name);
  }

  /** The container is gone and a listing has said so, or a failed check names it. */
  ghost predicate Settled(o: Oracle, trace: seq<Call<Command>>, containers: set<Name>, name: Name, checks: seq<Check>) {
    (name !in containers && Listed(o, trace, name)) || Check(ContainerCleanup(name), Fail) in checks
  }

  /** The checks of the k-th probe settle all its containers, and name those still there. */
  ghost predicate Accounted(
    o: Oracle, k: nat, probe: Probe, trace: seq<Call<Command>>, containers: set<Name>, before: set<Name>,
    checks: seq<Check>)
  {
    CleanedUp(o, k, probe, trace, containers, checks) && (AllPass(checks) ==> containers == before)
  }

  ghost predicate CleanedUp(
    o: Oracle, k: nat, probe: Probe, trace: seq<Call<Command>>, containers: set<Name>, checks: seq<Check>)
  {
    && Decided(checks)
    && (forall name :: name in containers && NamesOf(k, name) ==> Check(ContainerCleanup(name), Fail) in checks)
    && (forall name :: name in ContainersOf(k, probe) ==> Settled(o, trace, containers, name, checks))
  }

  /** The checks of the cleanup account for a probe together with its own. */
  lemma AccountedWhole(
    o: Oracle, k: nat, probe: Probe, trace: seq<Call<Command>>, before: set<Name>, mid: set<Name>, after: set<Name>,
    own: seq<Check>, cleanup: seq<Check>)
    requires Decided(own) && CleanedUp(o, k, probe, trace, after, cleanup)
    requires before <= mid <= before + {Own(k)} && Own(k) !in before
    requires AllPass(cleanup) ==> after == mid - {Own(k)}
    ensures Accounted(o, k, probe, trace, after, before, own + cleanup)
    ensures AllPass(own + cleanup) <==> AllPass(own) && AllPass(cleanup)
  {
    AllPassBoth(own, cleanup);
    forall name | name in ContainersOf(k, probe) ensures Settled(o, trace, after, name, own + cleanup) {
      assert Settled(o, trace, after, name, cleanup);
    }
  }

  /** A probe passes exactly when it was not cut short, exited with zero and printed its marker; an exception that is no
      interruption stays pending. */
  ghost predicate ProbeTold(
    o: Oracle, probe: Probe, k: nat, n: nat, sigint: Handler, sigterm: Handler, pending: Outcome, checks: seq<Check>)
  {
    var r := o(n, Start(k, probe));
    var cut := CutShort(r.arrival, sigint, sigterm);
    && |checks| == 1 && checks[0].about == ProbeResult(probe) && (checks[0].status == Pass || checks[0].status == Fail)
    && (checks[0].status == Pass <==> !cut && Succeeded(o, n, Start(k, probe)))
    && (pending == Raised(Crashed) <==> !cut && r.code == None)
  }

  /** Among all the checks of a probe, SIGTERM interrupting it, its own one passes exactly when it did. */
  ghost predicate ProbeReported(o: Oracle, probe: Probe, k: nat, n: nat, sigint: Handler, checks: seq<Check>) {
    && Without(checks, Blocked)
    && (Check(ProbeResult(probe), Pass) in checks <==>
          Succeeded(o, n, Start(k, probe)) && !CutShort(o(n, Start(k, probe)).arrival, sigint, Raises))
  }

  lemma ToldAmong(
    o: Oracle, probe: Probe, k: nat, n: nat, sigint: Handler, pending: Outcome, own: seq<Check>, cleanup: seq<Check>)
    requires ProbeTold(o, probe, k, n, sigint, Raises, pending, own)
    requires Without(cleanup, Blocked) && OnlyCleanup(cleanup)
    ensures ProbeReported(o, probe, k, n, sigint, own + cleanup)
  {
    assert own == [own[0]];
  }

  class Runner {
    const oracle: Oracle
    var containers: set<Name>
    var files: set<nat>
    var trace: seq<Call<Command>>
    var sigint: Handler
    var sigterm: Handler

    /** execute: a missing program is return code 127, a timeout 124; a signal becomes KeyboardInterrupt. */
    method Execute(c: Command) returns (out: Outcome, code: nat, says: bool)
      modifies this`containers, this`files, this`trace
      ensures
        var r := oracle(|old(trace)|, c);
        && containers == ContainersAfter(c, old(containers), r) && files == FilesAfter(c, old(files), r)
        && trace == old(trace) + [Call(c, sigint, sigterm)] && says == r.says
        && (out == Raised(Interrupted) <==> CutShort(r.arrival, sigint, sigterm))
        && (out == Normal ==> r.code == Some(code))
        && (out == Raised(Crashed) <==> !CutShort(r.arrival, sigint, sigterm) && r.code == None)
        && (out == Normal || out == Raised(Interrupted) || out == Raised(Crashed))
        && (Honest(oracle) ==> FaithfulAt(oracle, |old(trace)|, c))
    {
      var r := oracle(|trace|, c);
      containers, files := ContainersAfter(c, containers, r), FilesAfter(c, files, r);
      trace, says, code := trace + [Call(c, sigint, sigterm)], r.says, 0;
      if CutShort(r.arrival, sigint, sigterm) { out := Raised(Interrupted); }
      else if r.code == None { out := Raised(Crashed); }
      else { out, code := Normal, r.code.value; }
    }

    /** A container is reported absent exactly when the listing worked and does not show it. */
    method CleanupProbe(name: Name) returns (out: Outcome, check: Check)
      requires sigint == Ignored && sigterm == Ignored
      modifies this`containers, this`files, this`trace
      ensures out == Normal || out == Raised(Crashed)
      ensures files == old(files) && (containers == old(containers) || containers == old(containers) - {name})
      ensures CleanupMasked(trace, |old(trace)|) && old(trace) <= trace
      ensures out == Normal ==>
        && Issued(trace) == Issued(old(trace)) + [Rm(name), Ps(name)]
        && check.about == ContainerCleanup(name) && (check.status == Pass || check.status == Fail)
        && (check.status == Pass <==> name !in containers && oracle(|old(trace)| + 1, Ps(name)).code == Some(0))
        && (check.status == Pass ==> Listed(oracle, trace, name))
      ensures Honest(oracle) ==> out == Normal && check.status == Pass
    {
      check := Check(ContainerCleanup(name), Fail);
      var code, says;
      out, code, says := Execute(Rm(name));
      if out.Raised? { return; }
      out, code, says := Execute(Ps(name));
      if out.Raised? { return; }
      if code == 0 && name !in containers { check := Check(ContainerCleanup(name), Pass); }
      assert code == 0 ==> ListedAt(oracle, trace, |old(trace)| + 1, name);
      assert Issued(trace) == Issued(old(trace)) + [Rm(name), Ps(name)];
    }

    method CleanupLogFile(k: nat) returns (out: Outcome, checks: seq<Check>)
      requires sigint == Ignored && sigterm == Ignored
      modifies this`containers, this`files, this`trace
      ensures out == Normal || out == Raised(Crashed)
      ensures old(containers) - {Companion(k)} <= containers <= old(containers) + {Companion(k)}
      ensures files == old(files) || files == old(files) - {k}
      ensures CleanupMasked(trace, |old(trace)|) && old(trace) <= trace
      ensures out == Normal ==>
        && Issued(trace) == Issued(old(trace)) + [CleanFile(k), Rm(Companion(k)), Ps(Companion(k))]
        && Decided(checks) && (Companion(k) in containers ==> Check(ContainerCleanup(Companion(k)), Fail) in checks)
        && Settled(oracle, trace, containers, Companion(k), checks)
        && (AllPass(checks) ==> Companion(k) !in containers && k !in files)
        && Without(checks, Blocked) && OnlyCleanup(checks)
        && Check(FileCleanup(k), if oracle(|old(trace)|, CleanFile(k)).code == Some(0) then Pass else Fail) in checks
      ensures Honest(oracle) ==> out == Normal && AllPass(checks)
    {
      checks := [];
      var code, says, check;
      out, code, says := Execute(CleanFile(k));
      if out.Raised? { return; }
      var file := Check(FileCleanup(k), if code == 0 then Pass else Fail);
      out, check := CleanupProbe(Companion(k));
      checks := [file, check];
      if out == Normal {
        assert Issued(trace) == Issued(old(trace)) + [CleanFile(k), Rm(Companion(k)), Ps(Companion(k))];
        assert checks[0] == file && checks[1] == check;
      }
    }

    /** run_probe: the probe may be interrupted or blow up; its containers are removed all the same, with both
        signals ignored, and both dispositions are put back on every path. */
    method RunProbe(k: nat, probe: Probe) returns (out: Outcome, checks: seq<Check>)
      requires Own(k) !in containers && Companion(k) !in containers && k !in files
      modifies this
      ensures sigint == old(sigint) && sigterm == old(sigterm)
      ensures out == Normal || out == Raised(Crashed)
      ensures old(trace) <= trace && CleanupMasked(trace, |old(trace)|)
      ensures old(containers) <= containers <= old(containers) + {Own(k), Companion(k)}
      ensures old(files) <= files <= old(files) + {k}
      ensures out == Normal ==> Issued(trace) == Issued(old(trace)) + Script(k, probe)
      ensures out == Normal && AllPass(checks) ==>
        files == old(files) && Succeeded(oracle, |old(trace)|, Start(k, probe))
      ensures out == Normal ==> Accounted(oracle, k, probe, trace, containers, old(containers), checks)
      ensures out == Normal ==> ProbeReported(oracle, probe, k, |old(trace)|, old(sigint), checks)
      ensures Honest(oracle) ==> out == Normal && AllPass(checks)
    {
      var previousTerm := sigterm;
      sigterm := Raises;
      var pending;
      pending, checks := TryProbe(k, probe);
      ghost var started, mid := trace, containers;
      var previousInt := sigint;
      sigint, sigterm := Ignored, Ignored;
      var cleanup;
      out, cleanup := CleanupAfter(k, probe);
      sigint, sigterm := previousInt, previousTerm;
      MaskedOneMore(old(trace), started, trace);
      Regroup(Issued(old(trace)), [Start(k, probe)], Script(k, probe)[1..]);
      if out == Normal {
        AccountedWhole(oracle, k, probe, trace, old(containers), mid, containers, checks, cleanup);
        ToldAmong(oracle, probe, k, |old(trace)|, previousInt, pending, checks, cleanup);
      }
      checks := checks + cleanup;
      if out == Normal { out := pending; }
    }

    /** The try block: an interruption is a failed check, any other exception is pending. */
    method TryProbe(k: nat, probe: Probe) returns (pending: Outcome, checks: seq<Check>)
      modifies this`containers, this`files, this`trace
      ensures pending == Normal || pending == Raised(Crashed)
      ensures old(containers) <= containers <= old(containers) + {Own(k)}
      ensures old(files) <= files <= old(files) + {k} && (!probe.role.Logs? ==> files == old(files))
      ensures old(trace) <= trace && CleanupMasked(trace, |old(trace)|)
      ensures Issued(trace) == Issued(old(trace)) + [Start(k, probe)]
      ensures ProbeTold(oracle, probe, k, |old(trace)|, sigint, sigterm, pending, checks)
      ensures Honest(oracle) ==> pending == Normal && AllPass(checks)
    {
      var code, says;
      pending, code, says := Execute(Start(k, probe));
      var check := Check(ProbeResult(probe), if pending == Normal && code == 0 && says then Pass else Fail);
      if pending == Raised(Interrupted) { pending := Normal; }
      checks := [check];
      assert checks[0] == check;
      assert Issued(trace) == Issued(old(trace)) + [Start(k, probe)];
    }

    /** The body of the finally block. */
    method CleanupAfter(k: nat, probe: Probe) returns (out: Outcome, checks: seq<Check>)
      requires sigint == Ignored && sigterm == Ignored && Companion(k) !in containers
      modifies this`containers, this`files, this`trace
      ensures out == Normal || out == Raised(Crashed)
      ensures old(trace) <= trace && CleanupMasked(trace, |old(trace)|)
      ensures old(containers) - {Own(k)} <= containers <= old(containers) + {Companion(k)}
      ensures old(files) - {k} <= files <= old(files)
      ensures out == Normal ==>
        && Issued(trace) == Issued(old(trace)) + Script(k, probe)[1..]
        && CleanedUp(oracle, k, probe, trace, containers, checks)
        && (AllPass(checks) ==>
              containers == old(containers) - {Own(k)} && (probe.role.Logs? ==> k !in files))
        && Without(checks, Blocked) && OnlyCleanup(checks)
      ensures Honest(oracle) ==> out == Normal && AllPass(checks)
    {
      var check, more;
      out, check := CleanupProbe(Own(k));
      checks := [check];
      if out.Raised? { return; }
      assert checks[0] == check;
      ghost var mid := trace;
      ghost var between := containers;
      if probe.role.Logs? {
        out, more := CleanupLogFile(k);
        if out == Normal { CleanedBoth(oracle, k, probe, mid, trace, between, containers, checks, more); }
        checks := checks + more;
      }
    }

    /** A stage before the probes: its check passes exactly when the command succeeded. */
    method Stage(c: Command, about: About, otherwise: ResultStatus) returns (out: Outcome, checks: seq<Check>)
      requires !c.Start? && !c.CleanFile? && !c.Rm? && (otherwise == Fail || otherwise == Blocked)
      modifies this`containers, this`files, this`trace
      ensures containers == old(containers) && files == old(files)
      ensures |trace| == |old(trace)| + 1 && old(trace) <= trace && trace[|old(trace)|].command == c
      ensures out == Normal ==>
        && Decided(checks) && (AllPass(checks) <==> Through(oracle, old(trace), trace, [c]))
        && Without(checks, if otherwise == Fail then Blocked else Fail) && forall x :: x in checks ==> x.about == about
      ensures Honest(oracle) ==> out == Normal && AllPass(checks)
    {
      var code, says;
      out, code, says := Execute(c);
      var ok := code == 0 && (c.DockerInfo? || c.InspectImage? ==> says);
      checks := [Check(about, if ok then Pass else otherwise)];
      assert checks[0].status == (if ok then Pass else otherwise);
      assert Issued(trace) == Issued(old(trace)) + [c];
    }

    /** runtime_tools */
    method RuntimeTools(linux: bool) returns (out: Outcome, checks: seq<Check>)
      modifies this`containers, this`files, this`trace
      ensures containers == old(containers) && files == old(files) && old(trace) <= trace
      ensures out == Normal ==>
        && Decided(checks)
        && (AllPass(checks) ==> linux && Through(oracle, old(trace), trace, [DockerInfo, ComposeVersion]))
        && Without(checks, Fail) && (AllPass(checks) || Unready(linux, old(trace), trace))
      ensures Honest(oracle) && linux ==> out == Normal && AllPass(checks)
    {
      var environment := Check(Environment, Blocked);
      if !linux {
        assert [environment][0].status == Blocked;
        return Normal, [environment];
      }
      out, checks := Stage(DockerInfo, Environment, Blocked);
      if out.Raised? || !AllPass(checks) { return; }
      ghost var mid := trace;
      out, checks := Stage(ComposeVersion, Environment, Blocked);
      ThroughBoth(oracle, old(trace), mid, trace, [DockerInfo], [ComposeVersion]);
    }

    /** The resolved compose file and its contract. */
    method ResolveContract(contract: Option<seq<bool>>) returns (out: Outcome, checks: seq<Check>)
      modifies this`containers, this`files, this`trace
      ensures containers == old(containers) && files == old(files) && old(trace) <= trace
      ensures out == Normal ==>
        && Decided(checks)
        && (AllPass(checks) <==> Clean(contract) && Through(oracle, old(trace), trace, [ResolveCompose]))
        && Without(checks, Blocked) && |trace| == |old(trace)| + 1 && trace[|old(trace)|].command == ResolveCompose
      ensures Honest(oracle) && Clean(contract) ==> out == Normal && AllPass(checks)
    {
      out, checks := Stage(ResolveCompose, Compose, Fail);
      if out.Raised? || !AllPass(checks) { return; }
      if contract == None {
        checks := [Check(Compose, Fail)];
        assert checks[0].status == Fail;
        return;
      }
      checks := ContractFailures(contract.value);
      assert checks != [] ==> checks[0] in checks;
    }

    /** Every stage up to the log volume. A stage that does not pass is the last one. */
    method RunStages(linux: bool, contract: Option<seq<bool>>, mongodb: bool) returns (out: Outcome, checks: seq<Check>)
      modifies this`containers, this`files, this`trace
      ensures containers == old(containers) && files == old(files) && old(trace) <= trace
      ensures out == Normal ==> Decided(checks) && StagesTold(linux, old(trace), trace, CapabilityStatus(checks))
      ensures out == Normal && AllPass(checks) ==>
        linux && Clean(contract) && Through(oracle, old(trace), trace, StageScript(mongodb))
      ensures Honest(oracle) && linux && Clean(contract) ==> out == Normal && AllPass(checks)
    {
      out, checks := RuntimeTools(linux);
      if out.Raised? || !AllPass(checks) { return; }
      ghost var t1 := trace;
      var next;
      out, next := ResolveContract(contract);
      if out.Raised? || !AllPass(next) { return out, next; }
      ghost var t2 := trace;
      ThroughBoth(oracle, old(trace), t1, t2, [DockerInfo, ComposeVersion], [ResolveCompose]);
      out, next := PrepareProbes(mongodb);
      AllPassBoth(checks, next);
      StatusBoth(checks, next);
      checks := checks + next;
      ThroughBoth(oracle, old(trace), t2, trace, [DockerInfo, ComposeVersion] + [ResolveCompose], Preparation(mongodb));
    }

    /** The images must all be there before the log volume is created. */
    method PrepareProbes(mongodb: bool) returns (out: Outcome, checks: seq<Check>)
      modifies this`containers, this`files, this`trace
      ensures containers == old(containers) && files == old(files) && old(trace) <= trace
      ensures out == Normal ==>
        && Decided(checks) && (AllPass(checks) ==> Through(oracle, old(trace), trace, Preparation(mongodb)))
        && StagesTold(true, old(trace), trace, CapabilityStatus(checks))
      ensures Honest(oracle) ==> out == Normal && AllPass(checks)
    {
      out, checks := InspectImages(mongodb);
      if out.Raised? || !AllPass(checks) { return; }
      ghost var mid := trace;
      var volume;
      out, volume := Stage(CreateVolume, LogVolume, Fail);
      AllPassBoth(checks, volume);
      StatusBoth(checks, volume);
      checks := checks + volume;
      ThroughBoth(oracle, old(trace), mid, trace, Inspections(Images(mongodb)), [CreateVolume]);
    }

    method InspectImages(mongodb: bool) returns (out: Outcome, checks: seq<Check>)
      modifies this`containers, this`files, this`trace
      ensures containers == old(containers) && files == old(files) && old(trace) <= trace
      ensures out == Normal ==>
        && Decided(checks) && (AllPass(checks) <==> Through(oracle, old(trace), trace, Inspections(Images(mongodb))))
        && Without(checks, Fail) && (AllPass(checks) || Unready(true, old(trace), trace))
      ensures Honest(oracle) ==> out == Normal && AllPass(checks)
    {
      var names := Images(mongodb);
      out, checks := Normal, [];
      for i := 0 to |names|
        invariant containers == old(containers) && files == old(files) && out == Normal
        invariant old(trace) <= trace && Decided(checks)
        invariant Issued(trace) == Issued(old(trace)) + Inspections(names[..i])
        invariant AllPass(checks) <==> AllSucceeded(oracle, trace, |old(trace)|)
        invariant Without(checks, Fail) && (i > 0 ==> Unready(true, old(trace), trace))
        invariant Honest(oracle) ==> AllPass(checks)
      {
        ghost var trace0 := trace;
        var one;
        out, one := Stage(InspectImage(names[i]), Image(names[i]), Blocked);
        if out.Raised? { return; }
        InspectionOneMore(old(trace), trace0, trace, names, i);
        SucceededOneMore(oracle, trace0, trace, |old(trace)|);
        AllPassBoth(checks, one);
        checks := checks + one;
      }
      assert names[..|names|] == names;
    }

    /** The plan loop: it stops before the next probe once a check has not passed. */
    method RunPlan(plan: seq<Probe>, prepared: seq<Check>) returns (out: Outcome, checks: seq<Check>, begun: nat)
      requires files == {} && Unused(containers)
      requires Decided(prepared)
      modifies this
      ensures sigint == old(sigint) && sigterm == old(sigterm)
      ensures begun <= |plan| && (begun > 0 ==> AllPass(prepared))
      ensures NoLeak(begun, old(containers), containers, files)
      ensures old(trace) <= trace && CleanupMasked(trace, |old(trace)|)
      ensures out == Normal ==>
        && Decided(checks) && StoppedAtFirstFailure(oracle, plan, begun, old(trace), trace)
        && LeftoversNamed(old(containers), containers, checks)
        && AllAccounted(oracle, plan, begun, trace, containers, checks)
        && (AllPass(checks) ==>
              && AllPass(prepared) && begun == |plan| && containers == old(containers) && files == {}
              && ProbesPassed(oracle, plan, begun, old(trace)))
        && NoneBlocked(begun, prepared, checks)
      ensures Honest(oracle) && AllPass(prepared) ==> out == Normal && AllPass(checks)
    {
      out, checks, begun := Normal, prepared, 0;
      ghost var first, before := trace, containers;
      ProgressStart(oracle, plan, trace, containers, checks);
      while begun < |plan| && CapabilityStatus(checks) == Pass
        invariant out == Normal && sigint == old(sigint) && sigterm == old(sigterm)
        invariant Progress(oracle, plan, begun, first, trace, before, containers, files, checks)
        invariant AllPass(checks) || begun > 0 ==> AllPass(prepared)
        invariant NoneBlocked(begun, prepared, checks)
        invariant Honest(oracle) && AllPass(prepared) ==> AllPass(checks)
        decreases |plan| - begun
      {
        out, checks := NextProbe(plan, begun, checks, first, before);
        begun := begun + 1;
        if out.Raised? { return; }
      }
    }

    /** One turn of the plan loop. */
    method NextProbe(plan: seq<Probe>, m: nat, checks: seq<Check>, ghost first: seq<Call<Command>>,
                     ghost before: set<Name>)
      returns (out: Outcome, all: seq<Check>)
      requires Progress(oracle, plan, m, first, trace, before, containers, files, checks)
      requires m < |plan| && AllPass(checks) && Unused(before)
      modifies this
      ensures sigint == old(sigint) && sigterm == old(sigterm)
      ensures first <= trace && CleanupMasked(trace, |first|) && NoLeak(m + 1, before, containers, files)
      ensures out == Normal ==>
        Progress(oracle, plan, m + 1, first, trace, before, containers, files, all) && Without(all, Blocked)
      ensures Honest(oracle) ==> out == Normal && AllPass(all)
    {
      all := checks;
      ghost var trace0, containers0 := trace, containers;
      var more;
      FreshNames(m, before, containers);
      out, more := RunProbe(m, plan[m]);
      MaskedOneMore(first, trace0, trace);
      LeaksOneMore(m, before, containers, files);
      if out.Raised? { return; }
      ProgressOneMore(oracle, plan, m, first, trace0, trace, before, containers0, containers, files, checks, more);
      all := checks + more;
    }

    /** run_runtime_preflight. begun is the number of probes started, first the trace when the first one could. */
    method RunRuntimePreflight(linux: bool, contract: Option<seq<bool>>, mongodb: bool)
      returns (out: Outcome, checks: seq<Check>, begun: nat, ghost first: seq<Call<Command>>)
      requires files == {} && Unused(containers)
      modifies this
      ensures sigint == old(sigint) && sigterm == old(sigterm)
      ensures begun <= |Plan(mongodb)|
      ensures NoLeak(begun, old(containers), containers, files)
      ensures old(trace) <= first <= trace && CleanupMasked(trace, |first|)
      ensures out == Normal ==>
        && StoppedAtFirstFailure(oracle, Plan(mongodb), begun, first, trace)
        && LeftoversNamed(old(containers), containers, checks)
        && AllAccounted(oracle, Plan(mongodb), begun, trace, containers, checks)
      ensures begun > 0 ==> linux && Clean(contract) && Through(oracle, old(trace), first, StageScript(mongodb))
      // BLOCKED means that the host is not ready and nothing was started; FAIL is a failed probe, a bad compose file or
      // no volume
      ensures out == Normal ==>
        if begun > 0 then CapabilityStatus(checks) != Blocked
        else first == trace && StagesTold(linux, old(trace), trace, CapabilityStatus(checks))
      ensures out == Normal && CapabilityStatus(checks) == Pass ==>
        && linux && Clean(contract) && Through(oracle, old(trace), first, StageScript(mongodb))
        && begun == |Plan(mongodb)| && ProbesPassed(oracle, Plan(mongodb), begun, first)
        && containers == old(containers) && files == {}
      ensures Honest(oracle) && linux && Clean(contract) ==> out == Normal && CapabilityStatus(checks) == Pass
    {
      out, checks := RunStages(linux, contract, mongodb);
      first, begun := trace, 0;
      if out == Normal {
        out, checks, begun := RunPlan(Plan(mongodb), checks);
      }
    }
  }

  /** Cleaning up the second container settles both. */
  lemma CleanedBoth(
    o: Oracle, k: nat, probe: Probe, mid: seq<Call<Command>>, trace: seq<Call<Command>>,
    between: set<Name>, after: set<Name>, own: seq<Check>, more: seq<Check>)
    requires mid <= trace && between - {Companion(k)} <= after <= between + {Companion(k)}
    requires Settled(o, mid, between, Own(k), own) && Settled(o, trace, after, Companion(k), more)
    requires Own(k) in between ==> Check(ContainerCleanup(Own(k)), Fail) in own
    requires Companion(k) in after ==> Check(ContainerCleanup(Companion(k)), Fail) in more
    requires Decided(own) && Decided(more)
    ensures CleanedUp(o, k, probe, trace, after, own + more)
    ensures AllPass(own + more) <==> AllPass(own) && AllPass(more)
    ensures Without(own, Blocked) && Without(more, Blocked) ==> Without(own + more, Blocked)
    ensures OnlyCleanup(own) && OnlyCleanup(more) ==> OnlyCleanup(own + more)
  {
    AllPassBoth(own, more);
    assert Settled(o, trace, after, Companion(k), own + more);
    if Listed(o, mid, Own(k)) { StillListed(o, mid, trace, Own(k)); }
  }

  lemma InspectionOneMore(
    first: seq<Call<Command>>, a: seq<Call<Command>>, b: seq<Call<Command>>, names: seq<string>, i: nat)
    requires i < |names| && a <= b && |b| == |a| + 1 && b[|a|].command == InspectImage(names[i])
    requires Issued(a) == Issued(first) + Inspections(names[..i])
    ensures Issued(b) == Issued(first) + Inspections(names[..i + 1])
  {
    assert Issued(b) == Issued(a) + [InspectImage(names[i])];
    assert Inspections(names[..i + 1]) == Inspections(names[..i]) + [InspectImage(names[i])];
    Regroup(Issued(first), Inspections(names[..i]), [InspectImage(names[i])]);
  }

  lemma SucceededOneMore(o: Oracle, a: seq<Call<Command>>, b: seq<Call<Command>>, n: nat)
    requires n <= |a| < |b| && |b| == |a| + 1 && a <= b
    ensures AllSucceeded(o, b, n) <==> AllSucceeded(o, a, n) && Succeeded(o, |a|, b[|a|].command)
  {
    assert forall i :: 0 <= i < |a| ==> a[i] == b[i];
  }

  lemma AllPassBoth(a: seq<Check>, b: seq<Check>)
    ensures AllPass(a + b) <==> AllPass(a) && AllPass(b)
    ensures Decided(a) && Decided(b) ==> Decided(a + b)
  {
    assert forall c :: c in a ==> c in a + b;
    assert forall c :: c in b ==> c in a + b;
  }

  /** One failure per check of the resolved compose file that failed. */
  method ContractFailures(contract: seq<bool>) returns (checks: seq<Check>)
    ensures Decided(checks) && (forall c :: c in checks ==> c.status == Fail)
    ensures checks == [] <==> Clean(Some(contract))
    ensures forall i :: 0 <= i < |contract| ==> (Check(Contract(i), Fail) in checks <==> !contract[i])
  {
    checks := [];
    for i := 0 to |contract|
      invariant forall c :: c in checks ==> c.status == Fail
      invariant checks == [] <==> forall j :: 0 <= j < i ==> contract[j]
      invariant forall c :: c in checks ==> c.about.Contract? && c.about.item < i
      invariant forall j :: 0 <= j < i ==> (Check(Contract(j), Fail) in checks <==> !contract[j])
    {
      if !contract[i] { checks := checks + [Check(Contract(i), Fail)]; }
    }
    assert forall j :: 0 <= j < |contract| ==> contract[j] in contract;
  }

  /** The run ended on a host without Linux, Docker, Compose or a native image. */
  ghost predicate Unready(linux: bool, a: seq<Call<Command>>, b: seq<Call<Command>>) {
    !linux || (|b| > |a| &&
      var last := b[|b| - 1].command;
      last.DockerInfo? || last.ComposeVersion? || last.InspectImage?)
  }

  /** The stages are blocked only by an unready host, and fail only on the compose file or the volume. */
  ghost predicate StagesTold(linux: bool, a: seq<Call<Command>>, b: seq<Call<Command>>, status: ResultStatus) {
    && (status == Blocked ==> Unready(linux, a, b))
    && (status == Fail ==>
          linux && |b| > |a| && (b[|b| - 1].command.ResolveCompose? || b[|b| - 1].command.CreateVolume?))
  }

  /** Once a probe has begun no check is blocked. */
  predicate NoneBlocked(begun: nat, prepared: seq<Check>, checks: seq<Check>) {
    if begun == 0 then checks == prepared else Without(checks, Blocked)
  }

  lemma StatusBoth(a: seq<Check>, b: seq<Check>)
    requires AllPass(a)
    ensures CapabilityStatus(a + b) == CapabilityStatus(b)
  {
    assert forall c :: c in b ==> c in a + b;
  }

  predicate Clean(contract: Option<seq<bool>>) {
    contract.Some? && forall ok :: ok in contract.value ==> ok
  }

  function Inspections(names: seq<string>): seq<Command> {
    seq(|names|, i requires 0 <= i < |names| => InspectImage(names[i]))
  }

  function StageScript(mongodb: bool): seq<Command> {
    [DockerInfo, ComposeVersion] + [ResolveCompose] + Preparation(mongodb)
  }

  function Preparation(mongodb: bool): seq<Command> {
    Inspections(Images(mongodb)) + [CreateVolume]
  }

  ghost predicate AllSucceeded(o: Oracle, trace: seq<Call<Command>>, n: nat) {
    forall i :: n <= i < |trace| ==> Succeeded(o, i, trace[i].command)
  }

  /** From a to b exactly these commands were issued, and all succeeded. */
  ghost predicate Through(o: Oracle, a: seq<Call<Command>>, b: seq<Call<Command>>, commands: seq<Command>) {
    a <= b && Issued(b) == Issued(a) + commands && AllSucceeded(o, b, |a|)
  }

  lemma ThroughBoth(
    o: Oracle, a: seq<Call<Command>>, b: seq<Call<Command>>, c: seq<Call<Command>>,
    first: seq<Command>, second: seq<Command>)
    requires Through(o, a, b, first)
    ensures Through(o, b, c, second) ==> Through(o, a, c, first + second)
  {
    if Through(o, b, c, second) {
      assert forall i :: 0 <= i < |b| ==> b[i] == c[i];
      assert Issued(a) + first + second == Issued(a) + (first + second);
    }
  }

  // ---- what a run of the plan guarantees ----

  /** Whatever is left over belongs to the last probe begun, and nothing that was there before is gone. */
  ghost predicate NoLeak(begun: nat, before: set<Name>, after: set<Name>, files: set<nat>) {
    && before <= after && (forall name :: name in after && name !in before ==> begun > 0 && NamesOf(begun - 1, name))
    && (forall k :: k in files ==> k == begun - 1)
  }

  /** A leftover container has a failed check naming it. */
  ghost predicate LeftoversNamed(before: set<Name>, after: set<Name>, checks: seq<Check>) {
    forall name :: name in after && name !in before ==> Check(ContainerCleanup(name), Fail) in checks
  }

  /** Each container of the k-th probe is confirmed absent, or it is the last probe's and a failed check names it. */
  ghost predicate ProbeSettled(
    o: Oracle, plan: seq<Probe>, k: nat, begun: nat, trace: seq<Call<Command>>, containers: set<Name>,
    checks: seq<Check>)
  {
    k < |plan| ==> forall name :: name in ContainersOf(k, plan[k]) ==>
      if k + 1 == begun then Settled(o, trace, containers, name, checks)
      else name !in containers && Listed(o, trace, name)
  }

  /** So are all containers of all probes begun. */
  ghost predicate AllAccounted(
    o: Oracle, plan: seq<Probe>, begun: nat, trace: seq<Call<Command>>, containers: set<Name>, checks: seq<Check>)
  {
    forall k: nat :: k < begun ==> ProbeSettled(o, plan, k, begun, trace, containers, checks)
  }

  /** Where on the trace the k-th probe was started. */
  function StartOf(plan: seq<Probe>, k: nat, first: seq<Call<Command>>): nat
    requires k <= |plan|
  {
    |first| + |Scripts(plan, k)|
  }

  ghost predicate ProbesPassed(o: Oracle, plan: seq<Probe>, m: nat, first: seq<Call<Command>>)
    requires m <= |plan|
  {
    forall k: nat :: k < m ==> ProbePassed(o, plan, k, first)
  }

  ghost predicate ProbePassed(o: Oracle, plan: seq<Probe>, k: nat, first: seq<Call<Command>>) {
    k < |plan| ==> Succeeded(o, StartOf(plan, k, first), Start(k, plan[k]))
  }

  /** The probes begun are a prefix of the plan, each with its whole cleanup, and all but the last one passed. */
  ghost predicate StoppedAtFirstFailure(
    o: Oracle, plan: seq<Probe>, begun: nat, first: seq<Call<Command>>, trace: seq<Call<Command>>)
  {
    && begun <= |plan| && first <= trace && Issued(trace) == Issued(first) + Scripts(plan, begun)
    && (begun > 0 ==> ProbesPassed(o, plan, begun - 1, first))
  }

  lemma MaskedOneMore(first: seq<Call<Command>>, a: seq<Call<Command>>, b: seq<Call<Command>>)
    requires first <= a <= b && CleanupMasked(a, |first|) && CleanupMasked(b, |a|)
    ensures CleanupMasked(b, |first|)
  {
    assert forall i :: 0 <= i < |a| ==> a[i] == b[i];
  }

  /** The names of the probes to come are unused. */
  ghost predicate Unused(containers: set<Name>) {
    forall name :: name in containers ==> name.Foreign?
  }

  lemma FreshNames(k: nat, before: set<Name>, containers: set<Name>)
    requires Unused(before) && containers == before
    ensures Own(k) !in containers && Companion(k) !in containers
  {
  }

  /** What holds after each turn of the plan loop. */
  ghost predicate Progress(
    o: Oracle, plan: seq<Probe>, begun: nat, first: seq<Call<Command>>, trace: seq<Call<Command>>,
    before: set<Name>, containers: set<Name>, files: set<nat>, checks: seq<Check>)
  {
    && begun <= |plan| && Decided(checks) && first <= trace && CleanupMasked(trace, |first|)
    && NoLeak(begun, before, containers, files)
    && LeftoversNamed(before, containers, checks) && AllAccounted(o, plan, begun, trace, containers, checks)
    && StoppedAtFirstFailure(o, plan, begun, first, trace)
    && (AllPass(checks) ==> ProbesPassed(o, plan, begun, first) && containers == before && files == {})
  }

  lemma ProgressStart(o: Oracle, plan: seq<Probe>, trace: seq<Call<Command>>, containers: set<Name>, checks: seq<Check>)
    requires Decided(checks)
    ensures Progress(o, plan, 0, trace, trace, containers, containers, {}, checks)
  {
    assert Issued(trace) == Issued(trace) + Scripts(plan, 0);
  }

  lemma ProgressOneMore(
    o: Oracle, plan: seq<Probe>, m: nat, first: seq<Call<Command>>, trace0: seq<Call<Command>>,
    trace: seq<Call<Command>>,
    before: set<Name>, between: set<Name>, after: set<Name>, files: set<nat>, checks: seq<Check>, more: seq<Check>)
    requires m < |plan| && Progress(o, plan, m, first, trace0, before, between, {}, checks) && AllPass(checks)
    requires trace0 <= trace && CleanupMasked(trace, |trace0|)
    requires between <= after <= between + {Own(m), Companion(m)} && files <= {m}
    requires Issued(trace) == Issued(trace0) + Script(m, plan[m])
    requires Accounted(o, m, plan[m], trace, after, between, more)
    requires AllPass(more) ==> files == {} && Succeeded(o, |trace0|, Start(m, plan[m]))
    ensures Progress(o, plan, m + 1, first, trace, before, after, files, checks + more)
    ensures AllPass(checks + more) <==> AllPass(more)
    ensures Without(more, Blocked) ==> Without(checks + more, Blocked)
  {
    MaskedOneMore(first, trace0, trace);
    LeaksOneMore(m, before, after, files);
    NamedOneMore(o, m, plan[m], trace, before, after, checks, more);
    AccountedOneMore(o, plan, m, trace0, trace, between, after, checks, more);
    ScriptsOneMore(o, plan, m, first, trace0, trace);
    AllPassBoth(checks, more);
  }

  lemma LeaksOneMore(k: nat, before: set<Name>, after: set<Name>, files: set<nat>)
    requires before <= after <= before + {Own(k), Companion(k)} && files <= {k}
    ensures NoLeak(k + 1, before, after, files)
  {
  }

  lemma NamedOneMore(
    o: Oracle, k: nat, probe: Probe, trace: seq<Call<Command>>, before: set<Name>, after: set<Name>,
    checks: seq<Check>, more: seq<Check>)
    requires after <= before + {Own(k), Companion(k)} && Accounted(o, k, probe, trace, after, before, more)
    ensures LeftoversNamed(before, after, checks + more)
  {
  }

  lemma AccountedOneMore(
    o: Oracle, plan: seq<Probe>, m: nat, trace0: seq<Call<Command>>, trace: seq<Call<Command>>,
    before: set<Name>, after: set<Name>, checks: seq<Check>, more: seq<Check>)
    requires m < |plan| && AllAccounted(o, plan, m, trace0, before, checks) && AllPass(checks) && trace0 <= trace
    requires after <= before + {Own(m), Companion(m)} && Accounted(o, m, plan[m], trace, after, before, more)
    ensures AllAccounted(o, plan, m + 1, trace, after, checks + more)
  {
    var begun, all := m + 1, checks + more;
    forall k: nat | k < begun ensures ProbeSettled(o, plan, k, begun, trace, after, all) {
      assert k < m ==> ProbeSettled(o, plan, k, m, trace0, before, checks);
      forall name | name in ContainersOf(k, plan[k])
        ensures if k == m then Settled(o, trace, after, name, all) else name !in after && Listed(o, trace, name)
      {
        if k < m {
          StillListed(o, trace0, trace, name);
        } else {
          assert Settled(o, trace, after, name, more);
        }
      }
    }
  }

  lemma ScriptsOneMore(
    o: Oracle, plan: seq<Probe>, m: nat, first: seq<Call<Command>>, a: seq<Call<Command>>, b: seq<Call<Command>>)
    requires m < |plan| && first <= a <= b
    requires Issued(a) == Issued(first) + Scripts(plan, m) && ProbesPassed(o, plan, m, first)
    requires Issued(b) == Issued(a) + Script(m, plan[m])
    ensures StoppedAtFirstFailure(o, plan, m + 1, first, b)
    ensures Succeeded(o, |a|, Start(m, plan[m])) ==> ProbesPassed(o, plan, m + 1, first)
  {
    Regroup(Issued(first), Scripts(plan, m), Script(m, plan[m]));
    StartIsNow(plan, m, first, a);
  }

  lemma Regroup(x: seq<Command>, y: seq<Command>, z: seq<Command>)
    ensures x + y + z == x + (y + z)
  {
  }

  lemma StartIsNow(plan: seq<Probe>, m: nat, first: seq<Call<Command>>, a: seq<Call<Command>>)
    requires m <= |plan| && Issued(a) == Issued(first) + Scripts(plan, m)
    ensures |a| == StartOf(plan, m, first)
  {
    assert |a| == |Issued(a)|;
  }
}
