/** The readiness classifier: what one reading of the core's containers and logs says. */
module CoreIssues {
  import opened AssociationLog

  datatype Service = LogInit | MongoDb | Nrf | Ausf | Udm | Udr | Bsf | Pcf | Amf | Smf | Upf | DnServer

  const NFS: seq<Service> := [Nrf, Ausf, Udm, Udr, Bsf, Pcf, Amf, Smf, Upf]
  const CORE_SERVICES: seq<Service> := [MongoDb] + NFS + [DnServer]

  predicate IsNf(s: Service) {
    s != LogInit && s != MongoDb && s != DnServer
  }

  datatype Status = Created | Running | Paused | Restarting | Removing | Exited | Dead

  datatype Info = Info(id: string, status: Status, startedAt: string, exitCode: int, restarts: int, healthy: bool)

  type Containers = map<Service, Info>
  type Logs = map<Service, string>

  datatype Issue =
    | InitContainer
    | Died(service: Service)
    | NotRunning(service: Service)
    | MongoUnhealthy
    | InitError(service: Service)
    | NotInitialized(service: Service)
    | NotRegistered(service: Service)
    | NoAssociation(service: Service)
    | Changed(service: Service)
  {
    /** The service whose turn in the loop reports this issue. */
    function Subject(): Service {
      match this
      case InitContainer => LogInit
      case MongoUnhealthy => MongoDb
      case _ => this.service
    }
  }

  /** The name of a service in the Compose file. */
  function Name(s: Service): string {
    match s
    case LogInit => "log-init"
    case MongoDb => "mongodb"
    case Nrf => "nrf"
    case Ausf => "ausf"
    case Udm => "udm"
    case Udr => "udr"
    case Bsf => "bsf"
    case Pcf => "pcf"
    case Amf => "amf"
    case Smf => "smf"
    case Upf => "upf"
    case DnServer => "dn-server"
  }

  function Upper(s: string): (r: string)
    ensures |r| == |s|
    ensures forall i :: 0 <= i < |s| ==>
      r[i] == if 'a' <= s[i] <= 'z' then 'A' + (s[i] - 'a') else s[i]
  {
    seq(|s|, i requires 0 <= i < |s| => if 'a' <= s[i] <= 'z' then 'A' + (s[i] - 'a') else s[i])
  }

  predicate HasDied(cs: Containers, s: Service) {
    s in cs && (cs[s].restarts != 0 || cs[s].status.Exited? || cs[s].status.Dead? || cs[s].status.Restarting?)
  }

  predicate IsRunning(cs: Containers, s: Service) {
    s in cs && cs[s].status.Running?
  }

  /** What the classifier looks for in one network function's log. */
  datatype Marks = Marks(initError: bool, initialized: bool, registered: bool, associated: bool)

  predicate HasInitError(log: string) {
    Contains(log, "FATAL") || Contains(log, "Failed to initialize") || Contains(log, "unknown key `db_uri`")
  }

  predicate IsInitialized(s: Service, log: string) {
    Contains(log, Upper(Name(s)) + " initialize...done")
  }

  predicate IsRegistered(log: string) {
    LatestAssociationSucceeded(
      log, "NF registered [Heartbeat:", ["NF de-registered", "Retry registration with NRF", "No heartbeat"])
  }

  predicate IsAssociated(log: string) {
    LatestAssociationSucceeded(log, "PFCP associated", ["PFCP de-associated", "No Heartbeat from"])
  }

  function MarksOf(s: Service, log: string): Marks {
    Marks(HasInitError(log), IsInitialized(s, log), IsRegistered(log), IsAssociated(log))
  }

  /** The marks of every log that was read; a service without a log has none, as if its log were empty. */
  function Marked(logs: Logs): map<Service, Marks> {
    map s | s in logs :: MarksOf(s, logs[s])
  }

  function At(marks: map<Service, Marks>, s: Service): Marks {
    if s in marks then marks[s] else Marks(false, false, false, false)
  }

  lemma NothingInEmptyLog(p: string, failures: seq<string>)
    requires |p| > 0
    ensures !Contains("", p) && (failures != [] ==> !LatestAssociationSucceeded("", p, failures))
  {
    if failures != [] {
      RfindMeans("", p);
      RfindMeans("", failures[0]);
      LastOfMeans("", failures);
    }
  }

  lemma NoLogNoMarks(s: Service)
    ensures MarksOf(s, "") == Marks(false, false, false, false)
  {
    forall p: string, failures: seq<string> | |p| > 0
      ensures !Contains("", p) && (failures != [] ==> !LatestAssociationSucceeded("", p, failures))
    {
      NothingInEmptyLog(p, failures);
    }
  }

  // ---- what the marks mean, text by text ----

  predicate InitErrorText(text: string) {
    text == "FATAL" || text == "Failed to initialize" || text == "unknown key `db_uri`"
  }

  /** A log shows a registration exactly when it holds the success message with no loss of the three kinds after it. */
  lemma RegisteredExact(log: string)
    ensures IsRegistered(log) <==> exists i :: LastingSince(
      log, "NF registered [Heartbeat:", "NF de-registered", "Retry registration with NRF", "No heartbeat", i)
  {
    LatestExact(log, "NF registered [Heartbeat:", ["NF de-registered", "Retry registration with NRF", "No heartbeat"],
      "NF de-registered", "Retry registration with NRF", "No heartbeat");
  }

  /** The same for an association and its two kinds of loss. */
  lemma AssociatedExact(log: string)
    ensures IsAssociated(log) <==> exists i :: LastingSince(
      log, "PFCP associated", "PFCP de-associated", "No Heartbeat from", "No Heartbeat from", i)
  {
    LatestExact(log, "PFCP associated", ["PFCP de-associated", "No Heartbeat from"],
      "PFCP de-associated", "No Heartbeat from", "No Heartbeat from");
  }

  lemma InitErrorExact(log: string)
    ensures HasInitError(log) <==> exists text :: InitErrorText(text) && Contains(log, text)
  {
    if Contains(log, "FATAL") {
      assert InitErrorText("FATAL");
    } else if Contains(log, "Failed to initialize") {
      assert InitErrorText("Failed to initialize");
    } else if Contains(log, "unknown key `db_uri`") {
      assert InitErrorText("unknown key `db_uri`");
    }
  }

  // ---- what one more message does to any log ----

  predicate RegistrationLoss(text: string) {
    text == "NF de-registered" || text == "Retry registration with NRF" || text == "No heartbeat"
  }

  predicate AssociationLoss(text: string) {
    text == "PFCP de-associated" || text == "No Heartbeat from"
  }

  /** No loss message contains the success message, nor the other way round. */
  lemma AssociationTextsDiffer()
    ensures !Contains("PFCP de-associated", "PFCP associated") && !Contains("No Heartbeat from", "PFCP associated")
    ensures !Contains("PFCP associated", "PFCP de-associated") && !Contains("PFCP associated", "No Heartbeat from")
  {
    NotContained("PFCP de-associated", "PFCP associated", [5, 0, 0, 1]);
    NotContained("No Heartbeat from", "PFCP associated", [0, 0, 0]);
  }

  lemma RegistrationLossesDiffer()
    ensures !Contains("NF de-registered", "NF registered [Heartbeat:")
    ensures !Contains("Retry registration with NRF", "NF registered [Heartbeat:")
    ensures !Contains("No heartbeat", "NF registered [Heartbeat:")
  {
    NotContained("Retry registration with NRF", "NF registered [Heartbeat:", [0, 0, 0]);
  }

  lemma RegistrationSuccessDiffers()
    ensures !Contains("NF registered [Heartbeat:", "NF de-registered")
    ensures !Contains("NF registered [Heartbeat:", "Retry registration with NRF")
    ensures !Contains("NF registered [Heartbeat:", "No heartbeat")
  {
    NotContained("NF registered [Heartbeat:", "NF de-registered", [3, 0, 0, 0, 0, 0, 0, 0, 0, 0]);
    NotContained("NF registered [Heartbeat:", "No heartbeat", [1, 0, 0, 0, 0, 0, 0, 0, 0, 0, 0, 0, 0, 0]);
  }

  lemma AssociationLost(out: string, loss: string)
    requires AssociationLoss(loss)
    ensures !IsAssociated(out + loss)
  {
    AssociationTextsDiffer();
    var losses := ["PFCP de-associated", "No Heartbeat from"];
    assert losses[0] in losses && losses[1] in losses && loss + "" == loss;
    LaterMessageWins(out, "", "PFCP associated", losses, loss);
  }

  lemma AssociationGained(out: string)
    ensures IsAssociated(out + "PFCP associated")
  {
    AssociationTextsDiffer();
    var losses := ["PFCP de-associated", "No Heartbeat from"];
    assert losses[0] in losses && "PFCP associated" + "" == "PFCP associated";
    LaterMessageWins(out, "", "PFCP associated", losses, losses[0]);
  }

  lemma RegistrationLost(out: string, loss: string)
    requires RegistrationLoss(loss)
    ensures !IsRegistered(out + loss)
  {
    RegistrationLossesDiffer();
    var losses := ["NF de-registered", "Retry registration with NRF", "No heartbeat"];
    assert losses[0] in losses && losses[1] in losses && losses[2] in losses && loss + "" == loss;
    LaterMessageWins(out, "", "NF registered [Heartbeat:", losses, loss);
  }

  lemma RegistrationGained(out: string)
    ensures IsRegistered(out + "NF registered [Heartbeat:")
  {
    RegistrationSuccessDiffers();
    var losses := ["NF de-registered", "Retry registration with NRF", "No heartbeat"];
    assert losses[0] in losses && "NF registered [Heartbeat:" + "" == "NF registered [Heartbeat:";
    LaterMessageWins(out, "", "NF registered [Heartbeat:", losses, losses[0]);
  }

  predicate IsFatal(x: Issue, cs: Containers, marks: map<Service, Marks>) {
    match x
    case InitContainer => LogInit in cs && cs[LogInit].status.Exited? && cs[LogInit].exitCode != 0
    case Died(s) => s != LogInit && HasDied(cs, s)
    case InitError(s) => IsNf(s) && !HasDied(cs, s) && At(marks, s).initError
    case _ => false
  }

  predicate IsPending(x: Issue, cs: Containers, marks: map<Service, Marks>) {
    match x
    case InitContainer => !(LogInit in cs && cs[LogInit].status.Exited?)
    case NotRunning(s) => s != LogInit && !HasDied(cs, s) && !IsRunning(cs, s)
    case MongoUnhealthy => !HasDied(cs, MongoDb) && !(MongoDb in cs && cs[MongoDb].healthy)
    case NotInitialized(s) => IsNf(s) && !HasDied(cs, s) && !At(marks, s).initialized
    case NotRegistered(s) => IsNf(s) && !HasDied(cs, s) && s != Nrf && s != Upf && !At(marks, s).registered
    case NoAssociation(s) => (s == Smf || s == Upf) && !HasDied(cs, s) && !At(marks, s).associated
    case _ => false
  }

  /** A core in which every requirement of the readiness check is met. */
  ghost predicate CoreHealthy(cs: Containers, marks: map<Service, Marks>) {
    && LogInit in cs && cs[LogInit].status.Exited? && cs[LogInit].exitCode == 0
    && (forall s :: s != LogInit ==> s in cs && cs[s].status.Running? && cs[s].restarts == 0)
    && cs[MongoDb].healthy
    && (forall s :: IsNf(s) ==>
          var log := At(marks, s);
          && !log.initError && log.initialized
          && (s != Nrf && s != Upf ==> log.registered) && (s == Smf || s == Upf ==> log.associated))
  }

  /** A core that will not get well by itself: initialization failed, a service has ended or is being restarted, or a
      network function reports an initialization error. */
  ghost predicate CoreBroken(cs: Containers, marks: map<Service, Marks>) {
    || (LogInit in cs && cs[LogInit].status.Exited? && cs[LogInit].exitCode != 0)
    || exists s :: s != LogInit && ServiceBroken(s, cs, marks)
  }

  ghost predicate ServiceBroken(s: Service, cs: Containers, marks: map<Service, Marks>) {
    || (s in cs && (cs[s].restarts != 0 || cs[s].status in {Exited, Dead, Restarting}))
    || (IsNf(s) && At(marks, s).initError)
  }

  /** Fatal issues are those of a broken core, and only those. */
  lemma BrokenExact(cs: Containers, marks: map<Service, Marks>)
    ensures (exists x :: IsFatal(x, cs, marks)) <==> CoreBroken(cs, marks)
  {
    if LogInit in cs && cs[LogInit].status.Exited? && cs[LogInit].exitCode != 0 {
      assert IsFatal(InitContainer, cs, marks);
    }
    if s :| s != LogInit && ServiceBroken(s, cs, marks) {
      assert IsFatal(Died(s), cs, marks) || IsFatal(InitError(s), cs, marks);
    }
    if x :| IsFatal(x, cs, marks) {
      assert x.InitContainer? || ServiceBroken(x.service, cs, marks);
    }
  }

  lemma MarksInPlace(s: Service, logs: Logs)
    requires s in logs
    ensures
      var m := At(Marked(logs), s);
      && m.associated == IsAssociated(logs[s]) && m.registered == IsRegistered(logs[s])
      && m.initError == HasInitError(logs[s]) && m.initialized == IsInitialized(s, logs[s])
  {
  }

  /** Whatever its log said before: a live SMF or UPF whose log ends with an association loss of either kind has its
      association among the pending issues. */
  lemma AssociationLossIsPending(s: Service, cs: Containers, logs: Logs, out: string, loss: string)
    requires (s == Smf || s == Upf) && s in logs && logs[s] == out + loss && AssociationLoss(loss) && !HasDied(cs, s)
    ensures IsPending(NoAssociation(s), cs, Marked(logs)) && !CoreHealthy(cs, Marked(logs))
  {
    AssociationLost(out, loss);
    MarksInPlace(s, logs);
  }

  /** The same for the registration of a network function, and its three kinds of loss. */
  lemma RegistrationLossIsPending(s: Service, cs: Containers, logs: Logs, out: string, loss: string)
    requires IsNf(s) && s != Nrf && s != Upf && s in logs && logs[s] == out + loss && RegistrationLoss(loss)
    requires !HasDied(cs, s)
    ensures IsPending(NotRegistered(s), cs, Marked(logs)) && !CoreHealthy(cs, Marked(logs))
  {
    RegistrationLost(out, loss);
    MarksInPlace(s, logs);
  }

  /** A later success takes the issue away. */
  lemma AssociationHeals(s: Service, cs: Containers, logs: Logs, out: string)
    requires s in logs && logs[s] == out + "PFCP associated"
    ensures !IsPending(NoAssociation(s), cs, Marked(logs))
  {
    AssociationGained(out);
    MarksInPlace(s, logs);
  }

  lemma RegistrationHeals(s: Service, cs: Containers, logs: Logs, out: string)
    requires s in logs && logs[s] == out + "NF registered [Heartbeat:"
    ensures !IsPending(NotRegistered(s), cs, Marked(logs))
  {
    RegistrationGained(out);
    MarksInPlace(s, logs);
  }

  /** Each of the three error texts, anywhere in the log of a network function, breaks the core. */
  lemma ErrorTextIsFatal(s: Service, cs: Containers, logs: Logs, text: string)
    requires s in logs && IsNf(s) && InitErrorText(text) && Contains(logs[s], text)
    ensures CoreBroken(cs, Marked(logs))
  {
    InitErrorExact(logs[s]);
    MarksInPlace(s, logs);
    assert ServiceBroken(s, cs, Marked(logs));
  }

  /** Without the line a service prints about itself it counts as not initialized, whatever else its log holds. */
  lemma OwnLineInitializes(s: Service, cs: Containers, logs: Logs, line: string)
    requires IsNf(s) && s in logs && !HasDied(cs, s) && line == Upper(Name(s)) + " initialize...done"
    ensures IsPending(NotInitialized(s), cs, Marked(logs)) <==> !Contains(logs[s], line)
  {
    assert At(Marked(logs), s) == MarksOf(s, logs[s]);
  }

  lemma CoreServicesComplete(s: Service)
    ensures s in CORE_SERVICES <==> s != LogInit
    ensures s in NFS <==> IsNf(s)
  {
    assert NFS[0] == Nrf && NFS[1] == Ausf && NFS[2] == Udm && NFS[3] == Udr && NFS[4] == Bsf && NFS[5] == Pcf
      && NFS[6] == Amf && NFS[7] == Smf && NFS[8] == Upf;
  }

  /** The classifier is exact: a reading has no issue of either kind exactly when the core is healthy. */
  lemma ClassifierExact(cs: Containers, marks: map<Service, Marks>)
    ensures (forall x :: !IsFatal(x, cs, marks) && !IsPending(x, cs, marks)) <==> CoreHealthy(cs, marks)
  {
    if forall x :: !IsFatal(x, cs, marks) && !IsPending(x, cs, marks) {
      assert !IsFatal(InitContainer, cs, marks) && !IsPending(InitContainer, cs, marks);
      forall s | s != LogInit ensures s in cs && cs[s].status.Running? && cs[s].restarts == 0 {
        assert !IsFatal(Died(s), cs, marks) && !IsPending(NotRunning(s), cs, marks);
      }
      assert !IsPending(MongoUnhealthy, cs, marks);
      forall s | IsNf(s)
        ensures
          var log := At(marks, s);
          && !log.initError && log.initialized
          && (s != Nrf && s != Upf ==> log.registered) && (s == Smf || s == Upf ==> log.associated)
      {
        assert !IsFatal(Died(s), cs, marks);
        assert !IsFatal(InitError(s), cs, marks) && !IsPending(NotInitialized(s), cs, marks);
        assert !IsPending(NotRegistered(s), cs, marks) && !IsPending(NoAssociation(s), cs, marks);
      }
    }
  }

  /** One turn of the loop over the core services. */
  method ServiceIssues(s: Service, cs: Containers, marks: map<Service, Marks>)
    returns (fatal: seq<Issue>, pending: seq<Issue>)
    requires s != LogInit
    ensures forall x: Issue :: x in fatal <==> x.Subject() == s && IsFatal(x, cs, marks)
    ensures forall x: Issue :: x in pending <==> x.Subject() == s && IsPending(x, cs, marks)
  {
    fatal, pending := [], [];
    if HasDied(cs, s) { return [Died(s)], []; }
    if !IsRunning(cs, s) { pending := pending + [NotRunning(s)]; }
    if s == MongoDb && !(MongoDb in cs && cs[MongoDb].healthy) {
      pending := pending + [MongoUnhealthy];
    }
    if IsNf(s) {
      var log := At(marks, s);
      if log.initError { fatal := fatal + [InitError(s)]; }
      if !log.initialized { pending := pending + [NotInitialized(s)]; }
      if s != Nrf && s != Upf && !log.registered { pending := pending + [NotRegistered(s)]; }
      if (s == Smf || s == Upf) && !log.associated { pending := pending + [NoAssociation(s)]; }
    }
  }

  /** core_issues: exactly the fatal and exactly the pending issues of this reading. */
  method FindIssues(cs: Containers, marks: map<Service, Marks>) returns (fatal: seq<Issue>, pending: seq<Issue>)
    ensures forall x :: x in fatal <==> IsFatal(x, cs, marks)
    ensures forall x :: x in pending <==> IsPending(x, cs, marks)
    ensures fatal == [] && pending == [] <==> CoreHealthy(cs, marks)
    ensures fatal != [] <==> CoreBroken(cs, marks)
  {
    fatal, pending := [], [];
    if LogInit in cs && cs[LogInit].status.Exited? {
      if cs[LogInit].exitCode != 0 { fatal := [InitContainer]; }
    } else {
      pending := [InitContainer];
    }
    for i := 0 to |CORE_SERVICES|
      invariant forall x :: x in fatal <==>
        IsFatal(x, cs, marks) && (x.InitContainer? || x.Subject() in CORE_SERVICES[..i])
      invariant forall x :: x in pending <==>
        IsPending(x, cs, marks) && (x.InitContainer? || x.Subject() in CORE_SERVICES[..i])
    {
      CoreServicesComplete(CORE_SERVICES[i]);
      var f, p := ServiceIssues(CORE_SERVICES[i], cs, marks);
      assert CORE_SERVICES[..i + 1] == CORE_SERVICES[..i] + [CORE_SERVICES[i]];
      fatal, pending := fatal + f, pending + p;
    }
    assert CORE_SERVICES[..|CORE_SERVICES|] == CORE_SERVICES;
    forall x: Issue
      ensures x.InitContainer? || x.Subject() in CORE_SERVICES || (!IsFatal(x, cs, marks) && !IsPending(x, cs, marks))
    {
      CoreServicesComplete(x.Subject());
    }
    ClassifierExact(cs, marks);
    BrokenExact(cs, marks);
    assert fatal != [] ==> fatal[0] in fatal;
    assert pending != [] ==> pending[0] in pending;
  }
}
