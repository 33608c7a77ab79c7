/** The orchestrator's own commands, which leave the lab alone, and what the trace says of them. */
module OwnCommands {
  import opened Basics
  import opened Testbed
  import opened Hosts
  import opened FaultCauses

  /** No undo command was issued between w and w'. */
  ghost predicate NoUndoSince(w': World, w: World) {
    w.trace <= w'.trace && forall k :: |w.trace| <= k < |w'.trace| ==> !w'.trace[k].command.Undoes()
  }

  /** Only the orchestrator's own commands were issued between w and w'. */
  ghost predicate OnlyOwnSince(w': World, w: World) {
    w.trace <= w'.trace && forall k :: |w.trace| <= k < |w'.trace| ==> w'.trace[k].command.Own()
  }

  lemma OwnInBetween(w: World, w': World, w'': World)
    requires OnlyOwnSince(w', w) && OnlyOwnSince(w'', w')
    ensures OnlyOwnSince(w'', w)
  {
  }

  // ---- what the trace says of a command that leaves the lab alone ----

  /** The k-th command was c and answered with this code. */
  ghost predicate Answers(o: Oracle, w: World, k: nat, c: Command, code: nat) {
    && k < |w.trace| && w.trace[k].command == c
    && !CutShort(o(k, c).arrival, w.trace[k].sigint, w.trace[k].sigterm)
    && (o(k, c).code == Exit(code) || (o(k, c).code == AsKernelSays && code == 0))
  }

  /** The k-th command of the run was c and it answered zero. */
  ghost predicate Passed(o: Oracle, w: World, k: nat, c: Command) {
    Answers(o, w, k, c, 0)
  }

  /** The k-th command was c and neither a signal nor a crash ended it. */
  ghost predicate Returned(o: Oracle, w: World, k: nat, c: Command) {
    k < |w.trace| && w.trace[k].command == c && !DisturbedAt(o, w.trace, k)
  }

  /** What one of the orchestrator's own commands does and how it ends, read off the trace. */
  lemma OwnSent(o: Oracle, w: World, c: Command)
    requires c.Own()
    ensures
      var sent, n := Send(o, w, c), |w.trace|;
      && sent.w.lab == w.lab && NoUndoSince(sent.w, w) && OnlyOwnSince(sent.w, w) && |sent.w.trace| == n + 1
      && (sent.ending.Exited? <==> Returned(o, sent.w, n, c))
      && (sent.ending.Exited? ==> Answers(o, sent.w, n, c, sent.ending.code))
      && (sent.ending.Cut? <==> CutAt(o, sent.w.trace, n)) && (sent.ending.Broke? <==> CrashedAt(o, sent.w.trace, n))
  {
    assert Effect(c, w.lab) == w.lab && Possible(c, w.lab);
  }

  lemma SmoothSent(o: Oracle, w: World, c: Command, n: nat)
    requires c.Own() && Smooth(o, n) && n <= |w.trace|
    ensures var e := Send(o, w, c).ending; e == Exited(0) || (c.Traffic? && e == Exited(4))
  {
    assert UndisturbedAt(o, |w.trace|, c) && Possible(c, w.lab);
  }

  /** One of the orchestrator's own commands; a signal or a failed process start becomes an exception. */
  method RunOwn(host: Host, c: Command) returns (code: nat, out: Outcome)
    requires c.Own()
    modifies host
    ensures host.Now() == Send(host.oracle, old(host.Now()), c).w && host.lab == old(host.lab)
    ensures NoUndoSince(host.Now(), old(host.Now())) && OnlyOwnSince(host.Now(), old(host.Now()))
    ensures |host.trace| == |old(host.trace)| + 1
    ensures out == Normal <==> Returned(host.oracle, host.Now(), |old(host.trace)|, c)
    ensures out == Normal ==> Answers(host.oracle, host.Now(), |old(host.trace)|, c, code)
    ensures Caused(host.oracle, host.trace, |old(host.trace)|, out) && (out.Raised? ==> !WentOn(out))
    ensures Smooth(host.oracle, |old(host.trace)|) ==> out == Normal && (code == 0 || (c.Traffic? && code == 4))
  {
    OwnSent(host.oracle, host.Now(), c);
    if Smooth(host.oracle, |host.trace|) { SmoothSent(host.oracle, host.Now(), c, |host.trace|); }
    var ending := host.RunCommand(c);
    match ending {
      case Exited(k) => code, out := k, Normal;
      case Cut => code, out := 0, Raised(Interrupted);
      case Broke => code, out := 0, Raised(Crashed);
    }
    OneCaused(host.oracle, host.trace, |old(host.trace)|, out);
  }

  /** What the trace says of a command stays true, and a command has one answer. */
  lemma StillAnswered(o: Oracle, w: World, w': World, k: nat, c: Command)
    requires k < |w.trace| && w.trace <= w'.trace
    ensures Returned(o, w', k, c) <==> Returned(o, w, k, c)
    ensures forall code :: Answers(o, w', k, c, code) <==> Answers(o, w, k, c, code)
  {
  }

  lemma NoUndoInBetween(w: World, w': World, w'': World)
    requires NoUndoSince(w', w) && NoUndoSince(w'', w')
    ensures NoUndoSince(w'', w)
  {
  }
}
