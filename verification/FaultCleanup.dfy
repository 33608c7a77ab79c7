/** run_with_fault_cleanup: apply, a body, and a rollback that is attempted whatever happened before. */
module FaultCleanup {
  import opened Basics
  import opened Testbed
  import opened Hosts
  import opened FaultInjection
  import Spec = FaultSpec
  import opened FaultInvariants

  /** What the caller's function does: it may issue commands, and ends in some way. */
  type Body = World -> BodyEnd
  datatype BodyEnd = BodyEnd(w: World, out: Outcome)

  /** The body leaves the lab alone and the signal dispositions as they are. */
  ghost predicate Bystander(body: Body) {
    forall w :: Observes(w, body(w).w)
  }

  ghost predicate Observes(w: World, w': World) {
    w'.lab == w.lab && w.trace <= w'.trace && w'.sigint == w.sigint && w'.sigterm == w.sigterm
  }

  method RunBody(host: Host, body: Body) returns (out: Outcome)
    modifies host
    ensures host.Now() == body(old(host.Now())).w && out == body(old(host.Now())).out
  {
    var end := body(host.Now());
    host.lab, host.trace, host.sigint, host.sigterm := end.w.lab, end.w.trace, end.w.sigint, end.w.sigterm;
    out := end.out;
  }

  /** The state in which the rollback starts: after apply, and after the body if apply returned. */
  function BeforeRollback(o: Oracle, f: Spec.Fault, s: Spec.Sys, body: Body): Spec.Sys {
    var a := Spec.Apply(o, f, s);
    if a.out == Normal then a.s.(w := body(a.s.w).w) else a.s
  }

  method RunWithFaultCleanup(injector: FaultInjector, body: Body) returns (out: Outcome, ran: bool, undone: bool)
    requires injector.State() == Spec.Sys(injector.host.Now(), Spec.FRESH) && ValidLab(injector.host.lab)
    requires Bystander(body)
    modifies injector, injector.host
    ensures
      var o, f := injector.host.oracle, injector.fault;
      var a := Spec.Apply(o, f, old(injector.State()));
      var r := Spec.Remove(o, f, BeforeRollback(o, f, old(injector.State()), body));
      // the body runs exactly when apply returned, the rollback is attempted in any case
      && ran == (a.out == Normal) && injector.State() == r.s && undone == (r.out == Normal)
      // nothing is swallowed, and two errors become one RuntimeError
      && (out == Normal <==> ran && undone && body(a.s.w).out == Normal)
      && (out.Raised? && undone ==> out == if ran then body(a.s.w).out else a.out)
      && (out.Raised? && !undone ==>
            out == if ran && body(a.s.w).out == Normal then r.out else Raised(RuntimeFailure))
    // however apply and the body ended
    ensures undone && TruthfulUndos(injector.host.oracle, |old(injector.host.trace)|) ==>
      Restored(injector.fault, injector.host.lab, old(injector.host.lab))
    ensures !undone ==> injector.cleanupRequired
  {
    ghost var o, f, s0, w0 := injector.host.oracle, injector.fault, injector.State(), injector.host.Now();
    CleanupMeans(o, f, w0, body);
    var bodyError := injector.Apply();
    ran := bodyError == Normal;
    if ran { bodyError := RunBody(injector.host, body); }
    assert injector.State() == BeforeRollback(o, f, s0, body);
    var rollbackError := injector.Remove();
    undone := rollbackError == Normal;
    if bodyError.Raised? && rollbackError.Raised? { return Raised(RuntimeFailure), ran, undone; }
    out := if bodyError.Raised? then bodyError else rollbackError;
  }

  /** The rollback after the body is as good as one right after apply. */
  lemma CleanupMeans(o: Oracle, f: Spec.Fault, w0: World, body: Body)
    requires ValidLab(w0.lab) && Bystander(body)
    ensures
      var s := BeforeRollback(o, f, Spec.Sys(w0, Spec.FRESH), body);
      var r := Spec.Remove(o, f, s);
      && (r.out == Normal && TruthfulUndos(o, |w0.trace|) ==> Restored(f, r.s.w.lab, w0.lab))
      && (r.out.Raised? ==> r.s.i.cleanupRequired)
  {
    var s0 := Spec.Sys(w0, Spec.FRESH);
    var a := Spec.Apply(o, f, s0);
    ApplyArms(o, f, w0);
    ApplyLater(o, f, s0);
    assert Observes(a.s.w, body(a.s.w).w);
    var s := BeforeRollback(o, f, s0, body);
    assert WriteAhead(f, s, w0.lab) && |w0.trace| <= |s.w.trace|;
    RemoveKeeps(o, f, s, w0.lab);
    if TruthfulUndos(o, |w0.trace|) {
      assert TruthfulUndos(o, |s.w.trace|);
      RemoveRestores(o, f, s, w0.lab);
    }
  }
}
