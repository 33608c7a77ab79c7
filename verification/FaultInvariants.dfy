/** The invariants every operation of the fault injector keeps, whatever the lab answers. */
module FaultInvariants {
  import opened Basics
  import opened Testbed
  import opened FaultSpec

  // ---- the footprint: all a fault may ever change, and what its flags say about it ----

  ghost predicate ImpairmentFootprint(f: Fault, i: Injector, lab: Lab, lab0: Lab) {
    && lab.containers == lab0.containers && lab.clock == lab0.clock
    && lab0.clsact <= lab.clsact
    && lab.clsact <= lab0.clsact + (if i.createdClsact then {DeviceOf(f)} else {})
    && lab0.filters <= lab.filters
    && lab.filters <= lab0.filters + (if i.filterCleanup then {Rule(f)} else {})
    && (i.createdClsact ==> DeviceOf(f) !in lab0.clsact && ValidTarget(f))
    && (i.filterCleanup ==> !FilterAt(lab0, DeviceOf(f), Preference(f)) && ValidTarget(f))
  }

  /** Everything but the target container is as it was. */
  ghost predicate OnlyTargetDiffers(f: Fault, lab: Lab, lab0: Lab) {
    && lab.clsact == lab0.clsact && lab.filters == lab0.filters
    && lab.containers.Keys == lab0.containers.Keys
    && forall s :: s in lab.containers && s != Service(f) ==> lab.containers[s] == lab0.containers[s]
  }

  /** The target runs exactly when it did, in the same incarnation. */
  ghost predicate SameInstance(f: Fault, lab: Lab, lab0: Lab) {
    Service(f) in lab.containers && Service(f) in lab0.containers ==>
      var now, before := lab.containers[Service(f)], lab0.containers[Service(f)];
      now.running == before.running && now.startedAt == before.startedAt
  }

  ghost predicate Footprint(f: Fault, s: Sys, lab0: Lab) {
    && ValidLab(lab0) && ValidLab(s.w.lab)
    && (s.i.applied && (f.kind.Impairs() || f.kind.ActsOnService()) ==> s.i.cleanupRequired)
    && if f.kind.Impairs() then ImpairmentFootprint(f, s.i, s.w.lab, lab0)
       else if f.kind.ActsOnService() then OnlyTargetDiffers(f, s.w.lab, lab0)
       else s.w.lab == lab0
  }

  ghost predicate Unchanged(f: Fault, lab: Lab, lab0: Lab) {
    if f.kind.ActsOnService() then OnlyTargetDiffers(f, lab, lab0) && SameInstance(f, lab, lab0) else lab == lab0
  }

  /** What rollback promises: an impairment leaves no trace; a service fault leaves its target running
      or as it was, and nothing else touched. */
  ghost predicate Restored(f: Fault, lab: Lab, lab0: Lab) {
    if f.kind.ActsOnService() then
      && OnlyTargetDiffers(f, lab, lab0)
      && (Service(f) in lab.containers && !lab.containers[Service(f)].running ==> SameInstance(f, lab, lab0))
    else lab == lab0
  }

  /** Write-ahead arming: as long as the lab is not restored, the undo is armed. */
  ghost predicate WriteAhead(f: Fault, s: Sys, lab0: Lab) {
    && Footprint(f, s, lab0)
    && (Restored(f, s.w.lab, lab0) || (s.i.cleanupRequired && ValidTarget(f)))
  }

  /** The stronger form that holds until a rollback completes: armed as soon as anything has changed. */
  ghost predicate ArmedOnChange(f: Fault, s: Sys, lab0: Lab) {
    && Footprint(f, s, lab0)
    && (Unchanged(f, s.w.lab, lab0) || (s.i.cleanupRequired && ValidTarget(f)))
  }

  /** Time has passed: the signal dispositions are the same, and every command issued since ran under them. */
  ghost predicate Later(s': Sys, s: Sys) {
    && s.w.trace <= s'.w.trace && s'.w.sigint == s.w.sigint && s'.w.sigterm == s.w.sigterm
    && forall k :: |s.w.trace| <= k < |s'.w.trace| ==>
         s'.w.trace[k].sigint == s.w.sigint && s'.w.trace[k].sigterm == DuringCall(s.w.sigterm)
  }

  // ---- single commands ----

  /** c is a command the rollback would issue from these flags. */
  predicate Issued(f: Fault, i: Injector, c: Command) {
    var cmds := RollbackCommands(f, i);
    cmds.Some? && c in cmds.value && !Skipped(i, c)
  }

  /** The lab moves only towards removal of the fault. */
  ghost predicate Toward(f: Fault, lab': Lab, lab: Lab) {
    && lab'.clsact <= lab.clsact && lab'.filters <= lab.filters
    && lab'.containers.Keys == lab.containers.Keys
    && (Service(f) in lab.containers && lab.containers[Service(f)].running ==> lab'.containers[Service(f)].running)
  }

  /** What the undo command c is for has been achieved. */
  ghost predicate Gone(f: Fault, c: Command, lab: Lab) {
    && (c.DelFilter? ==> Rule(f) !in lab.filters)
    && (c.DelClsact? ==> DeviceOf(f) !in lab.clsact)
    && (c.Start? && Service(f) in lab.containers ==> lab.containers[Service(f)].running)
  }

  lemma InstallStep(f: Fault, i: Injector, lab: Lab, lab0: Lab, c: Command, r: Reply)
    requires ImpairmentFootprint(f, i, lab, lab0)
    requires (c == AddClsact(DeviceOf(f)) && i.createdClsact) || (c == AddFilter(Rule(f)) && i.filterCleanup)
    ensures ImpairmentFootprint(f, i, After(c, lab, r), lab0)
  {
  }

  lemma UndoFilterStep(f: Fault, i: Injector, lab: Lab, lab0: Lab, r: Reply)
    requires ImpairmentFootprint(f, i, lab, lab0) && i.filterCleanup
    ensures
      var c := DelFilter(DeviceOf(f), Preference(f), Rule(f).handle);
      var lab' := After(c, lab, r);
      && ImpairmentFootprint(f, i, lab', lab0) && Toward(f, lab', lab)
      && (r.progress == Done ==> Gone(f, c, lab'))
  {
    assert forall g :: g in lab0.filters ==> !(g.device == DeviceOf(f) && g.pref == Preference(f));
  }

  lemma UndoClsactStep(f: Fault, i: Injector, lab: Lab, lab0: Lab, r: Reply)
    requires ImpairmentFootprint(f, i, lab, lab0) && ValidLab(lab0) && i.createdClsact
    ensures
      var c := DelClsact(DeviceOf(f));
      var lab' := After(c, lab, r);
      && ImpairmentFootprint(f, i, lab', lab0) && Toward(f, lab', lab)
      && (r.progress == Done ==> Gone(f, c, lab'))
  {
  }

  lemma ServiceStep(f: Fault, lab: Lab, lab0: Lab, c: Command, r: Reply)
    requires OnlyTargetDiffers(f, lab, lab0)
    requires c in {Ps(Service(f)), Inspect(Service(f)), Stop(Service(f)), Start(Service(f)), Restart(Service(f))}
    ensures OnlyTargetDiffers(f, After(c, lab, r), lab0)
    ensures c.Ps? || c.Inspect? ==> SameInstance(f, After(c, lab, r), lab)
    ensures c.Start? ==> Toward(f, After(c, lab, r), lab) && (r.progress == Done ==> Gone(f, c, After(c, lab, r)))
  {
  }

  lemma LaterStill(s'': Sys, s': Sys, s: Sys)
    requires Later(s'', s') && Later(s', s)
    ensures Later(s'', s)
  {
  }

  lemma ExamineLater(o: Oracle, s: Sys, service: string)
    ensures Later(Examine(o, s, service).s, s)
  {
    var ps := Run(o, s, Ps(service));
    assert Later(ps.s, s);
    var ins := Run(o, ps.s, Inspect(service));
    assert Later(ins.s, ps.s);
    LaterStill(ins.s, ps.s, s);
  }

  lemma RunValid(o: Oracle, s: Sys, c: Command)
    requires ValidLab(s.w.lab)
    ensures ValidLab(Run(o, s, c).s.w.lab)
  {
    SendKeepsValidLab(o, s.w, c);
  }

  /** Looking at the container has changed nothing but its health and the history. */
  ghost predicate LookedAt(f: Fault, t: Sys, s: Sys, lab0: Lab) {
    && Footprint(f, t, lab0) && t.i == s.i.(history := t.i.history) && Later(t, s)
    && SameInstance(f, t.w.lab, s.w.lab) && t.w.lab.containers.Keys == s.w.lab.containers.Keys
  }

  lemma LookedTwice(f: Fault, t': Sys, t: Sys, s: Sys, lab0: Lab)
    requires LookedAt(f, t', t, lab0) && LookedAt(f, t, s, lab0)
    ensures LookedAt(f, t', s, lab0)
  {
    LaterStill(t', t, s);
  }

  lemma LookKeeps(o: Oracle, f: Fault, s: Sys, c: Command, lab0: Lab)
    requires f.kind.ActsOnService() && Footprint(f, s, lab0) && (c == Ps(Service(f)) || c == Inspect(Service(f)))
    ensures LookedAt(f, Run(o, s, c).s, s, lab0)
  {
    RunValid(o, s, c);
    ServiceStep(f, s.w.lab, lab0, c, o(|s.w.trace|, c));
  }

  lemma ExamineIsOneOrTwo(o: Oracle, s: Sys, service: string)
    ensures
      var ps := Run(o, s, Ps(service)).s;
      var t := Examine(o, s, service).s;
      t == ps || t == Run(o, ps, Inspect(service)).s
  {
  }

  lemma ExamineKeeps(o: Oracle, f: Fault, s: Sys, lab0: Lab)
    requires f.kind.ActsOnService() && Footprint(f, s, lab0)
    ensures LookedAt(f, Examine(o, s, Service(f)).s, s, lab0)
  {
    var ps := Run(o, s, Ps(Service(f))).s;
    var ins := Run(o, ps, Inspect(Service(f))).s;
    LookKeeps(o, f, s, Ps(Service(f)), lab0);
    LookKeeps(o, f, ps, Inspect(Service(f)), lab0);
    LookedTwice(f, ins, ps, s, lab0);
    ExamineIsOneOrTwo(o, s, Service(f));
  }

  // ---- apply ----

  /** The state between two commands of an impairment being installed. */
  ghost predicate Installing(f: Fault, s: Sys, lab0: Lab) {
    && ValidLab(s.w.lab) && !s.i.applied
    && ImpairmentFootprint(f, s.i, s.w.lab, lab0)
    && (s.i.createdClsact || s.i.filterCleanup ==> s.i.cleanupRequired)
  }

  lemma InstallClsactArms(o: Oracle, f: Fault, s: Sys, lab0: Lab)
    requires ValidTarget(f) && Installing(f, s, lab0) && s.w.lab == lab0
    ensures Installing(f, InstallClsact(o, f, s).s, lab0)
    ensures InstallClsact(o, f, s).s.i.filterCleanup == s.i.filterCleanup
  {
    if DeviceOf(f) !in s.w.lab.clsact {
      var armed := Armed(s.(i := s.i.(createdClsact := true)));
      RunValid(o, armed, AddClsact(DeviceOf(f)));
      InstallStep(f, armed.i, s.w.lab, lab0, AddClsact(DeviceOf(f)), o(|s.w.trace|, AddClsact(DeviceOf(f))));
    }
  }

  lemma InstallFilterArms(o: Oracle, f: Fault, s: Sys, lab0: Lab)
    requires ValidTarget(f) && Installing(f, s, lab0)
    requires !FilterAt(lab0, DeviceOf(f), Preference(f))
    ensures
      var t := InstallFilter(o, f, s).s;
      ValidLab(t.w.lab) && ImpairmentFootprint(f, t.i, t.w.lab, lab0) && t.i.cleanupRequired
  {
    var armed := Armed(s.(i := s.i.(filterCleanup := true)));
    RunValid(o, armed, AddFilter(Rule(f)));
    InstallStep(f, armed.i, s.w.lab, lab0, AddFilter(Rule(f)), o(|s.w.trace|, AddFilter(Rule(f))));
  }

  lemma ApplyImpairmentArms(o: Oracle, f: Fault, w0: World)
    requires f.kind.Impairs() && ValidLab(w0.lab)
    ensures ArmedOnChange(f, ApplyImpairment(o, f, Sys(w0, FRESH)).s, w0.lab)
  {
    var s := Sys(w0, FRESH);
    if ValidTarget(f) {
      var show := Run(o, s, ShowFilter(DeviceOf(f), Preference(f)));
      if !show.out.Raised? && !FilterAt(show.s.w.lab, DeviceOf(f), Preference(f)) {
        var q := Run(o, show.s, ShowQdisc(DeviceOf(f)));
        if !q.out.Raised? {
          assert q.s.w.lab == w0.lab;
          InstallClsactArms(o, f, q.s, w0.lab);
          var a := InstallClsact(o, f, q.s);
          if !a.out.Raised? {
            InstallFilterArms(o, f, a.s, w0.lab);
          }
        }
      }
    }
  }

  /** A stop or restart issued with the cleanup armed leaves it armed, and touches only the target. */
  lemma MutateService(o: Oracle, f: Fault, s: Sys, c: Command, lab0: Lab)
    requires f.kind.ActsOnService() && ValidTarget(f) && s.i.cleanupRequired
    requires ValidLab(lab0) && ValidLab(s.w.lab) && OnlyTargetDiffers(f, s.w.lab, lab0)
    requires c == Stop(Service(f)) || c == Restart(Service(f))
    ensures ArmedOnChange(f, Finish(Run(o, s, c)).s, lab0)
  {
    RunValid(o, s, c);
    ServiceStep(f, s.w.lab, lab0, c, o(|s.w.trace|, c));
  }

  lemma ExamineArms(o: Oracle, f: Fault, w0: World)
    requires f.kind.ActsOnService() && ValidLab(w0.lab)
    ensures
      var s := Examine(o, Sys(w0, FRESH), Service(f)).s;
      ArmedOnChange(f, s, w0.lab) && ValidLab(s.w.lab) && OnlyTargetDiffers(f, s.w.lab, w0.lab)
  {
    ExamineKeeps(o, f, Sys(w0, FRESH), w0.lab);
  }

  lemma ApplyServiceArms(o: Oracle, f: Fault, w0: World)
    requires f.kind.ActsOnService() && ValidLab(w0.lab)
    ensures ArmedOnChange(f, Apply(o, f, Sys(w0, FRESH)).s, w0.lab)
  {
    var s := Sys(w0, FRESH);
    if f.kind.RestartService? && ValidService(f) {
      ExamineArms(o, f, w0);
      var look := Examine(o, s, Service(f));
      if look.out == Normal && look.found.Some? && look.found.value.running {
        var s' := Armed(look.s.(i := look.s.i.(restartedAt := Some(look.found.value.startedAt))));
        MutateService(o, f, s', Restart(Service(f)), w0.lab);
        assert Apply(o, f, s) == Finish(Run(o, s', Restart(Service(f))));
      } else {
        assert Apply(o, f, s).s == look.s;
      }
    } else if f.kind.StopService? && ValidService(f) {
      MutateService(o, f, Armed(s), Stop(Service(f)), w0.lab);
    }
  }

  /** Whatever the lab does, however apply ends, and wherever it is cut short: nothing outside the fault's
      footprint has changed, and the undo was armed before anything did. */
  lemma ApplyArms(o: Oracle, f: Fault, w0: World)
    requires ValidLab(w0.lab)
    ensures ArmedOnChange(f, Apply(o, f, Sys(w0, FRESH)).s, w0.lab)
  {
    if f.kind.Impairs() {
      ApplyImpairmentArms(o, f, w0);
    } else if f.kind.ActsOnService() {
      ApplyServiceArms(o, f, w0);
    }
  }

  lemma InstallLater(o: Oracle, f: Fault, s: Sys)
    ensures Later(Install(o, f, s).s, s)
  {
    var q := Run(o, s, ShowQdisc(DeviceOf(f)));
    assert Later(q.s, s);
    var a := InstallClsact(o, f, q.s);
    assert Later(a.s, q.s);
    LaterStill(a.s, q.s, s);
    var b := InstallFilter(o, f, a.s);
    assert Later(b.s, a.s);
    LaterStill(b.s, a.s, s);
  }

  lemma ApplyLater(o: Oracle, f: Fault, s: Sys)
    ensures Later(Apply(o, f, s).s, s)
  {
    if f.kind.Impairs() {
      var show := Run(o, s, ShowFilter(DeviceOf(f), Preference(f)));
      assert Later(show.s, s);
      InstallLater(o, f, show.s);
      LaterStill(Install(o, f, show.s).s, show.s, s);
    } else if f.kind.RestartService? {
      ExamineLater(o, s, Service(f));
      var look := Examine(o, s, Service(f));
      if look.out == Normal && look.found.Some? {
        var s' := Armed(look.s.(i := look.s.i.(restartedAt := Some(look.found.value.startedAt))));
        var t := Run(o, s', Restart(Service(f)));
        assert Later(t.s, look.s);
        LaterStill(t.s, look.s, s);
      }
    } else if f.kind.StopService? {
      assert Later(Run(o, Armed(s), Stop(Service(f))).s, s);
    }
  }

  // ---- remove ----

  lemma UndoRun(o: Oracle, f: Fault, s: Sys, c: Command, lab0: Lab)
    requires Footprint(f, s, lab0) && Issued(f, s.i, c)
    ensures
      var r := Run(o, s, c);
      && Footprint(f, r.s, lab0) && Toward(f, r.s.w.lab, s.w.lab)
      && (TruthfulUndos(o, |s.w.trace|) && r.out == Normal ==> Gone(f, c, r.s.w.lab))
  {
    RunValid(o, s, c);
    var reply := o(|s.w.trace|, c);
    if c.DelFilter? {
      UndoFilterStep(f, s.i, s.w.lab, lab0, reply);
    } else if c.DelClsact? {
      UndoClsactStep(f, s.i, s.w.lab, lab0, reply);
    } else {
      ServiceStep(f, s.w.lab, lab0, c, reply);
    }
  }

  lemma ConfirmKeeps(o: Oracle, f: Fault, s: Sys, c: Command, lab0: Lab)
    ensures
      var u := ConfirmAbsent(o, f, s, c);
      && u.s.w.lab == s.w.lab && Later(u.s, s) && u.s.i == s.i.(history := u.s.i.history)
      && (u.out == Normal && u.errors == 0 && (c.Start? ==> f.kind.ActsOnService()) ==> Gone(f, c, u.s.w.lab))
  {
  }

  lemma UndoKeeps(o: Oracle, f: Fault, s: Sys, c: Command, lab0: Lab)
    requires Footprint(f, s, lab0) && Issued(f, s.i, c)
    ensures
      var u := Undo(o, f, s, c);
      && Footprint(f, u.s, lab0) && Later(u.s, s) && u.s.i == s.i.(history := u.s.i.history)
      && Toward(f, u.s.w.lab, s.w.lab)
      && (TruthfulUndos(o, |s.w.trace|) && u.out == Normal && u.errors == 0 ==> Gone(f, c, u.s.w.lab))
  {
    UndoRun(o, f, s, c, lab0);
    var r := Run(o, s, c);
    assert Later(r.s, s);
    ConfirmKeeps(o, f, r.s, c, lab0);
    LaterStill(ConfirmAbsent(o, f, r.s, c).s, r.s, s);
  }

  lemma {:induction false} SweepKeeps(o: Oracle, f: Fault, s: Sys, cmds: seq<Command>, lab0: Lab)
    requires Footprint(f, s, lab0)
    requires forall c :: c in cmds && !Skipped(s.i, c) ==> Issued(f, s.i, c)
    ensures
      var w := SweepAll(o, f, s, cmds);
      && Footprint(f, w.s, lab0) && Later(w.s, s) && w.s.i == s.i.(history := w.s.i.history)
      && Toward(f, w.s.w.lab, s.w.lab)
      && (TruthfulUndos(o, |s.w.trace|) && w.out == Normal && w.errors == 0 ==>
            forall c :: c in cmds && !Skipped(s.i, c) ==> Gone(f, c, w.s.w.lab))
    decreases |cmds|
  {
    if cmds != [] {
      var rest := cmds[1..];
      assert cmds == [cmds[0]] + rest;
      if Skipped(s.i, cmds[0]) {
        SweepKeeps(o, f, s, rest, lab0);
      } else {
        UndoKeeps(o, f, s, cmds[0], lab0);
        var u := Undo(o, f, s, cmds[0]);
        if !u.out.Raised? {
          forall c | c in rest && !Skipped(u.s.i, c) ensures Issued(f, u.s.i, c) {
            assert Issued(f, s.i, c);
          }
          SweepKeeps(o, f, u.s, rest, lab0);
        }
      }
    }
  }

  /** From the footprint, achieving every issued undo command is restoration. */
  lemma AllGoneRestores(f: Fault, i: Injector, lab: Lab, lab0: Lab)
    requires f.kind.Impairs() ==> ImpairmentFootprint(f, i, lab, lab0)
    requires f.kind.ActsOnService() ==> OnlyTargetDiffers(f, lab, lab0)
    requires !f.kind.Impairs() && !f.kind.ActsOnService() ==> lab == lab0
    requires RollbackCommands(f, i).Some?
    requires forall c :: Issued(f, i, c) ==> Gone(f, c, lab)
    ensures Restored(f, lab, lab0)
  {
    if f.kind.Impairs() {
      var del := DelFilter(DeviceOf(f), Preference(f), Rule(f).handle);
      var cmds := RollbackCommands(f, i).value;
      assert cmds[0] == del;
      if i.filterCleanup { assert Issued(f, i, del); }
      if i.createdClsact {
        assert cmds[1] == DelClsact(DeviceOf(f));
        assert Issued(f, i, DelClsact(DeviceOf(f)));
      }
      assert lab.filters == lab0.filters && lab.clsact == lab0.clsact;
    } else if f.kind.ActsOnService() {
      assert RollbackCommands(f, i).value[0] == Start(Service(f));
      assert Issued(f, i, Start(Service(f)));
    }
  }

  /** Remove never leaves the footprint, whatever the lab answers; a remove that raises keeps the undo armed. */
  lemma RemoveKeeps(o: Oracle, f: Fault, s: Sys, lab0: Lab)
    requires Footprint(f, s, lab0)
    ensures Footprint(f, Remove(o, f, s).s, lab0)
    ensures
      var r := Remove(o, f, s);
      && Toward(f, r.s.w.lab, s.w.lab) && Later(r.s, s)
      && (r.out.Raised? ==> r.s.i == s.i.(history := r.s.i.history))
      && (r.out == Normal ==> r.s.i == s.i.(history := r.s.i.history, applied := false, cleanupRequired := false))
  {
    var cmds := RollbackCommands(f, s.i);
    if (s.i.applied || s.i.cleanupRequired) && cmds.Some? {
      SweepKeeps(o, f, s, cmds.value, lab0);
      SettledKeeps(f, SweepAll(o, f, s, cmds.value), s, lab0);
    }
  }

  /** Settling the account of a sweep touches nothing but the two flags. */
  lemma SettledKeeps(f: Fault, w: Sweep, s: Sys, lab0: Lab)
    requires Footprint(f, w.s, lab0) && Later(w.s, s) && w.s.i == s.i.(history := w.s.i.history)
    requires Toward(f, w.s.w.lab, s.w.lab)
    ensures
      var r := Settled(w);
      && Footprint(f, r.s, lab0) && Toward(f, r.s.w.lab, s.w.lab) && Later(r.s, s)
      && (r.out.Raised? ==> r.s.i == s.i.(history := r.s.i.history))
      && (r.out == Normal ==> r.s.i == s.i.(history := r.s.i.history, applied := false, cleanupRequired := false))
  {
  }

  /** A rollback that returns normally has restored the lab, if its undo commands do not lie. */
  lemma RemoveRestores(o: Oracle, f: Fault, s: Sys, lab0: Lab)
    requires WriteAhead(f, s, lab0) && TruthfulUndos(o, |s.w.trace|)
    ensures WriteAhead(f, Remove(o, f, s).s, lab0)
    ensures Remove(o, f, s).out == Normal ==> Restored(f, Remove(o, f, s).s.w.lab, lab0)
  {
    RemoveKeeps(o, f, s, lab0);
    var r := Remove(o, f, s);
    var cmds := RollbackCommands(f, s.i);
    if s.i.applied || s.i.cleanupRequired {
      if cmds.Some? {
        SweepKeeps(o, f, s, cmds.value, lab0);
        var w := SweepAll(o, f, s, cmds.value);
        if r.out == Normal {
          AllGoneRestores(f, s.i, w.s.w.lab, lab0);
        }
      }
    }
  }
}
