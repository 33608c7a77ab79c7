/** Theorems about whole runs of the fault injector: one apply, then any checks and rollbacks. */
module FaultRuns {
  import opened Basics
  import opened Testbed
  import opened FaultSpec
  import opened FaultInvariants

  datatype Op = CheckApplied | CheckRemoved | Rollback

  function Do(o: Oracle, f: Fault, s: Sys, op: Op): Sys {
    match op
    case CheckApplied => VerifyApplied(o, f, s).s
    case CheckRemoved => VerifyRemoved(o, f, s).s
    case Rollback => Remove(o, f, s).s
  }

  function DoAll(o: Oracle, f: Fault, s: Sys, ops: seq<Op>): Sys
    decreases |ops|
  {
    if ops == [] then s else Do(o, f, DoAll(o, f, s, ops[..|ops| - 1]), ops[|ops| - 1])
  }

  /** The state after apply, however it ended, and then any operations in any order. */
  function RunOf(o: Oracle, f: Fault, w0: World, ops: seq<Op>): Sys {
    DoAll(o, f, Apply(o, f, Sys(w0, FRESH)).s, ops)
  }

  /** A check changes nothing it is there to check. */
  ghost predicate CheckedOnly(f: Fault, t: Sys, s: Sys, lab0: Lab) {
    && Footprint(f, t, lab0) && t.i == s.i.(history := t.i.history) && Later(t, s)
    && t.w.lab.containers.Keys == s.w.lab.containers.Keys
    && (if f.kind.ActsOnService() then SameInstance(f, t.w.lab, s.w.lab) else t.w.lab == s.w.lab)
  }

  /** The fault's checks either examine the container or only read tc state. */
  lemma ReadingOnly(f: Fault, t: Sys, s: Sys, lab0: Lab)
    requires Footprint(f, s, lab0) && t.w.lab == s.w.lab && t.i == s.i.(history := t.i.history) && Later(t, s)
    ensures CheckedOnly(f, t, s, lab0)
  {
  }

  lemma VerifyAppliedKeeps(o: Oracle, f: Fault, s: Sys, lab0: Lab)
    requires Footprint(f, s, lab0)
    ensures CheckedOnly(f, VerifyApplied(o, f, s).s, s, lab0)
  {
    ReadingOnly(f, s, s, lab0);
    if f.kind.ActsOnService() && ValidService(f) {
      ExamineKeeps(o, f, s, lab0);
      assert VerifyApplied(o, f, s).s == Examine(o, s, Service(f)).s;
    } else if f.kind.Impairs() && ValidTarget(f) {
      var show := Run(o, s, ShowFilter(DeviceOf(f), Preference(f)));
      ReadingOnly(f, show.s, s, lab0);
      assert VerifyApplied(o, f, s).s == show.s;
    } else {
      assert VerifyApplied(o, f, s).s == s;
    }
  }

  lemma VerifyImpairmentRemovedReads(o: Oracle, f: Fault, s: Sys)
    ensures
      var t := VerifyImpairmentRemoved(o, f, s).s;
      t.w.lab == s.w.lab && t.i == s.i.(history := t.i.history) && Later(t, s)
  {
    var show := Run(o, s, ShowFilter(DeviceOf(f), Preference(f)));
    assert show.s.w.lab == s.w.lab && Later(show.s, s);
    var q := Run(o, show.s, ShowQdisc(DeviceOf(f)));
    assert q.s.w.lab == s.w.lab && Later(q.s, show.s);
  }

  lemma VerifyRemovedKeeps(o: Oracle, f: Fault, s: Sys, lab0: Lab)
    requires Footprint(f, s, lab0)
    ensures CheckedOnly(f, VerifyRemoved(o, f, s).s, s, lab0)
  {
    ReadingOnly(f, s, s, lab0);
    if f.kind.ActsOnService() && ValidService(f) {
      ExamineKeeps(o, f, s, lab0);
      assert VerifyRemoved(o, f, s).s == Examine(o, s, Service(f)).s;
    } else if f.kind.Impairs() {
      VerifyImpairmentRemovedReads(o, f, s);
      ReadingOnly(f, VerifyImpairmentRemoved(o, f, s).s, s, lab0);
    } else {
      assert VerifyRemoved(o, f, s).s == s;
    }
  }

  lemma DoKeeps(o: Oracle, f: Fault, s: Sys, op: Op, lab0: Lab)
    requires Footprint(f, s, lab0)
    ensures Footprint(f, Do(o, f, s, op), lab0) && Later(Do(o, f, s, op), s)
    ensures TruthfulUndos(o, |s.w.trace|) && WriteAhead(f, s, lab0) ==> WriteAhead(f, Do(o, f, s, op), lab0)
  {
    if op.Rollback? {
      RemoveKeeps(o, f, s, lab0);
      if TruthfulUndos(o, |s.w.trace|) && WriteAhead(f, s, lab0) { RemoveRestores(o, f, s, lab0); }
    } else {
      VerifyAppliedKeeps(o, f, s, lab0);
      VerifyRemovedKeeps(o, f, s, lab0);
    }
  }

  lemma {:induction false} RunKeeps(o: Oracle, f: Fault, w0: World, ops: seq<Op>)
    requires ValidLab(w0.lab)
    ensures Footprint(f, RunOf(o, f, w0, ops), w0.lab) && Later(RunOf(o, f, w0, ops), Sys(w0, FRESH))
    ensures TruthfulUndos(o, |w0.trace|) ==> WriteAhead(f, RunOf(o, f, w0, ops), w0.lab)
    decreases |ops|
  {
    if ops == [] {
      ApplyArms(o, f, w0);
      ApplyLater(o, f, Sys(w0, FRESH));
    } else {
      RunKeeps(o, f, w0, ops[..|ops| - 1]);
      DoKeeps(o, f, RunOf(o, f, w0, ops[..|ops| - 1]), ops[|ops| - 1], w0.lab);
    }
  }

  // ---- the theorems ----

  /** Crash-tolerant rollback. apply may end in any way at any command, any mixture of checks and failed
      rollbacks may follow: a remove that then returns normally has restored the lab, provided a zero
      return code on an undo command is true. Nothing is assumed of any other reply. */
  lemma CrashTolerantRollback(o: Oracle, f: Fault, w0: World, ops: seq<Op>)
    requires ValidLab(w0.lab) && TruthfulUndos(o, |w0.trace|)
    requires Remove(o, f, RunOf(o, f, w0, ops)).out == Normal
    ensures Restored(f, Remove(o, f, RunOf(o, f, w0, ops)).s.w.lab, w0.lab)
  {
    RunKeeps(o, f, w0, ops);
    RemoveRestores(o, f, RunOf(o, f, w0, ops), w0.lab);
  }

  function EffectAll(cmds: seq<Command>, lab: Lab): Lab {
    if cmds == [] then lab else EffectAll(cmds[1..], Effect(cmds[0], lab))
  }

  /** The commands remove would actually send to the runner, in order. */
  function IssuedCommands(f: Fault, i: Injector): seq<Command> {
    var cmds := RollbackCommands(f, i);
    if cmds.None? then [] else Kept(i, cmds.value)
  }

  function Kept(i: Injector, cmds: seq<Command>): seq<Command> {
    if cmds == [] then [] else (if Skipped(i, cmds[0]) then [] else [cmds[0]]) + Kept(i, cmds[1..])
  }

  /** The undo commands in a history, in order. */
  function Undos(h: seq<Command>): seq<Command> {
    if h == [] then [] else Undos(h[..|h| - 1]) + (if h[|h| - 1].Undoes() then [h[|h| - 1]] else [])
  }

  lemma UndosAppend(h: seq<Command>, c: Command)
    ensures Undos(h + [c]) == Undos(h) + (if c.Undoes() then [c] else [])
  {
    assert (h + [c])[..|h|] == h;
  }

  /** The command that confirms an absence. */
  function Confirmation(f: Fault, c: Command): Command {
    if c.DelFilter? then ShowFilter(DeviceOf(f), Preference(f)) else ShowQdisc(DeviceOf(f))
  }

  /** What one undo adds to the history: the command, and perhaps its confirmation. */
  lemma UndoHistory(o: Oracle, f: Fault, s: Sys, c: Command)
    ensures
      var u := Undo(o, f, s, c);
      && (u.s.i.history == s.i.history + [c] || u.s.i.history == (s.i.history + [c]) + [Confirmation(f, c)])
      && u.s.i == s.i.(history := u.s.i.history) && u.out != Raised(RuntimeFailure)
  {
    var r := Run(o, s, c);
    assert r.s.i == s.i.(history := s.i.history + [c]);
    var look := Run(o, r.s, Confirmation(f, c));
    assert look.s.i == r.s.i.(history := r.s.i.history + [Confirmation(f, c)]);
  }

  lemma UndoIssues(o: Oracle, f: Fault, s: Sys, c: Command)
    requires c.Undoes()
    ensures
      var u := Undo(o, f, s, c);
      && Undos(u.s.i.history) == Undos(s.i.history) + [c]
      && u.s.i == s.i.(history := u.s.i.history) && u.out != Raised(RuntimeFailure)
  {
    UndoHistory(o, f, s, c);
    UndosAppend(s.i.history, c);
    UndosAppend(s.i.history + [c], Confirmation(f, c));
  }

  lemma {:induction false} SweepIssues(o: Oracle, f: Fault, s: Sys, cmds: seq<Command>)
    requires forall c :: c in cmds ==> c.Undoes()
    ensures
      var w := SweepAll(o, f, s, cmds);
      && (w.out == Normal ==> Undos(w.s.i.history) == Undos(s.i.history) + Kept(s.i, cmds))
      && w.out != Raised(RuntimeFailure)
    decreases |cmds|
  {
    if cmds != [] {
      if Skipped(s.i, cmds[0]) {
        SweepIssues(o, f, s, cmds[1..]);
      } else {
        UndoIssues(o, f, s, cmds[0]);
        var u := Undo(o, f, s, cmds[0]);
        if u.out == Normal {
          SweepIssues(o, f, u.s, cmds[1..]);
          SkippedSame(s.i, u.s.i, cmds[1..]);
          assert Kept(s.i, cmds) == [cmds[0]] + Kept(s.i, cmds[1..]);
          Regroup(Undos(s.i.history), [cmds[0]], Kept(s.i, cmds[1..]));
        }
      }
    }
  }

  lemma Regroup(a: seq<Command>, b: seq<Command>, c: seq<Command>)
    ensures a + b + c == a + (b + c)
  {
  }

  lemma {:induction false} SkippedSame(i: Injector, i': Injector, cmds: seq<Command>)
    requires i'.filterCleanup == i.filterCleanup
    ensures Kept(i, cmds) == Kept(i', cmds)
    decreases |cmds|
  {
    if cmds != [] { SkippedSame(i, i', cmds[1..]); }
  }

  /** A remove that is not cut short issues exactly these undo commands, whether they succeed or fail. */
  lemma RemoveIssues(o: Oracle, f: Fault, s: Sys)
    requires s.i.applied || s.i.cleanupRequired
    requires Remove(o, f, s).out == Normal || Remove(o, f, s).out == Raised(RuntimeFailure)
    ensures Undos(Remove(o, f, s).s.i.history) == Undos(s.i.history) + IssuedCommands(f, s.i)
  {
    if RollbackCommands(f, s.i).Some? {
      SweepIssues(o, f, s, RollbackCommands(f, s.i).value);
    }
  }

  lemma Two(i: Injector, a: Command, b: Command, lab: Lab)
    ensures Kept(i, [a]) == (if Skipped(i, a) then [] else [a])
    ensures Kept(i, [a, b]) == (if Skipped(i, a) then [] else [a]) + (if Skipped(i, b) then [] else [b])
    ensures EffectAll([a], lab) == Effect(a, lab) && EffectAll([a, b], lab) == Effect(b, Effect(a, lab))
  {
    assert [a, b][1..] == [b] && [a][1..] == [] && [b][1..] == [];
    assert EffectAll([b], Effect(a, lab)) == Effect(b, Effect(a, lab));
  }

  lemma IssuedUndoOfImpairment(f: Fault, i: Injector, lab: Lab, lab0: Lab)
    requires f.kind.Impairs() && ValidTarget(f) && ValidLab(lab0) && ImpairmentFootprint(f, i, lab, lab0)
    ensures EffectAll(IssuedCommands(f, i), lab) == lab0
  {
    var del, clear := DelFilter(DeviceOf(f), Preference(f), Rule(f).handle), DelClsact(DeviceOf(f));
    var honest := Reply(Done, Quiet, AsKernelSays, NoHealthcheck);
    var mid := if i.filterCleanup then Effect(del, lab) else lab;
    var end := if i.createdClsact then Effect(clear, mid) else mid;
    if i.filterCleanup { UndoFilterStep(f, i, lab, lab0, honest); }
    if i.createdClsact { UndoClsactStep(f, i, mid, lab0, honest); }
    assert EffectAll(IssuedCommands(f, i), lab) == end by {
      Two(i, del, clear, lab);
      Two(i, clear, clear, lab);
    }
    assert end.filters == lab0.filters && end.clsact == lab0.clsact;
  }

  lemma IssuedUndo(f: Fault, s: Sys, lab0: Lab)
    requires Footprint(f, s, lab0) && (f.kind.Impairs() || f.kind.ActsOnService() ==> ValidTarget(f))
    ensures Restored(f, EffectAll(IssuedCommands(f, s.i), s.w.lab), lab0)
  {
    if f.kind.Impairs() {
      IssuedUndoOfImpairment(f, s.i, s.w.lab, lab0);
    } else if f.kind.ActsOnService() {
      Two(s.i, Start(Service(f)), Start(Service(f)), s.w.lab);
    }
  }

  /** Write-ahead arming over every reachable state, cut short anywhere: a lab that differs from its initial
      state has the undo armed, and the commands remove would issue from that state undo every difference. */
  lemma WriteAheadArming(o: Oracle, f: Fault, w0: World, ops: seq<Op>)
    requires ValidLab(w0.lab) && TruthfulUndos(o, |w0.trace|)
    requires !Restored(f, RunOf(o, f, w0, ops).w.lab, w0.lab)
    ensures
      var s := RunOf(o, f, w0, ops);
      s.i.cleanupRequired && Restored(f, EffectAll(IssuedCommands(f, s.i), s.w.lab), w0.lab)
  {
    RunKeeps(o, f, w0, ops);
    IssuedUndo(f, RunOf(o, f, w0, ops), w0.lab);
  }

  /** None of the rollbacks among these operations returned normally. */
  ghost predicate NeverRolledBack(o: Oracle, f: Fault, w0: World, ops: seq<Op>) {
    forall i :: 0 <= i < |ops| && ops[i].Rollback? ==> Remove(o, f, RunOf(o, f, w0, ops[..i])).out.Raised?
  }

  lemma {:induction false} NeverRolledBackArms(o: Oracle, f: Fault, w0: World, ops: seq<Op>)
    requires ValidLab(w0.lab) && NeverRolledBack(o, f, w0, ops)
    ensures ArmedOnChange(f, RunOf(o, f, w0, ops), w0.lab)
    decreases |ops|
  {
    if ops == [] {
      ApplyArms(o, f, w0);
    } else {
      var before, op := ops[..|ops| - 1], ops[|ops| - 1];
      assert forall i :: 0 <= i < |before| ==> before[i] == ops[i] && before[..i] == ops[..i];
      NeverRolledBackArms(o, f, w0, before);
      if op.Rollback? {
        FailedRemoveArms(o, f, RunOf(o, f, w0, before), w0.lab);
      } else {
        VerifyAppliedKeeps(o, f, RunOf(o, f, w0, before), w0.lab);
        VerifyRemovedKeeps(o, f, RunOf(o, f, w0, before), w0.lab);
      }
    }
  }

  /** A rollback that raises leaves the undo armed for any change. */
  lemma FailedRemoveArms(o: Oracle, f: Fault, s: Sys, lab0: Lab)
    requires ArmedOnChange(f, s, lab0) && Remove(o, f, s).out.Raised?
    ensures ArmedOnChange(f, Remove(o, f, s).s, lab0)
  {
    RemoveKeeps(o, f, s, lab0);
  }

  /** Until a rollback has returned this needs no assumption about any reply: whatever apply, the checks and the
      rollbacks that raised have done, a lab that differs at all has the undo armed, and the commands remove would issue
      undo every difference. */
  lemma ArmingPrecedesChange(o: Oracle, f: Fault, w0: World, ops: seq<Op>)
    requires ValidLab(w0.lab) && NeverRolledBack(o, f, w0, ops)
    ensures
      var s := RunOf(o, f, w0, ops);
      !Unchanged(f, s.w.lab, w0.lab) ==>
        s.i.cleanupRequired && Restored(f, EffectAll(IssuedCommands(f, s.i), s.w.lab), w0.lab)
  {
    NeverRolledBackArms(o, f, w0, ops);
    var s := RunOf(o, f, w0, ops);
    if !Unchanged(f, s.w.lab, w0.lab) { IssuedUndo(f, s, w0.lab); }
  }

  /** What verify_removed answers true to. */
  ghost predicate Verified(f: Fault, lab: Lab, lab0: Lab) {
    if f.kind.ActsOnService() then
      && OnlyTargetDiffers(f, lab, lab0) && Service(f) in lab.containers
      && lab.containers[Service(f)].running && lab.containers[Service(f)].health != Unhealthy
    else lab == lab0
  }

  lemma FootprintVerified(f: Fault, s: Sys, lab0: Lab)
    requires f.kind.Impairs() && Footprint(f, s, lab0)
    ensures
      !FilterAt(s.w.lab, DeviceOf(f), Preference(f)) && (s.i.createdClsact ==> DeviceOf(f) !in s.w.lab.clsact) <==>
      s.w.lab == lab0 && !FilterAt(lab0, DeviceOf(f), Preference(f))
  {
    if !FilterAt(s.w.lab, DeviceOf(f), Preference(f)) {
      assert Rule(f) !in s.w.lab.filters;
      assert s.w.lab.filters == lab0.filters;
    }
    if !FilterAt(s.w.lab, DeviceOf(f), Preference(f)) && (s.i.createdClsact ==> DeviceOf(f) !in s.w.lab.clsact) {
      assert s.w.lab.clsact == lab0.clsact;
    }
  }

  lemma VerifyRemovedMeans(o: Oracle, f: Fault, s: Sys, lab0: Lab)
    requires Footprint(f, s, lab0)
    ensures VerifyRemoved(o, f, s).ok ==> Verified(f, VerifyRemoved(o, f, s).s.w.lab, lab0)
  {
    VerifyRemovedKeeps(o, f, s, lab0);
    if f.kind.Impairs() && VerifyRemoved(o, f, s).ok {
      VerifyImpairmentRemovedReads(o, f, s);
      var show := Run(o, s, ShowFilter(DeviceOf(f), Preference(f)));
      assert show.s.w.lab == s.w.lab;
      FootprintVerified(f, s, lab0);
    }
  }

  /** Only the show commands are trusted: a verified rollback means the lab is as it was before the fault (or,
      for a service fault, that its container runs and nothing else moved), however mutating replies lied. */
  lemma VerifiedRollbackIsReal(o: Oracle, f: Fault, w0: World, ops: seq<Op>)
    requires ValidLab(w0.lab)
    requires VerifyRemoved(o, f, RunOf(o, f, w0, ops)).ok
    ensures Verified(f, VerifyRemoved(o, f, RunOf(o, f, w0, ops)).s.w.lab, w0.lab)
  {
    RunKeeps(o, f, w0, ops);
    VerifyRemovedMeans(o, f, RunOf(o, f, w0, ops), w0.lab);
  }

  /** The check is exact: while its show commands answer, verify_removed is true for an impairment exactly
      when the lab equals its initial state and that state had no filter at the preference. */
  lemma VerifyRemovedExact(o: Oracle, f: Fault, w0: World, ops: seq<Op>)
    requires f.kind.Impairs() && ValidTarget(f) && ValidLab(w0.lab)
    requires
      var s := RunOf(o, f, w0, ops);
      ShowsAnswer(o, s.w)
    ensures
      var s := RunOf(o, f, w0, ops);
      VerifyRemoved(o, f, s).ok <==> s.w.lab == w0.lab && !FilterAt(w0.lab, DeviceOf(f), Preference(f))
  {
    RunKeeps(o, f, w0, ops);
    var s := RunOf(o, f, w0, ops);
    FootprintVerified(f, s, w0.lab);
    var show := Run(o, s, ShowFilter(DeviceOf(f), Preference(f)));
    assert show.s.w.lab == s.w.lab && show.out == Normal;
    var q := Run(o, show.s, ShowQdisc(DeviceOf(f)));
    assert q.s.w.lab == s.w.lab && q.out == Normal;
  }

  /** What verify_applied answers true to, right after an apply that returned. */
  ghost predicate InEffect(f: Fault, lab: Lab, lab0: Lab) {
    var s := Service(f);
    match f.kind
    case N2Impairment | N3Impairment => Rule(f) in lab.filters && !FilterAt(lab0, DeviceOf(f), Preference(f))
    case StopService => s in lab.containers && !lab.containers[s].running
    case RestartService =>
      && s in lab.containers && s in lab0.containers && lab0.containers[s].running
      && lab.containers[s].running && lab.containers[s].startedAt != lab0.containers[s].startedAt
      && lab.containers[s].health != Unhealthy
    case NoFault => lab == lab0
    case _ => false
  }

  lemma ImpairmentAppliedArmsFilter(o: Oracle, f: Fault, s: Sys)
    requires f.kind.Impairs() && ApplyImpairment(o, f, s).out == Normal
    ensures ApplyImpairment(o, f, s).s.i.filterCleanup
  {
  }

  /** A fault reported as verified is in effect and was put there by this apply, whatever replies were lies. */
  lemma VerifiedFaultIsReal(o: Oracle, f: Fault, w0: World)
    requires ValidLab(w0.lab)
    requires Apply(o, f, Sys(w0, FRESH)).out == Normal
    requires VerifyApplied(o, f, Apply(o, f, Sys(w0, FRESH)).s).ok
    ensures InEffect(f, VerifyApplied(o, f, Apply(o, f, Sys(w0, FRESH)).s).s.w.lab, w0.lab)
  {
    ApplyArms(o, f, w0);
    var s := Apply(o, f, Sys(w0, FRESH)).s;
    if f.kind.Impairs() {
      assert s.i.filterCleanup by { ImpairmentAppliedArmsFilter(o, f, Sys(w0, FRESH)); }
    } else if f.kind.RestartService? {
      ExamineKeeps(o, f, Sys(w0, FRESH), w0.lab);
    }
  }

  /** Every later look at a container or at tc state runs to its end, and fails only when there is nothing to see. */
  ghost predicate ChecksAnswer(o: Oracle, w: World) {
    forall k: nat, c: Command :: k >= |w.trace| ==> CheckAnswered(o, w, k, c)
  }

  predicate CheckAnswered(o: Oracle, w: World, k: nat, c: Command) {
    c.Ps? || c.Inspect? || c.ShowFilter? || c.ShowQdisc? ==>
      !CutShort(o(k, c).arrival, w.sigint, DuringCall(w.sigterm)) && o(k, c).code == AsKernelSays
  }

  /** An answered look at a container sees it as it is when the look ends. */
  lemma LookExact(o: Oracle, s: Sys, service: string)
    requires ChecksAnswer(o, s.w)
    ensures
      var look := Examine(o, s, service);
      var containers := look.s.w.lab.containers;
      && look.out == Normal && (look.found.Some? <==> service in containers)
      && (look.found.Some? ==> look.found.value == containers[service])
  {
    assert CheckAnswered(o, s.w, |s.w.trace|, Ps(service));
    assert CheckAnswered(o, s.w, |s.w.trace| + 1, Inspect(service));
  }

  /** Nothing is overlooked either: while the checks are answered, a fault whose apply returned is reported as verified
      exactly when it is in effect, whatever the mutating replies were. */
  lemma VerifyAppliedExact(o: Oracle, f: Fault, w0: World)
    requires ValidLab(w0.lab) && Apply(o, f, Sys(w0, FRESH)).out == Normal
    requires ChecksAnswer(o, Apply(o, f, Sys(w0, FRESH)).s.w)
    ensures
      var v := VerifyApplied(o, f, Apply(o, f, Sys(w0, FRESH)).s);
      v.ok <==> InEffect(f, v.s.w.lab, w0.lab)
  {
    var s := Apply(o, f, Sys(w0, FRESH)).s;
    if f.kind.Impairs() {
      ImpairmentCheckExact(o, f, w0);
    } else if f.kind.RestartService? {
      LookExact(o, s, Service(f));
      RestartRemembers(o, f, w0);
    } else if f.kind.StopService? {
      LookExact(o, s, Service(f));
    }
  }

  lemma ImpairmentCheckExact(o: Oracle, f: Fault, w0: World)
    requires f.kind.Impairs() && ValidLab(w0.lab) && Apply(o, f, Sys(w0, FRESH)).out == Normal
    requires ChecksAnswer(o, Apply(o, f, Sys(w0, FRESH)).s.w)
    ensures
      var v := VerifyApplied(o, f, Apply(o, f, Sys(w0, FRESH)).s);
      v.ok <==> InEffect(f, v.s.w.lab, w0.lab)
  {
    ApplyArms(o, f, w0);
    ImpairmentAppliedArmsFilter(o, f, Sys(w0, FRESH));
    var s := Apply(o, f, Sys(w0, FRESH)).s;
    assert CheckAnswered(o, s.w, |s.w.trace|, ShowFilter(DeviceOf(f), Preference(f)));
  }

  /** A restart that returned remembers when the running target had been started. */
  lemma RestartRemembers(o: Oracle, f: Fault, w0: World)
    requires f.kind.RestartService? && ValidLab(w0.lab) && Apply(o, f, Sys(w0, FRESH)).out == Normal
    ensures
      && ValidService(f) && Service(f) in w0.lab.containers && w0.lab.containers[Service(f)].running
      && Apply(o, f, Sys(w0, FRESH)).s.i.restartedAt == Some(w0.lab.containers[Service(f)].startedAt)
  {
    ExamineKeeps(o, f, Sys(w0, FRESH), w0.lab);
  }

  /** While the container can be looked at, the removal check of a service fault is true exactly when the container is
      there, running and not unhealthy, in every reachable state. */
  lemma VerifyServiceRemovedExact(o: Oracle, f: Fault, w0: World, ops: seq<Op>)
    requires f.kind.ActsOnService() && ValidService(f) && ValidLab(w0.lab)
    requires ChecksAnswer(o, RunOf(o, f, w0, ops).w)
    ensures
      var v := VerifyRemoved(o, f, RunOf(o, f, w0, ops));
      v.ok <==> Verified(f, v.s.w.lab, w0.lab)
  {
    RunKeeps(o, f, w0, ops);
    var s := RunOf(o, f, w0, ops);
    VerifyRemovedKeeps(o, f, s, w0.lab);
    LookExact(o, s, Service(f));
  }

  // ---- the two rules ----

  function Decimal(s: string): nat {
    if s == "" then 0
    else Decimal(s[..|s| - 1]) * 10 + if '0' <= s[|s| - 1] <= '9' then (s[|s| - 1] - '0') as nat else 0
  }

  /** Each impairment drops SCTP or UDP to one peer, on the port that is its preference. */
  lemma RuleDropsItsPort(f: Fault)
    requires f.kind.Impairs()
    ensures
      var r := Rule(f);
      && r.device == Device(Service(f), Interface(f)) && r.pref == Preference(f) == Decimal(r.drops.port)
      && (f.kind.N2Impairment? ==> r.pref == 38412 && r.handle == 0x4e32 && r.drops.protocol == "sctp")
      && (f.kind.N3Impairment? ==> r.pref == 2152 && r.handle == 0x4e33 && r.drops.protocol == "udp")
      && r.drops.peer == if f.kind.N2Impairment? then "10.45.0.20" else "10.45.0.30"
  {
    assert "38412"[..4] == "3841" && "3841"[..3] == "384" && "384"[..2] == "38" && "38"[..1] == "3" && "3"[..0] == "";
    assert "2152"[..3] == "215" && "215"[..2] == "21" && "21"[..1] == "2" && "2"[..0] == "";
  }

  /** The targets that any fault may touch, and the interfaces an impairment may; none named means eth0. */
  lemma TargetsExact(f: Fault, service: string, iface: string)
    requires f.target == Some(service)
    requires if iface == "eth0" then f.value == None || f.value == Some("") || f.value == Some("eth0")
             else f.value == Some(iface) && iface != ""
    ensures ValidService(f) <==>
      service == "amf" || service == "smf" || service == "upf" || service == "gnb" || service == "ue"
    ensures f.kind.Impairs() ==>
      && DeviceOf(f) == Device(service, iface)
      && (ValidTarget(f) <==> ValidService(f) && (iface == "eth0" || iface == "uesimtun0" || iface == "ogstun"))
  {
  }

  // ---- foreign state ----

  /** The flags justify every mutating tc command that was ever issued. */
  ghost predicate Justified(i: Injector) {
    forall c :: c in i.history && c.Mutates() ==>
      ((c.AddClsact? || c.DelClsact?) && i.createdClsact) || ((c.AddFilter? || c.DelFilter?) && i.filterCleanup)
  }

  lemma ApplyJustified(o: Oracle, f: Fault, w0: World)
    requires f.kind.Impairs()
    ensures Justified(Apply(o, f, Sys(w0, FRESH)).s.i)
  {
    var s := Sys(w0, FRESH);
    var show := Run(o, s, ShowFilter(DeviceOf(f), Preference(f)));
    var q := Run(o, show.s, ShowQdisc(DeviceOf(f)));
    var a := InstallClsact(o, f, q.s);
    assert Justified(show.s.i) && Justified(q.s.i) && Justified(a.s.i);
    assert Justified(InstallFilter(o, f, a.s).s.i);
  }

  lemma UndoJustified(o: Oracle, f: Fault, s: Sys, c: Command)
    requires f.kind.Impairs() && Justified(s.i) && Issued(f, s.i, c)
    ensures Justified(Undo(o, f, s, c).s.i)
  {
    assert Justified(Run(o, s, c).s.i);
  }

  lemma {:induction false} SweepJustified(o: Oracle, f: Fault, s: Sys, cmds: seq<Command>, lab0: Lab)
    requires f.kind.Impairs() && Justified(s.i) && Footprint(f, s, lab0)
    requires forall c :: c in cmds && !Skipped(s.i, c) ==> Issued(f, s.i, c)
    ensures Justified(SweepAll(o, f, s, cmds).s.i)
    decreases |cmds|
  {
    if cmds != [] {
      var rest := cmds[1..];
      if Skipped(s.i, cmds[0]) {
        SweepJustified(o, f, s, rest, lab0);
      } else {
        var u := Undo(o, f, s, cmds[0]);
        UndoKeeps(o, f, s, cmds[0], lab0);
        UndoJustified(o, f, s, cmds[0]);
        if !u.out.Raised? {
          forall c | c in rest && !Skipped(u.s.i, c) ensures Issued(f, u.s.i, c) { assert Issued(f, s.i, c); }
          SweepJustified(o, f, u.s, rest, lab0);
        }
      }
    }
  }

  lemma DoJustified(o: Oracle, f: Fault, s: Sys, op: Op, lab0: Lab)
    requires f.kind.Impairs() && Justified(s.i) && Footprint(f, s, lab0)
    ensures Justified(Do(o, f, s, op).i)
  {
    var cmds := RollbackCommands(f, s.i);
    if op.Rollback? && cmds.Some? {
      SweepJustified(o, f, s, cmds.value, lab0);
    } else if !op.Rollback? {
      var show := Run(o, s, ShowFilter(DeviceOf(f), Preference(f)));
      assert Justified(show.s.i);
      assert Justified(Run(o, show.s, ShowQdisc(DeviceOf(f))).s.i);
    }
  }

  lemma {:induction false} RunJustified(o: Oracle, f: Fault, w0: World, ops: seq<Op>)
    requires f.kind.Impairs() && ValidLab(w0.lab)
    ensures Justified(RunOf(o, f, w0, ops).i)
    decreases |ops|
  {
    if ops == [] {
      ApplyJustified(o, f, w0);
    } else {
      var before := ops[..|ops| - 1];
      RunJustified(o, f, w0, before);
      RunKeeps(o, f, w0, before);
      DoJustified(o, f, RunOf(o, f, w0, before), ops[|ops| - 1], w0.lab);
    }
  }

  /** Foreign state is never touched: with a filter already at the preference no mutating command is ever
      issued, and a clsact that was already there is never added or deleted. No reply is trusted. */
  lemma ForeignStatePreserved(o: Oracle, f: Fault, w0: World, ops: seq<Op>)
    requires f.kind.Impairs() && ValidLab(w0.lab)
    ensures
      var h := RunOf(o, f, w0, ops).i.history;
      && (FilterAt(w0.lab, DeviceOf(f), Preference(f)) ==> forall c :: c in h ==> !c.Mutates())
      && (DeviceOf(f) in w0.lab.clsact ==> forall c :: c in h ==> !c.AddClsact? && !c.DelClsact?)
  {
    RunJustified(o, f, w0, ops);
    RunKeeps(o, f, w0, ops);
  }

  // ---- retry ----

  /** A rollback that raises, for whatever reason, leaves the injector's flags as they were. */
  lemma FailedRollbackStaysArmed(o: Oracle, f: Fault, w0: World, ops: seq<Op>)
    requires ValidLab(w0.lab)
    requires Remove(o, f, RunOf(o, f, w0, ops)).out.Raised?
    ensures
      var s, r := RunOf(o, f, w0, ops), Remove(o, f, RunOf(o, f, w0, ops)).s;
      s.i.cleanupRequired && r.i == s.i.(history := r.i.history)
  {
    RunKeeps(o, f, w0, ops);
    RemoveKeeps(o, f, RunOf(o, f, w0, ops), w0.lab);
  }

  /** Replies stay honest and uninterrupted from here on. */
  ghost predicate Honest(o: Oracle, w: World) {
    FaithfulFrom(o, |w.trace|) && Uninterrupted(o, w)
  }

  lemma FaithfulIsTruthful(o: Oracle, n: nat)
    requires FaithfulFrom(o, n)
    ensures TruthfulUndos(o, n)
  {
    forall k: nat, c: Command | k >= n && c.Undoes() ensures o(k, c).progress == Done { assert FaithfulAt(o, k, c); }
  }

  lemma HonestRun(o: Oracle, s: Sys, c: Command)
    requires Honest(o, s.w) && !c.Own()
    ensures
      var r := Run(o, s, c);
      && Honest(o, r.s.w) && Later(r.s, s)
      && r.out == (if Possible(c, s.w.lab) then Normal else Raised(RuntimeFailure))
      && r.s.w.lab == Observed(c, Effect(c, s.w.lab), o(|s.w.trace|, c).health)
  {
    assert FaithfulAt(o, |s.w.trace|, c);
  }

  /** With an honest lab one undo command always succeeds or finds its work already done. */
  lemma HonestUndo(o: Oracle, f: Fault, s: Sys, c: Command, lab0: Lab)
    requires Footprint(f, s, lab0) && Issued(f, s.i, c) && Honest(o, s.w)
    ensures
      var u := Undo(o, f, s, c);
      && Honest(o, u.s.w) && u.out == Normal
      && (u.errors == 0 <==> (c.Start? ==> Service(f) in s.w.lab.containers))
  {
    HonestRun(o, s, c);
    if f.kind.Impairs() && !Possible(c, s.w.lab) {
      HonestConfirms(o, f, Run(o, s, c).s, c);
      if c.DelFilter? { OnlyTheRule(f, s, lab0); }
    }
  }

  /** While the filter cleanup is armed, a filter at the preference can only be the rule. */
  lemma OnlyTheRule(f: Fault, s: Sys, lab0: Lab)
    requires f.kind.Impairs() && Footprint(f, s, lab0) && s.i.filterCleanup
    ensures FilterAt(s.w.lab, DeviceOf(f), Preference(f)) ==>
      SlotTaken(s.w.lab, DeviceOf(f), Preference(f), Rule(f).handle)
  {
  }

  lemma HonestConfirms(o: Oracle, f: Fault, s: Sys, c: Command)
    requires f.kind.Impairs() && Honest(o, s.w)
    ensures
      var u := ConfirmAbsent(o, f, s, c);
      && Honest(o, u.s.w) && u.out == Normal
      && (u.errors == 0 <==>
            if c.DelFilter? then !FilterAt(s.w.lab, DeviceOf(f), Preference(f)) else DeviceOf(f) !in s.w.lab.clsact)
  {
    HonestRun(o, s, Confirmation(f, c));
  }

  lemma {:induction false} HonestSweep(o: Oracle, f: Fault, s: Sys, cmds: seq<Command>, lab0: Lab)
    requires Footprint(f, s, lab0) && Honest(o, s.w)
    requires forall c :: c in cmds && !Skipped(s.i, c) ==> Issued(f, s.i, c)
    ensures
      var w := SweepAll(o, f, s, cmds);
      && w.out == Normal
      && ((forall c :: c in cmds && !Skipped(s.i, c) && c.Start? ==> Service(f) in s.w.lab.containers) ==>
            w.errors == 0)
      && (cmds != [] && cmds[0].Start? && w.errors == 0 ==> Service(f) in s.w.lab.containers)
    decreases |cmds|
  {
    if cmds != [] {
      var rest := cmds[1..];
      if Skipped(s.i, cmds[0]) {
        HonestSweep(o, f, s, rest, lab0);
      } else {
        HonestUndo(o, f, s, cmds[0], lab0);
        UndoKeeps(o, f, s, cmds[0], lab0);
        var u := Undo(o, f, s, cmds[0]);
        forall c | c in rest && !Skipped(u.s.i, c) ensures Issued(f, u.s.i, c) { assert Issued(f, s.i, c); }
        HonestSweep(o, f, u.s, rest, lab0);
      }
    }
  }

  /** Retry convergence. From any reachable state still armed, however the earlier rollbacks failed (even if an
      earlier clsact delete already swept the filter away), one rollback with an honest lab returns normally
      and restores it, exactly unless the target is invalid or its container does not exist. Every later
      rollback does nothing, whatever the lab would answer then. */
  lemma RetryConverges(o: Oracle, f: Fault, w0: World, ops: seq<Op>, later: Oracle)
    requires ValidLab(w0.lab) && (f.kind.Impairs() || f.kind.ActsOnService())
    requires RunOf(o, f, w0, ops).i.cleanupRequired && Honest(o, RunOf(o, f, w0, ops).w)
    ensures
      var r := Remove(o, f, RunOf(o, f, w0, ops));
      && (r.out == Normal <==> ValidTarget(f) && (f.kind.ActsOnService() ==> Service(f) in w0.lab.containers))
      && (r.out == Normal ==>
            && Restored(f, r.s.w.lab, w0.lab) && !r.s.i.applied && !r.s.i.cleanupRequired
            && Remove(later, f, r.s) == Step(r.s, Normal))
  {
    RunKeeps(o, f, w0, ops);
    var s := RunOf(o, f, w0, ops);
    RemoveKeeps(o, f, s, w0.lab);
    if ValidTarget(f) {
      FaithfulIsTruthful(o, |s.w.trace|);
      RemoveRestores(o, f, s, w0.lab);
      HonestSweep(o, f, s, RollbackCommands(f, s.i).value, w0.lab);
    }
  }

  /** From any armed state, a rollback with an honest lab leaves nothing of the fault behind. */
  lemma HonestRollback(o: Oracle, f: Fault, s: Sys, lab0: Lab)
    requires WriteAhead(f, s, lab0) && Honest(o, s.w)
    ensures Restored(f, Remove(o, f, s).s.w.lab, lab0)
  {
    FaithfulIsTruthful(o, |s.w.trace|);
    RemoveRestores(o, f, s, lab0);
    if s.i.cleanupRequired && ValidTarget(f) && RollbackCommands(f, s.i).Some? {
      RemoveKeeps(o, f, s, lab0);
      HonestSweep(o, f, s, RollbackCommands(f, s.i).value, lab0);
    }
  }

  // ---- a service that was not running ----

  /** Every container runs exactly when it did. */
  ghost predicate SameRunning(lab: Lab, lab0: Lab) {
    && lab.containers.Keys == lab0.containers.Keys
    && forall s :: s in lab.containers ==> lab.containers[s].running == lab0.containers[s].running
  }

  /** stop_service does not look at its target first, and its undo is always a start: with an honest lab the target
      runs after the rollback, so the rollback is a restoration exactly when the target was running. */
  lemma StopRollbackExact(o: Oracle, f: Fault, w0: World)
    requires f.kind.StopService? && ValidService(f) && ValidLab(w0.lab)
    requires Service(f) in w0.lab.containers && Honest(o, w0)
    ensures
      var r := Remove(o, f, Apply(o, f, Sys(w0, FRESH)).s);
      && r.out == Normal && Service(f) in r.s.w.lab.containers && r.s.w.lab.containers[Service(f)].running
      && OnlyTargetDiffers(f, r.s.w.lab, w0.lab)
      && (SameRunning(r.s.w.lab, w0.lab) <==> w0.lab.containers[Service(f)].running)
  {
    var stop := Stop(Service(f));
    HonestRun(o, Armed(Sys(w0, FRESH)), stop);
    var a := Apply(o, f, Sys(w0, FRESH));
    assert a == Finish(Run(o, Armed(Sys(w0, FRESH)), stop));
    HonestStart(o, f, a.s);
    var lab := Remove(o, f, a.s).s.w.lab;
    assert OnlyTargetDiffers(f, lab, w0.lab);
  }

  /** With an honest lab the rollback of a service fault starts its target and touches nothing else. */
  lemma HonestStart(o: Oracle, f: Fault, s: Sys)
    requires f.kind.ActsOnService() && ValidService(f) && Honest(o, s.w) && Service(f) in s.w.lab.containers
    requires s.i.applied || s.i.cleanupRequired
    ensures
      var r := Remove(o, f, s);
      && r.out == Normal && OnlyTargetDiffers(f, r.s.w.lab, s.w.lab)
      && Service(f) in r.s.w.lab.containers && r.s.w.lab.containers[Service(f)].running
  {
    var start := Start(Service(f));
    HonestRun(o, s, start);
    var u := Undo(o, f, s, start);
    assert u.out == Normal && u.errors == 0;
    assert [start][1..] == [];
    assert SweepAll(o, f, s, [start]) == Sweep(u.s, 0, Normal);
  }

  // ---- why the undo replies must be truthful ----

  /** A lab that takes the impairment but answers zero to every delete without carrying it out. */
  function LyingDelete(): Oracle {
    (k: nat, c: Command) =>
      if c.DelFilter? then Reply(NotStarted, Quiet, Exit(0), NoHealthcheck)
      else Reply(Done, Quiet, AsKernelSays, NoHealthcheck)
  }

  /** remove() alone trusts the delete's return code: it can return normally with the filter still in place.
      This is why the orchestrator reports only a verified rollback. */
  lemma UnverifiedRollbackCanLie(w0: World)
    requires DeviceOf(Fault(N3Impairment, Some("gnb"), None)) in w0.lab.clsact
    requires !FilterAt(w0.lab, DeviceOf(Fault(N3Impairment, Some("gnb"), None)), 2152)
    ensures
      var f := Fault(N3Impairment, Some("gnb"), None);
      var o := LyingDelete();
      var r := Remove(o, f, Apply(o, f, Sys(w0, FRESH)).s);
      r.out == Normal && Rule(f) in r.s.w.lab.filters && !Restored(f, r.s.w.lab, w0.lab) && !VerifyRemoved(o, f, r.s).ok
  {
    var f := Fault(N3Impairment, Some("gnb"), None);
    var o := LyingDelete();
    assert ValidTarget(f);
    var s := Sys(w0, FRESH);
    var show := Run(o, s, ShowFilter(DeviceOf(f), 2152));
    var q := Run(o, show.s, ShowQdisc(DeviceOf(f)));
    assert q.out == Normal && q.s.w.lab == w0.lab;
    var a := InstallFilter(o, f, q.s);
    assert a.out == Normal && a.s.w.lab.filters == w0.lab.filters + {Rule(f)};
    assert Apply(o, f, s) == a;
    var del := DelFilter(DeviceOf(f), 2152, Rule(f).handle);
    assert RollbackCommands(f, a.s.i) == Some([del]);
    var u := Undo(o, f, a.s, del);
    assert u.out == Normal && u.errors == 0 && u.s.w.lab == a.s.w.lab;
    assert [del][1..] == [];
    assert SweepAll(o, f, a.s, [del]) == Sweep(u.s, 0, Normal);
  }
}
