/** The readiness watch as a state machine over the readings of the core. */
module ReadinessWatch {
  import opened Basics
  import opened CoreIssues

  datatype Identity = Identity(id: string, startedAt: string)

  /** One reading: when its poll began, when it was judged, what it said, and who was running. */
  datatype Sample = Sample(began: real, seen: real, fatal: bool, clean: bool, running: map<Service, Identity>)

  datatype Verdict = Watching | Ready | Broken
  datatype Watch = Watch(since: Option<real>, ids: map<Service, Identity>, verdict: Verdict)
  datatype Limits = Limits(stable: real, deadline: real)

  const START := Watch(None, map[], Watching)

  predicate Conflict(ids: map<Service, Identity>, running: map<Service, Identity>) {
    exists s :: s in running && s in ids && ids[s] != running[s]
  }

  function Next(w: Watch, x: Sample, lim: Limits): Watch {
    if w.verdict != Watching then w
    else if x.fatal || Conflict(w.ids, x.running) then Watch(w.since, w.ids + x.running, Broken)
    else if !x.clean then Watch(None, w.ids + x.running, Watching)
    else
      var since := if w.since == None then x.seen else w.since.value;
      Watch(Some(since), w.ids + x.running,
            if x.seen - since >= lim.stable && x.seen < lim.deadline then Ready else Watching)
  }

  function Scan(h: seq<Sample>, lim: Limits): Watch {
    if h == [] then START else Next(Scan(h[..|h| - 1], lim), h[|h| - 1], lim)
  }

  // ---- what the watch is for, said of the readings alone ----

  ghost predicate Within(running: map<Service, Identity>, ids: map<Service, Identity>) {
    forall s :: s in running ==> s in ids && ids[s] == running[s]
  }

  /** Every service seen running anywhere in h ran as ids says. */
  ghost predicate Agrees(ids: map<Service, Identity>, h: seq<Sample>) {
    forall i :: 0 <= i < |h| ==> Within(h[i].running, ids)
  }

  /** No reading was fatal, and each service kept one identity at every reading that saw it running. */
  ghost predicate Untroubled(h: seq<Sample>) {
    (forall i :: 0 <= i < |h| ==> !h[i].fatal) && exists ids :: Agrees(ids, h)
  }

  ghost predicate CleanFrom(h: seq<Sample>, j: nat) {
    forall k :: j <= k < |h| ==> h[k].clean
  }

  /** An uninterrupted clean run up to the last reading, at least stable long. */
  ghost predicate Spans(h: seq<Sample>, stable: real) {
    exists j :: 0 <= j < |h| && CleanFrom(h, j) && h[|h| - 1].seen - h[j].seen >= stable
  }

  ghost predicate Ordered(h: seq<Sample>) {
    forall i, j :: 0 <= i <= j < |h| ==> h[i].seen <= h[j].seen
  }

  /** The first reading of the clean run that ends h; |h| when the last reading is not clean. */
  function SpanStart(h: seq<Sample>): (j: nat)
    ensures j <= |h| && CleanFrom(h, j)
    ensures j > 0 && j <= |h| ==> !h[j - 1].clean
  {
    if h == [] then 0
    else if !h[|h| - 1].clean then |h|
    else SpanStart(h[..|h| - 1])
  }

  /** ids is what h has shown, and nothing else. */
  ghost predicate Knows(ids: map<Service, Identity>, h: seq<Sample>) {
    Agrees(ids, h) && forall s :: s in ids ==> exists i :: 0 <= i < |h| && s in h[i].running
  }

  lemma KnowsMore(ids: map<Service, Identity>, h: seq<Sample>, x: Sample)
    requires Knows(ids, h) && !Conflict(ids, x.running)
    ensures Knows(ids + x.running, h + [x])
  {
    var h' := h + [x];
    forall i | 0 <= i < |h'| ensures Within(h'[i].running, ids + x.running) {
      if i < |h| {
        assert Within(h[i].running, ids) && h'[i] == h[i];
        forall s | s in h[i].running ensures s in ids + x.running && (ids + x.running)[s] == h[i].running[s] {
          assert s in ids && (s in x.running ==> ids[s] == x.running[s]);
        }
      }
    }
    forall s | s in ids + x.running ensures exists i :: 0 <= i < |h'| && s in h'[i].running {
      if s in x.running {
        assert s in h'[|h|].running;
      } else {
        var i :| 0 <= i < |h| && s in h[i].running;
        assert s in h'[i].running;
      }
    }
  }

  lemma OneIdentity(ids: map<Service, Identity>, h: seq<Sample>, i: nat, j: nat, s: Service)
    requires Agrees(ids, h) && i < |h| && j < |h| && s in h[i].running && s in h[j].running
    ensures h[i].running[s] == h[j].running[s]
  {
  }

  lemma ConflictMeansNoIdentity(ids: map<Service, Identity>, h: seq<Sample>, x: Sample)
    requires Knows(ids, h) && Conflict(ids, x.running)
    ensures !exists ids' :: Agrees(ids', h + [x])
  {
    var s :| s in x.running && s in ids && ids[s] != x.running[s];
    var i :| 0 <= i < |h| && s in h[i].running;
    var h' := h + [x];
    assert s in h'[i].running && h'[i].running[s] == ids[s];
    assert s in h'[|h|].running && h'[|h|].running[s] != ids[s];
    forall ids' ensures !Agrees(ids', h') {
      if Agrees(ids', h') {
        OneIdentity(ids', h', i, |h|, s);
      }
    }
  }

  /** A history and its last reading. */
  lemma Split(h: seq<Sample>)
    requires h != []
    ensures h == h[..|h| - 1] + [h[|h| - 1]]
  {
  }

  lemma {:induction false} WatchNotFatal(h: seq<Sample>, lim: Limits)
    requires Scan(h, lim).verdict == Watching
    ensures forall i :: 0 <= i < |h| ==> !h[i].fatal
  {
    if h != [] {
      WatchNotFatal(h[..|h| - 1], lim);
      assert forall i :: 0 <= i < |h| - 1 ==> h[i] == h[..|h| - 1][i];
    }
  }

  lemma {:induction false} WatchKnows(h: seq<Sample>, lim: Limits)
    requires Scan(h, lim).verdict == Watching
    ensures Knows(Scan(h, lim).ids, h)
  {
    if h != [] {
      var before, x := h[..|h| - 1], h[|h| - 1];
      WatchKnows(before, lim);
      assert Knows(Scan(before, lim).ids + x.running, h) by {
        KnowsMore(Scan(before, lim).ids, before, x);
        Split(h);
      }
    }
  }

  lemma {:induction false} WatchSince(h: seq<Sample>, lim: Limits)
    requires Scan(h, lim).verdict == Watching
    ensures Scan(h, lim).since == if SpanStart(h) < |h| then Some(h[SpanStart(h)].seen) else None
    ensures SpanStart(h) < |h| ==>
      h[|h| - 1].seen - h[SpanStart(h)].seen < lim.stable || h[|h| - 1].seen >= lim.deadline
  {
    if h != [] { WatchSince(h[..|h| - 1], lim); }
  }

  lemma ConflictIsTrouble(h: seq<Sample>, lim: Limits)
    requires h != [] && Scan(h[..|h| - 1], lim).verdict == Watching
    ensures
      var x := h[|h| - 1];
      Untroubled(h) <==> !x.fatal && !Conflict(Scan(h[..|h| - 1], lim).ids, x.running)
  {
    var before, x := h[..|h| - 1], h[|h| - 1];
    WatchKnows(before, lim);
    WatchNotFatal(before, lim);
    Split(h);
    var ids := Scan(before, lim).ids;
    if Conflict(ids, x.running) {
      ConflictMeansNoIdentity(ids, before, x);
    } else {
      KnowsMore(ids, before, x);
    }
  }

  /** Soundness and completeness of one more reading: the watch becomes ready exactly when nothing in the whole
      history was troubling, a clean run of at least the stability window ends here, and the deadline has not
      passed; and it breaks exactly when something was troubling. */
  lemma WatchExact(h: seq<Sample>, lim: Limits)
    requires h != [] && Ordered(h) && Scan(h[..|h| - 1], lim).verdict == Watching && lim.stable > 0.0
    ensures Scan(h, lim).verdict == Broken <==> !Untroubled(h)
    ensures Scan(h, lim).verdict == Ready <==> Untroubled(h) && Spans(h, lim.stable) && h[|h| - 1].seen < lim.deadline
  {
    var before, x := h[..|h| - 1], h[|h| - 1];
    WatchSince(before, lim);
    ConflictIsTrouble(h, lim);
    var j := SpanStart(h);
    assert forall i :: 0 <= i < |before| ==> before[i] == h[i];
    if Scan(h, lim).verdict == Ready {
      assert CleanFrom(h, j) && x.seen - h[j].seen >= lim.stable;
    }
    if Spans(h, lim.stable) {
      var k :| 0 <= k < |h| && CleanFrom(h, k) && x.seen - h[k].seen >= lim.stable;
      assert j <= k && h[j].seen <= h[k].seen;
    }
  }
}
