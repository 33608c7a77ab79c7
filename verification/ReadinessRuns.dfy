/** Whole histories of the readiness monitor over real-valued time: what a call guarantees and what follows. */
module ReadinessRuns {
  import opened Basics
  import opened CoreIssues
  import opened ReadinessWatch

  function Ceil(x: real): int {
    -((-x).Floor)
  }

  function Smaller(a: real, b: real): real {
    if a <= b then a else b
  }

  function Larger(a: real, b: real): real {
    if a >= b then a else b
  }

  function RunningIn(cs: Containers): map<Service, Identity> {
    map s | s in cs && s != LogInit && cs[s].status.Running? :: Identity(cs[s].id, cs[s].startedAt)
  }

  datatype Reading = Reading(containers: Containers, marks: map<Service, Marks>)

  /** The sample says what the reading shows. */
  ghost predicate Describes(x: Sample, r: Reading) {
    && (x.fatal <==> exists i :: IsFatal(i, r.containers, r.marks))
    && (x.clean <==> CoreHealthy(r.containers, r.marks))
    && x.running == RunningIn(r.containers)
  }

  /** How the polls of a run follow each other: a poll begins before the deadline, and the next one begins
      one interval after this one was judged, plus at most lag. */
  ghost predicate Paced(h: seq<Sample>, started: real, deadline: real, interval: real, lag: real) {
    && (h != [] ==> h[0].began == started)
    && (forall k :: 0 <= k < |h| ==> started <= h[k].began <= h[k].seen && h[k].began < deadline)
    && (forall k :: 0 < k < |h| ==> h[k - 1].seen + interval <= h[k].began <= h[k - 1].seen + interval + lag)
  }

  lemma {:induction false} PacedIsOrdered(h: seq<Sample>, started: real, deadline: real, interval: real, lag: real)
    requires Paced(h, started, deadline, interval, lag) && interval > 0.0
    ensures Ordered(h)
  {
    if h != [] {
      var before := h[..|h| - 1];
      PacedIsOrdered(before, started, deadline, interval, lag);
      forall i, j | 0 <= i <= j < |h| ensures h[i].seen <= h[j].seen {
        if j == |h| - 1 && i < j { assert before[i].seen <= before[j - 1].seen; }
        else if j < |h| - 1 { assert before[i].seen <= before[j].seen; }
      }
    }
  }

  /** From reading j on everything is clean, no read takes longer than r, and the deadline leaves room for the
      stability window and one more round. */
  ghost predicate Steady(h: seq<Sample>, j: nat, r: real, lim: Limits, interval: real, lag: real) {
    && j < |h| && CleanFrom(h, j)
    && (forall k :: 0 <= k < |h| ==> h[k].seen - h[k].began <= r)
    && h[j].seen + lim.stable + interval + lag + r < lim.deadline
  }

  /** Liveness: a run that decided nothing before its last reading, and whose next round could not have begun much
      before the deadline, has decided by then if it was steady. */
  lemma SteadyBecomesReady(h: seq<Sample>, lim: Limits, started: real, interval: real, lag: real, j: nat, r: real)
    requires Paced(h, started, lim.deadline, interval, lag) && interval > 0.0 && lag >= 0.0 && lim.stable > 0.0
    requires h != [] && Scan(h[..|h| - 1], lim).verdict == Watching && Untroubled(h)
    requires lim.deadline <= h[|h| - 1].seen + interval + lag + r || Scan(h, lim).verdict == Ready
    requires Steady(h, j, r, lim, interval, lag)
    ensures Scan(h, lim).verdict == Ready
  {
    PacedIsOrdered(h, started, lim.deadline, interval, lag);
    WatchExact(h, lim);
    if Scan(h, lim).verdict != Ready {
      assert h[|h| - 1].seen - h[j].seen >= lim.stable;
      assert Spans(h, lim.stable);
      assert h[|h| - 1].seen >= lim.deadline;
      SteadyBefore(h, lim, j);
    }
  }

  /** If the clean run was long enough one reading before the last, and still in time, that reading was ready. */
  lemma SteadyBefore(h: seq<Sample>, lim: Limits, j: nat)
    requires 0 < |h| && j < |h| - 1 && CleanFrom(h, j) && Ordered(h)
    requires h[|h| - 2].seen - h[j].seen >= lim.stable && h[|h| - 2].seen < lim.deadline
    ensures Scan(h[..|h| - 1], lim).verdict != Watching
  {
    var before := h[..|h| - 1];
    if Scan(before, lim).verdict == Watching {
      WatchSince(before, lim);
      assert CleanFrom(before, j);
      SpanStartLeast(before, j);
    }
  }

  lemma SpanStartLeast(h: seq<Sample>, j: nat)
    requires j < |h| && forall k :: j <= k < |h| ==> h[k].clean
    ensures SpanStart(h) <= j
  {
  }

  /** k intervals, one after the other. */
  function Intervals(k: nat, interval: real): real {
    if k == 0 then 0.0 else Intervals(k - 1, interval) + interval
  }

  lemma {:induction false} IntervalsMultiply(k: nat, interval: real)
    ensures Intervals(k, interval) == k as real * interval
  {
    if k > 0 { IntervalsMultiply(k - 1, interval); }
  }

  lemma {:induction false} IntervalsAdd(a: nat, b: nat, interval: real)
    ensures Intervals(a + b, interval) == Intervals(a, interval) + Intervals(b, interval)
  {
    if b > 0 { IntervalsAdd(a, b - 1, interval); }
  }

  lemma {:induction false} IntervalsGrow(a: nat, b: nat, interval: real)
    requires a <= b && interval >= 0.0
    ensures Intervals(a, interval) <= Intervals(b, interval)
    ensures a < b && interval > 0.0 ==> Intervals(a, interval) < Intervals(b, interval)
  {
    if a < b { IntervalsGrow(a, b - 1, interval); }
  }

  /** The parameters of one call. */
  datatype Run = Run(lim: Limits, started: real, timeout: real, interval: real, lag: real)

  ghost predicate ValidRun(run: Run) {
    && run.lim.deadline == run.started + run.timeout && run.interval > 0.0 && run.lag >= 0.0
    && 0.0 < run.lim.stable < run.timeout
  }

  ghost predicate Recorded(h: seq<Sample>, readings: seq<Reading>, run: Run) {
    && |readings| == |h| && (forall i :: 0 <= i < |h| ==> Describes(h[i], readings[i]))
    && Paced(h, run.started, run.lim.deadline, run.interval, run.lag)
  }

  /** When the round after h begins at the latest. */
  function NextBegin(h: seq<Sample>, run: Run): real {
    if h == [] then run.started else h[|h| - 1].seen + run.interval + run.lag
  }

  /** Everything wait_core_ready guarantees about a call with valid arguments. */
  ghost predicate WatchGuarantee(
    h: seq<Sample>, readings: seq<Reading>, polls: nat, passed: bool, readFailed: bool, run: Run, ended: real)
  {
    && Recorded(h, readings, run)
    // the verdict is exact: the call passes if and only if every read worked, nothing in the whole call was fatal or
    // changed identity, and the last reading is in time and ends a clean run of the stability window
    && (passed <==>
          && !readFailed && h != [] && Untroubled(h) && Spans(h, run.lim.stable)
          && h[|h| - 1].seen < run.lim.deadline)
    // it is given at the first reading that decides it
    && (h != [] ==> Scan(h[..|h| - 1], run.lim).verdict == Watching)
    && (readFailed ==>
          && Untroubled(h) && Scan(h, run.lim).verdict == Watching
          && (h != [] ==> h[|h| - 1].seen + run.interval < run.lim.deadline))
    // an untroubled call goes on polling: it gives up only when the next round could not begin before the deadline
    && (!passed && !readFailed && Untroubled(h) ==>
          h != [] && run.lim.deadline <= NextBegin(h, run) && run.lim.deadline <= ended)
    // bounds: the polls but one fit into the timeout, and the call ends within a second of the deadline
    && |h| <= polls <= |h| + 1 && (polls > 0 ==> Intervals(polls - 1, run.interval) < run.timeout)
    && run.started <= ended < run.lim.deadline + 1.0 + run.lag && (h != [] ==> h[|h| - 1].seen <= ended)
  }

  /** The loop invariant: the readings so far, in step with the watch, and how far time has moved. */
  ghost predicate Watched(h: seq<Sample>, readings: seq<Reading>, w: Watch, now: real, run: Run) {
    && ValidRun(run) && Recorded(h, readings, run)
    && Scan(h, run.lim) == w && w.verdict == Watching
    && run.started <= now < run.lim.deadline + 1.0 + run.lag
    && (if h == [] then now == run.started
        else
          && h[|h| - 1].seen <= now
          && now <= h[|h| - 1].seen + run.interval + run.lag
          && (now < run.lim.deadline ==> h[|h| - 1].seen + run.interval <= now)
          && Intervals(|h| - 1, run.interval) < run.timeout)
    && (now < run.lim.deadline ==> Intervals(|h|, run.interval) <= now - run.started)
  }

  // ---- one more reading ----

  lemma {:induction false} ScanAppend(h: seq<Sample>, x: Sample, lim: Limits)
    ensures Scan(h + [x], lim) == Next(Scan(h, lim), x, lim)
  {
    assert (h + [x])[..|h|] == h;
  }

  lemma PacedAppend(h: seq<Sample>, x: Sample, started: real, deadline: real, interval: real, lag: real)
    requires Paced(h, started, deadline, interval, lag) && started <= x.began <= x.seen && x.began < deadline
    requires if h == [] then x.began == started else
      h[|h| - 1].seen + interval <= x.began <= h[|h| - 1].seen + interval + lag
    ensures Paced(h + [x], started, deadline, interval, lag)
  {
    assert forall i :: 0 <= i < |h| ==> (h + [x])[i] == h[i];
  }

  lemma RecordedAppend(h: seq<Sample>, readings: seq<Reading>, x: Sample, reading: Reading, run: Run)
    requires Recorded(h, readings, run) && Describes(x, reading)
    requires run.started <= x.began <= x.seen && x.began < run.lim.deadline
    requires if h == [] then x.began == run.started else
      h[|h| - 1].seen + run.interval <= x.began <= h[|h| - 1].seen + run.interval + run.lag
    ensures Recorded(h + [x], readings + [reading], run)
  {
    PacedAppend(h, x, run.started, run.lim.deadline, run.interval, run.lag);
    var h', rs := h + [x], readings + [reading];
    forall i | 0 <= i < |h'| ensures Describes(h'[i], rs[i]) {
      if i < |h| { assert h'[i] == h[i] && rs[i] == readings[i]; }
    }
  }

  /** x is the next reading of a watched run. */
  ghost predicate NextReading(h: seq<Sample>, readings: seq<Reading>, w: Watch, x: Sample, reading: Reading, run: Run) {
    && Watched(h, readings, w, x.began, run) && x.began < run.lim.deadline
    && x.began <= x.seen < run.lim.deadline + 1.0 && Describes(x, reading)
  }

  lemma Extended(h: seq<Sample>, readings: seq<Reading>, w: Watch, x: Sample, reading: Reading, run: Run)
    requires NextReading(h, readings, w, x, reading, run)
    ensures Recorded(h + [x], readings + [reading], run) && Scan(h + [x], run.lim) == Next(w, x, run.lim)
    ensures (h + [x])[..|h|] == h
  {
    RecordedAppend(h, readings, x, reading, run);
    ScanAppend(h, x, run.lim);
  }

  /** A reading that decides the call decides it with every guarantee. */
  lemma Decides(h: seq<Sample>, readings: seq<Reading>, w: Watch, x: Sample, reading: Reading, run: Run)
    requires NextReading(h, readings, w, x, reading, run) && Next(w, x, run.lim).verdict != Watching
    ensures
      var passed := Next(w, x, run.lim).verdict == Ready;
      WatchGuarantee(h + [x], readings + [reading], |h| + 1, passed, false, run, x.seen)
  {
    var h', rs := h + [x], readings + [reading];
    assert Recorded(h', rs, run) && Scan(h', run.lim) == Next(w, x, run.lim) && h'[..|h'| - 1] == h by {
      Extended(h, readings, w, x, reading, run);
    }
    Judged(h', rs, run);
  }

  /** A reading that decides nothing leads to one more round after the sleep, which wakes up late by late. */
  lemma GoesOn(h: seq<Sample>, readings: seq<Reading>, w: Watch, x: Sample, reading: Reading, run: Run, late: real)
    requires NextReading(h, readings, w, x, reading, run) && Next(w, x, run.lim).verdict == Watching
    requires 0.0 <= late <= run.lag
    ensures
      var awake := x.seen + Smaller(run.interval, Larger(0.0, run.lim.deadline - x.seen)) + late;
      Watched(h + [x], readings + [reading], Next(w, x, run.lim), awake, run)
  {
    var h' := h + [x];
    Extended(h, readings, w, x, reading, run);
    assert Intervals(|h'|, run.interval) == Intervals(|h'| - 1, run.interval) + run.interval;
  }

  lemma Judged(h: seq<Sample>, readings: seq<Reading>, run: Run)
    requires h != [] && Recorded(h, readings, run) && ValidRun(run) && Scan(h[..|h| - 1], run.lim).verdict == Watching
    ensures Scan(h, run.lim).verdict == Broken <==> !Untroubled(h)
    ensures Scan(h, run.lim).verdict == Ready <==>
      Untroubled(h) && Spans(h, run.lim.stable) && h[|h| - 1].seen < run.lim.deadline
  {
    PacedIsOrdered(h, run.started, run.lim.deadline, run.interval, run.lag);
    WatchExact(h, run.lim);
  }

  lemma StillWatching(h: seq<Sample>, readings: seq<Reading>, run: Run)
    requires Recorded(h, readings, run) && ValidRun(run) && Scan(h, run.lim).verdict == Watching
    ensures Untroubled(h) && (h != [] ==> Scan(h[..|h| - 1], run.lim).verdict == Watching)
    ensures h != [] ==> !(Spans(h, run.lim.stable) && h[|h| - 1].seen < run.lim.deadline)
  {
    WatchKnows(h, run.lim);
    WatchNotFatal(h, run.lim);
    if h != [] { Judged(h, readings, run); }
  }

  lemma StopsUnread(h: seq<Sample>, readings: seq<Reading>, w: Watch, began: real, run: Run, now: real)
    requires Watched(h, readings, w, began, run) && began < run.lim.deadline && began <= now < run.lim.deadline + 1.0
    ensures WatchGuarantee(h, readings, |h| + 1, false, true, run, now)
  {
    StillWatching(h, readings, run);
  }

  lemma StopsLate(h: seq<Sample>, readings: seq<Reading>, w: Watch, now: real, run: Run)
    requires Watched(h, readings, w, now, run) && now >= run.lim.deadline
    ensures WatchGuarantee(h, readings, |h|, false, false, run, now)
  {
    StillWatching(h, readings, run);
  }

  /** k intervals fit into the timeout, so k is below ceil(timeout / interval). */
  lemma PollBound(k: nat, interval: real, timeout: real)
    requires interval > 0.0 && Intervals(k, interval) < timeout
    ensures k < Ceil(timeout / interval)
  {
    IntervalsMultiply(k, interval);
    assert k as real < timeout / interval;
  }

  /** A call polls at most ceil(timeout / interval) times. */
  lemma PollsBounded(
    h: seq<Sample>, readings: seq<Reading>, polls: nat, passed: bool, readFailed: bool, run: Run, ended: real)
    requires ValidRun(run) && WatchGuarantee(h, readings, polls, passed, readFailed, run, ended)
    ensures polls <= Ceil(run.timeout / run.interval)
  {
    if polls > 0 { PollBound(polls - 1, run.interval, run.timeout); }
    assert run.timeout / run.interval >= 0.0;
  }

  // ---- liveness ----

  /** No read took longer than r; a read that failed began no later than it could, and failed within r. */
  ghost predicate Brisk(h: seq<Sample>, readFailed: bool, run: Run, ended: real, r: real) {
    && (forall k :: 0 <= k < |h| ==> h[k].seen - h[k].began <= r)
    && (readFailed ==> run.lim.deadline <= ended <= NextBegin(h, run) + r)
  }

  ghost predicate CleanSince(h: seq<Sample>, s: real) {
    forall k :: 0 <= k < |h| && h[k].began >= s ==> h[k].clean
  }

  /** The first reading judged at or after t. */
  lemma FirstSeen(h: seq<Sample>, t: real) returns (j: nat)
    requires h != [] && h[|h| - 1].seen >= t
    ensures j < |h| && h[j].seen >= t && (j > 0 ==> h[j - 1].seen < t)
  {
    j := 0;
    while h[j].seen < t
      invariant j < |h| && (j > 0 ==> h[j - 1].seen < t)
      decreases |h| - j
    {
      j := j + 1;
    }
  }

  /** If everything polled from time s on is clean, two rounds and the read under way at s are room enough. */
  lemma CleanFromTime(
    h: seq<Sample>, readings: seq<Reading>, polls: nat, passed: bool, readFailed: bool, run: Run, ended: real,
    s: real, r: real)
    requires ValidRun(run) && WatchGuarantee(h, readings, polls, passed, readFailed, run, ended) && Untroubled(h)
    requires Brisk(h, readFailed, run, ended, r) && r >= 0.0 && run.started <= s && CleanSince(h, s)
    requires s + run.lim.stable + 2.0 * (run.interval + run.lag) + 3.0 * r < run.lim.deadline
    ensures passed
  {
    if !passed {
      var j := FirstSeen(h, s + r);
      PacedIsOrdered(h, run.started, run.lim.deadline, run.interval, run.lag);
      assert h[j].seen <= s + 2.0 * r + run.interval + run.lag;
      assert CleanFrom(h, j);
      SteadyBecomesReady(h, run.lim, run.started, run.interval, run.lag, j, r);
      Judged(h, readings, run);
    }
  }

  /** n is the number of whole intervals it takes to cover t. */
  ghost predicate Covers(n: nat, t: real, interval: real) {
    Intervals(n, interval) >= t && (n > 0 ==> Intervals(n - 1, interval) < t)
  }

  /** Reads take no time, sleeps wake up on time, and the core is clean exactly from time s on. */
  ghost predicate Punctual(h: seq<Sample>, run: Run, s: real) {
    run.lag == 0.0 && forall k :: 0 <= k < |h| ==> h[k].seen == h[k].began && (h[k].clean <==> h[k].began >= s)
  }

  lemma {:induction false} PunctualTimes(h: seq<Sample>, readings: seq<Reading>, run: Run, s: real, a: nat, k: nat)
    requires ValidRun(run) && Recorded(h, readings, run) && Punctual(h, run, s)
    requires Covers(a, s - run.started, run.interval) && k < |h|
    ensures h[k].began == run.started + Intervals(k, run.interval) && (h[k].clean <==> k >= a)
  {
    if k > 0 { PunctualTimes(h, readings, run, s, a, k - 1); }
    if k >= a { IntervalsGrow(a, k, run.interval); } else { IntervalsGrow(k, a - 1, run.interval); }
  }

  /** How much room a punctual call needs, exactly: the time until the core is clean and the stability window are
      each rounded up to whole intervals, and their sum must be less than the timeout. */
  lemma PunctualExact(
    h: seq<Sample>, readings: seq<Reading>, polls: nat, passed: bool, run: Run, ended: real, s: real, a: nat, b: nat)
    requires ValidRun(run) && WatchGuarantee(h, readings, polls, passed, false, run, ended) && Untroubled(h)
    requires Punctual(h, run, s)
    requires Covers(a, s - run.started, run.interval) && Covers(b, run.lim.stable, run.interval)
    ensures passed <==> Intervals(a + b, run.interval) < run.timeout
  {
    AllOnTheDot(h, readings, run, s, a);
    if passed {
      PunctualPass(h, run, a, b);
    } else if Intervals(a + b, run.interval) < run.timeout {
      PunctualEnough(h, run, a + b);
      PunctualSpan(h, run, a, b);
    }
  }

  lemma AllOnTheDot(h: seq<Sample>, readings: seq<Reading>, run: Run, s: real, a: nat)
    requires ValidRun(run) && Recorded(h, readings, run) && Punctual(h, run, s)
    requires Covers(a, s - run.started, run.interval)
    ensures OnTheDot(h, run, a)
  {
    forall k | 0 <= k < |h|
      ensures h[k].seen == h[k].began == run.started + Intervals(k, run.interval) && (h[k].clean <==> k >= a)
    {
      PunctualTimes(h, readings, run, s, a, k);
    }
  }

  lemma PunctualEnough(h: seq<Sample>, run: Run, n: nat)
    requires h != [] && run.interval > 0.0 && Intervals(n, run.interval) < run.timeout
    requires h[|h| - 1].seen == run.started + Intervals(|h| - 1, run.interval)
    requires run.started + run.timeout <= h[|h| - 1].seen + run.interval
    ensures n < |h|
  {
    if |h| <= n { IntervalsGrow(|h|, n, run.interval); }
  }

  /** The k-th poll begins and ends after k intervals, and is clean from the a-th on. */
  ghost predicate OnTheDot(h: seq<Sample>, run: Run, a: nat) {
    forall k :: 0 <= k < |h| ==>
      h[k].seen == h[k].began == run.started + Intervals(k, run.interval) && (h[k].clean <==> k >= a)
  }

  lemma PunctualPass(h: seq<Sample>, run: Run, a: nat, b: nat)
    requires OnTheDot(h, run, a) && run.interval > 0.0 && h != [] && Spans(h, run.lim.stable)
    requires Covers(b, run.lim.stable, run.interval)
    ensures Intervals(a + b, run.interval) <= Intervals(|h| - 1, run.interval)
  {
    var last := |h| - 1;
    var j :| 0 <= j < |h| && CleanFrom(h, j) && h[last].seen - h[j].seen >= run.lim.stable;
    assert h[j].clean;
    IntervalsAdd(j, last - j, run.interval);
    if last - j < b { IntervalsGrow(last - j, b - 1, run.interval); }
    IntervalsGrow(a + b, last, run.interval);
  }

  lemma PunctualSpan(h: seq<Sample>, run: Run, a: nat, b: nat)
    requires OnTheDot(h, run, a) && run.interval > 0.0 && a + b < |h|
    requires Covers(b, run.lim.stable, run.interval)
    ensures Spans(h, run.lim.stable)
  {
    var last := |h| - 1;
    assert h[last].seen - h[a].seen >= run.lim.stable by {
      IntervalsAdd(a, last - a, run.interval);
      IntervalsGrow(b, last - a, run.interval);
    }
    assert CleanFrom(h, a);
  }

  /** A poll that takes no time and sees nothing run. */
  function Instantly(t: real, clean: bool): Sample {
    Sample(t, t, false, clean, map[])
  }

  /** One round is not enough: polls judged at 0, 0.9 and 1.8, all clean from 0.05 on, a stability window of 1
      and a deadline of 2 leave room for the window and one interval, and yet the call runs out of time. */
  lemma OneRoundIsNotEnough()
    ensures
      var h := [Instantly(0.0, false), Instantly(0.9, true), Instantly(1.8, true)];
      var lim := Limits(1.0, 2.0);
      && Paced(h, 0.0, lim.deadline, 0.9, 0.0) && CleanSince(h, 0.05) && 0.05 + lim.stable + 0.9 < lim.deadline
      && Scan(h, lim).verdict == Watching && 1.8 + Smaller(0.9, Larger(0.0, lim.deadline - 1.8)) >= lim.deadline
  {
    var a, b, c := Instantly(0.0, false), Instantly(0.9, true), Instantly(1.8, true);
    Appends(a, b, c, Limits(1.0, 2.0));
    assert !Conflict(map[], map[]);
  }

  lemma Appends(a: Sample, b: Sample, c: Sample, lim: Limits)
    ensures Scan([a, b, c], lim) == Next(Next(Next(START, a, lim), b, lim), c, lim)
  {
    ScanAppend([], a, lim);
    ScanAppend([a], b, lim);
    ScanAppend([a, b], c, lim);
    assert [] + [a] == [a] && [a] + [b] == [a, b] && [a, b] + [c] == [a, b, c];
  }
}
