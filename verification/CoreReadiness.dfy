/** wait_core_ready and the bounded reads it makes. */
module CoreReadiness {
  import opened Basics
  import opened CoreIssues
  import opened ReadinessWatch
  import opened ReadinessRuns

  /** What Docker would say to one poll. */
  datatype Snapshot = Snapshot(any: bool, wellFormed: bool, listing: seq<(Service, Info)>, text: map<Service, string>)

  /** The containers a snapshot lists, none of them twice. */
  function Listed(listing: seq<(Service, Info)>): Containers {
    if listing == [] then map[]
    else
      var (s, info) := listing[|listing| - 1];
      Listed(listing[..|listing| - 1])[s := info]
  }

  ghost predicate NoDuplicates(listing: seq<(Service, Info)>) {
    forall i, j :: 0 <= i < j < |listing| ==> listing[i].0 != listing[j].0
  }

  /** What read_core accepts: well-formed output without a second container for a service. */
  ghost predicate Sound(shot: Snapshot) {
    shot.any ==> shot.wellFormed && NoDuplicates(shot.listing)
  }

  lemma {:induction false} ListedKeys(listing: seq<(Service, Info)>)
    ensures forall s :: s in Listed(listing) <==> exists i :: 0 <= i < |listing| && listing[i].0 == s
  {
    if listing != [] {
      var before := listing[..|listing| - 1];
      ListedKeys(before);
      assert forall i :: 0 <= i < |before| ==> listing[i] == before[i];
    }
  }

  /** The logs that are read: those of the network functions that have been started. */
  function LogsOf(cs: Containers, text: map<Service, string>): Logs {
    map s | s in cs && IsNf(s) && cs[s].status != Created :: if s in text then text[s] else ""
  }

  lemma OneContainerMore(listing: seq<(Service, Info)>, i: nat)
    requires i < |listing|
    ensures
      var cs, (s, info) := Listed(listing[..i]), listing[i];
      && Listed(listing[..i + 1]) == cs[s := info]
      && (NoDuplicates(listing[..i]) ==> (s !in cs <==> NoDuplicates(listing[..i + 1])))
  {
    assert listing[..i + 1][..i] == listing[..i];
    ListedKeys(listing[..i]);
  }

  lemma OneLogMore(cs: Containers, s: Service, info: Info, text: map<Service, string>)
    requires s !in cs
    ensures LogsOf(cs[s := info], text) ==
      if IsNf(s) && info.status != Created then LogsOf(cs, text)[s := if s in text then text[s] else ""]
      else LogsOf(cs, text)
  {
  }

  /** What a successful read shows of a snapshot. */
  function Shown(shot: Snapshot): Reading {
    var cs := if shot.any then Listed(shot.listing) else map[];
    Reading(cs, Marked(LogsOf(cs, shot.text)))
  }

  /** One container listing, one inspection, and one log for each network function. */
  const MOST_COMMANDS := 11

  lemma FewLogs(cs: Containers, text: map<Service, string>)
    ensures |LogsOf(cs, text)| <= 9
  {
    var nfs := {Nrf, Ausf, Udm, Udr, Bsf, Pcf, Amf, Smf, Upf};
    Fewer(LogsOf(cs, text).Keys, nfs);
  }

  lemma {:induction false} Fewer(a: set<Service>, b: set<Service>)
    requires a <= b
    ensures |a| <= |b|
  {
    if a != {} {
      var x :| x in a;
      Fewer(a - {x}, b - {x});
    }
  }

  /** How many commands a read of this takes: the listing, the inspection if there is anything to inspect, and one for
      each log. */
  function CommandsFor(shot: Snapshot): nat {
    if shot.any then 2 + |LogsOf(Listed(shot.listing), shot.text)| else 1
  }

  /** A reading shows exactly the containers listed, each with its own data, and the marks of exactly those network
      functions that have been started, each from its own log. */
  lemma ShownExact(shot: Snapshot, s: Service)
    requires Sound(shot)
    ensures
      var r := Shown(shot);
      && (s in r.containers <==> shot.any && exists i :: 0 <= i < |shot.listing| && shot.listing[i].0 == s)
      && (shot.any ==> forall i :: 0 <= i < |shot.listing| && shot.listing[i].0 == s ==>
            r.containers[s] == shot.listing[i].1)
      && (s in r.marks <==> IsNf(s) && s in r.containers && r.containers[s].status != Created)
      && (s in r.marks ==> r.marks[s] == MarksOf(s, if s in shot.text then shot.text[s] else ""))
  {
    if shot.any { ListedExact(shot.listing); }
  }

  lemma {:induction false} ListedExact(listing: seq<(Service, Info)>)
    requires NoDuplicates(listing)
    ensures forall s :: s in Listed(listing) <==> exists i :: 0 <= i < |listing| && listing[i].0 == s
    ensures forall i :: 0 <= i < |listing| ==> Listed(listing)[listing[i].0] == listing[i].1
  {
    ListedKeys(listing);
    if listing != [] {
      var before := listing[..|listing| - 1];
      ListedExact(before);
      assert forall i :: 0 <= i < |before| ==> listing[i] == before[i];
    }
  }

  /** Everything a snapshot lists has been read. */
  ghost predicate ReadAll(shot: Snapshot, cs: Containers, logs: Logs) {
    NoDuplicates(shot.listing) && cs == Listed(shot.listing) && logs == LogsOf(cs, shot.text)
  }

  lemma ReadAllShows(shot: Snapshot, cs: Containers, logs: Logs)
    requires shot.any && shot.wellFormed && ReadAll(shot, cs, logs)
    ensures Reading(cs, Marked(logs)) == Shown(shot) && Sound(shot) && CommandsFor(shot) == 2 + |logs|
  {
  }

  /** The first i containers of a snapshot have been read, none of them twice. */
  ghost predicate Gathered(shot: Snapshot, i: nat, cs: Containers, logs: Logs) {
    && i <= |shot.listing| && NoDuplicates(shot.listing[..i])
    && cs == Listed(shot.listing[..i]) && logs == LogsOf(cs, shot.text)
  }

  lemma MoreDuplicates(listing: seq<(Service, Info)>, n: nat)
    requires n <= |listing| && !NoDuplicates(listing[..n])
    ensures !NoDuplicates(listing)
  {
    var i, j :| 0 <= i < j < n && listing[..n][i].0 == listing[..n][j].0;
    assert listing[i].0 == listing[j].0;
  }

  predicate Differs(known: map<Service, Identity>, running: map<Service, Identity>, s: Service) {
    s in running && s in known && known[s] != running[s]
  }

  /** When a poll began, and with which command. */
  datatype Mark = Mark(at: real, first: nat)

  /** One finished call of wait_core_ready: its readings, its polls, its answer, its parameters and start, its commands,
      its end. */
  datatype Wait = Wait(
    h: seq<Sample>, readings: seq<Reading>, marks: seq<Mark>, passed: bool, readFailed: bool,
    run: Run, from: nat, to: nat, ended: real)

  const NO_WAIT := Wait([], [], [], false, false, Run(Limits(0.0, 0.0), 0.0, 0.0, 0.0, 0.0), 0, 0, 0.0)

  datatype Ended = BadArguments | Finished(passed: bool, readFailed: bool)

  /** A time that every command is always given. */
  type Pace = r: real | 0.0 <= r <= 1.0 witness 1.0

  class Core {
    const wanted: nat -> real            // how long the n-th command would run
    const succeeds: nat -> bool
    const snapshots: real -> Snapshot    // what a poll that begins then is told
    const lags: nat -> real              // how late the k-th sleep wakes up
    const maxLag: real
    const pace: Pace                     // how long a prompt command takes at most
    var now: real
    var asked: nat

    ghost predicate Valid() {
      forall k :: 0.0 <= lags(k) <= maxLag
    }

    // ---- what the lab may promise ----

    ghost predicate PromptAt(n: nat) {
      succeeds(n) && wanted(n) <= pace
    }

    ghost predicate SoundAt(t: real) {
      Sound(snapshots(t))
    }

    /** The commands from the from-th up to the to-th succeed in time. */
    ghost predicate PromptIn(from: nat, to: nat) {
      forall n :: from <= n < to ==> PromptAt(n)
    }

    /** Between s and e every output is acceptable. */
    ghost predicate SoundIn(s: real, e: real) {
      forall t :: s <= t <= e ==> SoundAt(t)
    }

    function ReadTime(): (r: real)
      ensures r >= 0.0
    {
      IntervalsGrow(0, MOST_COMMANDS, pace);
      Intervals(MOST_COMMANDS, pace)
    }

    ghost predicate CalmAt(ids: map<Service, Identity>, t: real) {
      var r := Shown(snapshots(t));
      (forall i :: !IsFatal(i, r.containers, r.marks)) && Within(RunningIn(r.containers), ids)
    }

    /** Between s and e nothing is fatal, and each service keeps the identity ids gives it whenever it runs. */
    ghost predicate CalmIn(ids: map<Service, Identity>, s: real, e: real) {
      forall t :: s <= t <= e ==> CalmAt(ids, t)
    }

    ghost predicate HealthyAt(t: real) {
      CoreHealthy(Shown(snapshots(t)).containers, Shown(snapshots(t)).marks)
    }

    ghost predicate HealthyIn(s: real, e: real) {
      forall t :: s <= t <= e ==> HealthyAt(t)
    }

    /** Between b and e the core is healthy exactly from s on. */
    ghost predicate HealthyExactlyFrom(s: real, b: real, e: real) {
      forall t :: b <= t <= e ==> (HealthyAt(t) <==> t >= s)
    }

    // ---- what the calls say about it ----

    /** The n-th command failed, or would not have ended within ten seconds or, if that is less, the time left: one
        second at least. */
    ghost predicate FailsAt(n: nat, left: real) {
      !succeeds(n) || wanted(n) > Larger(1.0, Smaller(10.0, left))
    }

    /** Some command from the from-th up to the to-th failed or hung, when the first of them was asked with this much
        time left. */
    ghost predicate SomeFailed(left: real, from: nat, to: nat) {
      exists n :: from <= n < to && FailsInTurn(left, from, n)
    }

    ghost predicate FailsInTurn(left: real, from: nat, n: nat) {
      FailsAt(n, left - Cost(from, n))
    }

    /** The n-th command was answered with a zero code, within ten seconds. */
    ghost predicate AnsweredAt(n: nat) {
      succeeds(n) && wanted(n) <= 10.0
    }

    ghost predicate AnsweredIn(from: nat, to: nat) {
      forall n :: from <= n < to ==> AnsweredAt(n)
    }

    /** The longest the n-th command can take: it is killed after ten seconds at the latest. */
    function Took(n: nat): real {
      Smaller(10.0, Larger(0.0, wanted(n)))
    }

    /** The longest the commands from the from-th up to the to-th can take together. */
    function Cost(from: nat, to: nat): real {
      if to <= from then 0.0 else Cost(from, to - 1) + Took(to - 1)
    }

    lemma {:induction false} PromptCost(from: nat, to: nat)
      requires from <= to && PromptIn(from, to)
      ensures Cost(from, to) <= Intervals(to - from, pace)
    {
      if from < to {
        assert PromptAt(to - 1) && PromptIn(from, to - 1);
        PromptCost(from, to - 1);
      }
    }

    /** No read lasts longer than a hundred and ten seconds. */
    lemma {:induction false} MostCost(from: nat, to: nat)
      requires from <= to
      ensures Cost(from, to) <= Intervals(to - from, 10.0)
    {
      if from < to { MostCost(from, to - 1); }
    }

    ghost predicate ShownAt(h: seq<Sample>, readings: seq<Reading>, k: nat) {
      k < |h| && k < |readings| ==> readings[k] == Shown(snapshots(h[k].began))
    }

    /** Every reading shows what was there when its poll began. */
    ghost predicate Faithful(h: seq<Sample>, readings: seq<Reading>) {
      forall k :: ShownAt(h, readings, k)
    }

    lemma FaithfulAppend(h: seq<Sample>, readings: seq<Reading>, x: Sample, reading: Reading)
      requires Faithful(h, readings) && |h| == |readings| && reading == Shown(snapshots(x.began))
      ensures Faithful(h + [x], readings + [reading])
    {
      var h', rs := h + [x], readings + [reading];
      forall k: nat ensures ShownAt(h', rs, k) {
        if k < |h| {
          assert ShownAt(h, readings, k) && h'[k] == h[k] && rs[k] == readings[k];
        } else if k == |h| {
          assert h'[k] == x && rs[k] == reading;
        }
      }
    }

    /** The first command after those of the k-th poll. */
    function NextFirst(marks: seq<Mark>, to: nat, k: nat): nat {
      if k + 1 < |marks| then marks[k + 1].first else to
    }

    /** The k-th poll asked at least one command and no more than a read needs, and took no longer than they did; if it
        ended in a reading, all of them were answered. */
    ghost predicate AccountedAt(h: seq<Sample>, marks: seq<Mark>, from: nat, to: nat, k: nat) {
      k < |marks| ==>
        && from <= marks[k].first < NextFirst(marks, to, k) <= marks[k].first + MOST_COMMANDS
        && NextFirst(marks, to, k) <= to
        && (k < |h| ==>
              && h[k].began == marks[k].at && h[k].seen <= h[k].began + Cost(marks[k].first, NextFirst(marks, to, k))
              && AnsweredIn(marks[k].first, NextFirst(marks, to, k)))
    }

    /** Every poll has its commands, one after the other from the from-th up to the to-th, and every second of a reading
        was spent on them. */
    ghost predicate Accounted(h: seq<Sample>, marks: seq<Mark>, from: nat, to: nat) {
      && |h| <= |marks| <= |h| + 1 && from <= to && (if marks == [] then to == from else marks[0].first == from)
      && forall k :: AccountedAt(h, marks, from, to, k)
    }

    lemma NothingWatched(run: Run)
      requires ValidRun(run)
      ensures Watched([], [], START, run.started, run)
    {
    }

    lemma NothingYet(from: nat)
      ensures Faithful([], []) && Accounted([], [], from, from)
    {
    }

    lemma AccountedAppend(h: seq<Sample>, marks: seq<Mark>, from: nat, a: nat, m: Mark, to: nat)
      requires Accounted(h, marks, from, a) && |marks| == |h| && m.first == a < to <= a + MOST_COMMANDS
      ensures Accounted(h, marks + [m], from, to)
    {
      var more := marks + [m];
      forall k: nat ensures AccountedAt(h, more, from, to, k) {
        assert AccountedAt(h, marks, from, a, k);
        assert k < |marks| ==> more[k] == marks[k] && NextFirst(more, to, k) == NextFirst(marks, a, k);
      }
    }

    lemma AccountedReading(h: seq<Sample>, marks: seq<Mark>, from: nat, to: nat, x: Sample)
      requires Accounted(h, marks, from, to) && |marks| == |h| + 1
      requires x.began == marks[|h|].at && x.seen <= x.began + Cost(marks[|h|].first, to)
      requires AnsweredIn(marks[|h|].first, to)
      ensures Accounted(h + [x], marks, from, to)
    {
      forall k: nat ensures AccountedAt(h + [x], marks, from, to, k) {
        assert AccountedAt(h, marks, from, to, k);
      }
    }

    /** The last read failed: it began in its turn, lasted no longer than its commands, and has a cause: the deadline, a
        command of its own that failed or hung, or output that is not acceptable. */
    ghost predicate FailsFor(h: seq<Sample>, marks: seq<Mark>, run: Run, to: nat, ended: real) {
      |marks| == |h| + 1 &&
        var m := marks[|h|];
        && (if h == [] then m.at == run.started else h[|h| - 1].seen + run.interval <= m.at <= NextBegin(h, run))
        && m.at < run.lim.deadline && m.at <= ended <= m.at + Cost(m.first, to)
        && (ended >= run.lim.deadline || SomeFailed(run.lim.deadline - m.at, m.first, to) || !SoundAt(m.at))
    }

    /** During the call the lab is calm, prompt and, from time s on, healthy, and there is room for two rounds and the
        read under way at s. */
    ghost predicate Favourable(x: Wait, s: real, ids: map<Service, Identity>) {
      && PromptIn(x.from, x.to) && SoundIn(x.run.started, x.ended)
      && CalmIn(ids, x.run.started, x.ended) && HealthyIn(s, x.ended) && x.run.started <= s
      && s + x.run.lim.stable + 2.0 * (x.run.interval + x.run.lag) + 3.0 * ReadTime() < x.run.lim.deadline
    }

    /** The polls and readings of a call, and the reason if the last read failed. */
    ghost predicate Happened(x: Wait) {
      && ValidRun(x.run) && x.run.lag == maxLag && Faithful(x.h, x.readings) && Accounted(x.h, x.marks, x.from, x.to)
      && WatchGuarantee(x.h, x.readings, |x.marks|, x.passed, x.readFailed, x.run, x.ended)
      && (x.readFailed ==> FailsFor(x.h, x.marks, x.run, x.to, x.ended))
    }

    /** x is a call of wait_core_ready on this core, as far as a lab with identities ids that is healthy from time s on
        can tell: a favourable one passes. */
    ghost predicate MadeFor(x: Wait, s: real, ids: map<Service, Identity>) {
      Happened(x) && (Favourable(x, s, ids) ==> x.passed)
    }

    /** x is a call of wait_core_ready on this core. */
    ghost predicate Made(x: Wait) {
      forall s, ids :: MadeFor(x, s, ids)
    }

    ghost predicate CalmThroughout(x: Wait, ids: map<Service, Identity>) {
      forall k :: 0 <= k < |x.h| ==> CalmAt(ids, x.h[k].began)
    }

    /** A service that ran at two polls was the same container both times, and had not been restarted. */
    ghost predicate SteadyAt(x: Wait, j: nat, k: nat, s: Service) {
      j < |x.h| && k < |x.h| ==>
        var a, b := Shown(snapshots(x.h[j].began)).containers, Shown(snapshots(x.h[k].began)).containers;
        s != LogInit && s in a && s in b && a[s].status == b[s].status == Running ==>
          a[s].id == b[s].id && a[s].startedAt == b[s].startedAt
    }

    ghost predicate HealthySince(x: Wait, j: nat) {
      forall k :: j <= k < |x.h| ==> HealthyAt(x.h[k].began)
    }

    ghost predicate CalmPolled(x: Wait) {
      exists ids :: CalmThroughout(x, ids)
    }

    ghost predicate SteadyPolled(x: Wait) {
      forall j, k, s :: SteadyAt(x, j, k, s)
    }

    ghost predicate HealthyForTheWindow(x: Wait)
      requires x.h != []
    {
      exists j :: 0 <= j < |x.h| && x.h[|x.h| - 1].seen - x.h[j].seen >= x.run.lim.stable && HealthySince(x, j)
    }

    /** Nothing was fatal and nothing restarted at any poll, and every poll since one at least the stability window
        before the last found the core healthy. */
    ghost predicate ReadyAtLast(x: Wait) {
      && x.h != [] && x.h[|x.h| - 1].seen <= x.ended && x.h[|x.h| - 1].seen < x.run.lim.deadline
      && CalmPolled(x) && SteadyPolled(x) && HealthyForTheWindow(x)
    }

    /** What a pass says of the core itself. */
    lemma PassedMeansReady(x: Wait)
      requires Made(x) && x.passed
      ensures ReadyAtLast(x)
    {
      assert MadeFor(x, 0.0, map[]);
      PassedHistory(x);
      CalmPolls(x);
      SteadyPolls(x);
      HealthyPolls(x);
    }

    lemma PassedHistory(x: Wait)
      requires Happened(x) && x.passed
      ensures Recorded(x.h, x.readings, x.run) && Faithful(x.h, x.readings) && Untroubled(x.h)
      ensures x.h != [] && Spans(x.h, x.run.lim.stable)
      ensures x.h[|x.h| - 1].seen <= x.ended && x.h[|x.h| - 1].seen < x.run.lim.deadline
    {
    }

    lemma SteadyPolls(x: Wait)
      requires CalmPolled(x)
      ensures SteadyPolled(x)
    {
      var ids :| CalmThroughout(x, ids);
      forall j: nat, k: nat, s ensures SteadyAt(x, j, k, s) {
        if j < |x.h| && k < |x.h| { SameIdentity(x.h[j].began, x.h[k].began, ids, s); }
      }
    }

    lemma SameIdentity(t: real, u: real, ids: map<Service, Identity>, s: Service)
      requires CalmAt(ids, t) && CalmAt(ids, u)
      ensures
        var a, b := Shown(snapshots(t)).containers, Shown(snapshots(u)).containers;
        s != LogInit && s in a && s in b && a[s].status == b[s].status == Running ==>
          a[s].id == b[s].id && a[s].startedAt == b[s].startedAt
    {
      var a, b := RunningIn(Shown(snapshots(t)).containers), RunningIn(Shown(snapshots(u)).containers);
      assert s in a && s in b ==> a[s] == b[s];
    }

    lemma CalmPolls(x: Wait)
      requires Recorded(x.h, x.readings, x.run) && Faithful(x.h, x.readings) && Untroubled(x.h)
      ensures CalmPolled(x)
    {
      var ids :| Agrees(ids, x.h);
      forall k | 0 <= k < |x.h| ensures CalmAt(ids, x.h[k].began) { PollMeans(x.h, x.readings, x.run, k, ids); }
      assert CalmThroughout(x, ids);
    }

    lemma HealthyPolls(x: Wait)
      requires Recorded(x.h, x.readings, x.run) && Faithful(x.h, x.readings) && x.h != []
      requires Spans(x.h, x.run.lim.stable)
      ensures HealthyForTheWindow(x)
    {
      var j :| 0 <= j < |x.h| && CleanFrom(x.h, j) && x.h[|x.h| - 1].seen - x.h[j].seen >= x.run.lim.stable;
      forall k | j <= k < |x.h| ensures HealthyAt(x.h[k].began) { PollMeans(x.h, x.readings, x.run, k, map[]); }
      assert HealthySince(x, j);
    }

    lemma PollMeans(h: seq<Sample>, readings: seq<Reading>, run: Run, k: nat, ids: map<Service, Identity>)
      requires k < |h| && Recorded(h, readings, run) && Faithful(h, readings)
      ensures !h[k].fatal && Within(h[k].running, ids) <==> CalmAt(ids, h[k].began)
      ensures h[k].clean <==> HealthyAt(h[k].began)
    {
      assert ShownAt(h, readings, k) && Describes(h[k], readings[k]);
    }

    /** Since the a0-th command was about to be asked at time t0, no more time has passed than the commands took. */
    ghost predicate Lapsed(t0: real, a0: nat)
      reads this
    {
      t0 <= now && a0 <= asked && now <= t0 + Cost(a0, asked)
    }

    /** One command of read_core: refused at the deadline, and killed at its own timeout. */
    method Command(deadline: real, ghost t0: real, ghost a0: nat) returns (ok: bool)
      requires Lapsed(t0, a0)
      modifies this
      ensures Lapsed(t0, a0) && old(now) <= now && asked == old(asked) + if old(now) < deadline then 1 else 0
      ensures old(now) < deadline + 1.0 ==> now < deadline + 1.0
      ensures old(now) >= deadline ==> !ok && now == old(now)
      ensures !ok ==> now >= deadline || SomeFailed(deadline - t0, a0, asked)
      // answered exactly with a zero code in time: ten seconds, or the time left rounded up to whole seconds
      ensures ok ==>
        AnsweredAt(old(asked)) && (wanted(old(asked)) > 1.0 ==> old(now) + wanted(old(asked)) < deadline + 1.0)
      ensures old(now) < deadline && !FailsAt(old(asked), deadline - old(now)) ==> ok
    {
      var remaining := deadline - now;
      if remaining <= 0.0 { return false; }
      var ceil := Ceil(remaining);
      var limit := (if ceil < 1 then 1 else if ceil > 10 then 10 else ceil) as real;
      var took := Larger(0.0, wanted(asked));
      ok := took <= limit && succeeds(asked);
      assert !ok ==> FailsInTurn(deadline - t0, a0, asked);
      now := now + Smaller(took, limit);
      asked := asked + 1;
    }

    /** One container of the inspection, and its log if it is a network function that has been started. */
    method ReadContainer(deadline: real, shot: Snapshot, i: nat, cs: Containers, logs: Logs,
                         ghost t0: real, ghost a0: nat)
      returns (ok: bool, cs': Containers, logs': Logs)
      requires i < |shot.listing| && Gathered(shot, i, cs, logs)
      requires Lapsed(t0, a0) && now < deadline + 1.0
      modifies this
      ensures Lapsed(t0, a0) && now < deadline + 1.0 && 0 <= asked - old(asked) <= |logs'| - |logs|
      ensures logs' == LogsOf(cs', shot.text) && (ok ==> Gathered(shot, i + 1, cs', logs'))
      ensures ok ==> asked - old(asked) == |logs'| - |logs| && AnsweredIn(old(asked), asked)
      ensures !ok ==> now >= deadline || !NoDuplicates(shot.listing) || SomeFailed(deadline - t0, a0, asked)
    {
      var (s, info) := shot.listing[i];
      OneContainerMore(shot.listing, i);
      ok, cs', logs' := true, cs, logs;
      if s in cs {
        MoreDuplicates(shot.listing, i + 1);
        return false, cs, logs;
      }
      cs' := cs[s := info];
      OneLogMore(cs, s, info, shot.text);
      var started := IsNf(s) && info.status != Created;
      if started { logs' := logs[s := if s in shot.text then shot.text[s] else ""]; }
      ok := ReadLog(deadline, started, t0, a0);
    }

    /** docker logs, for a network function that has been started. */
    method ReadLog(deadline: real, started: bool, ghost t0: real, ghost a0: nat) returns (ok: bool)
      requires Lapsed(t0, a0) && now < deadline + 1.0
      modifies this
      ensures Lapsed(t0, a0) && now < deadline + 1.0 && 0 <= asked - old(asked) <= if started then 1 else 0
      ensures ok ==> asked == old(asked) + (if started then 1 else 0) && AnsweredIn(old(asked), asked)
      ensures !ok ==> now >= deadline || SomeFailed(deadline - t0, a0, asked)
    {
      ok := true;
      if started { ok := Command(deadline, t0, a0); }
    }

    /** The loop over the inspected containers. */
    method ReadListing(deadline: real, shot: Snapshot, ghost t0: real, ghost a0: nat)
      returns (ok: bool, cs: Containers, logs: Logs)
      requires Lapsed(t0, a0) && now < deadline + 1.0
      modifies this
      ensures Lapsed(t0, a0) && now < deadline + 1.0 && 0 <= asked - old(asked) <= 9
      ensures ok ==> ReadAll(shot, cs, logs)
      ensures ok ==> asked - old(asked) == |logs| && AnsweredIn(old(asked), asked)
      ensures !ok ==> now >= deadline || !NoDuplicates(shot.listing) || SomeFailed(deadline - t0, a0, asked)
    {
      ok, cs, logs := true, map[], map[];
      for i := 0 to |shot.listing|
        invariant Lapsed(t0, a0) && now < deadline + 1.0 && ok
        invariant Gathered(shot, i, cs, logs) && asked - old(asked) == |logs| <= 9
        invariant AnsweredIn(old(asked), asked)
      {
        ok, cs, logs := ReadContainer(deadline, shot, i, cs, logs, t0, a0);
        FewLogs(cs, shot.text);
        if !ok { return; }
      }
      assert shot.listing[..|shot.listing|] == shot.listing;
    }

    /** read_core: a failed or late command, malformed output or a duplicate service is a failed read. */
    method ReadCore(deadline: real) returns (ok: bool, cs: Containers, logs: Logs)
      requires now < deadline
      modifies this
      ensures old(now) <= now < deadline + 1.0 && old(asked) < asked
      ensures ok ==> Reading(cs, Marked(logs)) == Shown(snapshots(old(now))) && SoundAt(old(now))
      ensures asked <= old(asked) + MOST_COMMANDS && now <= old(now) + Cost(old(asked), asked)
      ensures !ok ==> now >= deadline || SomeFailed(deadline - old(now), old(asked), asked) || !SoundAt(old(now))
      ensures ok ==> AnsweredIn(old(asked), asked) && asked == old(asked) + CommandsFor(snapshots(old(now)))
    {
      ok, cs, logs := ReadSnapshot(deadline, snapshots(now));
    }

    /** The commands of one read, given what Docker would say. */
    method ReadSnapshot(deadline: real, shot: Snapshot) returns (ok: bool, cs: Containers, logs: Logs)
      requires now < deadline
      modifies this
      ensures Lapsed(old(now), old(asked)) && now < deadline + 1.0 && 1 <= asked - old(asked) <= MOST_COMMANDS
      ensures ok ==> Reading(cs, Marked(logs)) == Shown(shot) && Sound(shot)
      ensures !ok ==> now >= deadline || !Sound(shot) || SomeFailed(deadline - old(now), old(asked), asked)
      ensures ok ==> AnsweredIn(old(asked), asked) && asked == old(asked) + CommandsFor(shot)
    {
      cs, logs := map[], map[];
      ok := Command(deadline, now, asked);
      if ok && shot.any {
        ok, cs, logs := Inspect(deadline, shot, old(now), old(asked));
        if ok { ReadAllShows(shot, cs, logs); }
      }
    }

    /** The inspection and the logs. */
    method Inspect(deadline: real, shot: Snapshot, ghost t0: real, ghost a0: nat)
      returns (ok: bool, cs: Containers, logs: Logs)
      requires shot.any && Lapsed(t0, a0) && now < deadline + 1.0
      modifies this
      ensures Lapsed(t0, a0) && now < deadline + 1.0 && 0 <= asked - old(asked) <= 10
      ensures ok ==> shot.wellFormed && ReadAll(shot, cs, logs)
      ensures ok ==> AnsweredIn(old(asked), asked) && asked == old(asked) + 1 + |logs|
      ensures !ok ==> now >= deadline || !Sound(shot) || SomeFailed(deadline - t0, a0, asked)
    {
      cs, logs := map[], map[];
      ok := Command(deadline, t0, a0);
      if !ok { return; }
      if !shot.wellFormed { return false, cs, logs; }
      ok, cs, logs := ReadListing(deadline, shot, t0, a0);
    }

    /** The identity check of one poll, service by service. */
    method CheckIdentities(cs: Containers, known: map<Service, Identity>)
      returns (ids: map<Service, Identity>, changed: seq<Issue>)
      ensures ids == known + RunningIn(cs)
      ensures changed != [] <==> Conflict(known, RunningIn(cs))
    {
      forall s | s in RunningIn(cs) ensures s in CORE_SERVICES { CoreServicesComplete(s); }
      NoRepeats();
      ids, changed := CheckEach(CORE_SERVICES, cs, known);
    }

    method CheckEach(services: seq<Service>, cs: Containers, known: map<Service, Identity>)
      returns (ids: map<Service, Identity>, changed: seq<Issue>)
      requires forall i, j :: 0 <= i < j < |services| ==> services[i] != services[j]
      requires LogInit !in services && forall s :: s in RunningIn(cs) ==> s in services
      ensures ids == known + RunningIn(cs)
      ensures changed != [] <==> Conflict(known, RunningIn(cs))
    {
      ids, changed := known, [];
      ghost var running, seen: set<Service>, who := RunningIn(cs), {}, LogInit;
      for i := 0 to |services|
        invariant forall j :: 0 <= j < |services| ==> (services[j] in seen <==> j < i)
        invariant forall s :: s in ids <==> s in known || (s in running && s in seen)
        invariant forall s :: s in ids ==> ids[s] == if s in running && s in seen then running[s] else known[s]
        invariant changed == [] ==> forall s :: s in seen ==> !Differs(known, running, s)
        invariant changed != [] ==> Differs(known, running, who)
      {
        var s := services[i];
        if s in cs && cs[s].status.Running? {
          var identity := Identity(cs[s].id, cs[s].startedAt);
          assert s !in seen && s in running && running[s] == identity;
          if s in ids && ids[s] != identity {
            changed := changed + [Changed(s)];
            who := s;
          }
          ids := ids[s := identity];
        }
        seen := seen + {s};
      }
      assert ids == known + running;
    }

    /** Read, classify, and compare identities once. */
    method Poll(deadline: real, known: map<Service, Identity>)
      returns (ok: bool, trouble: bool, waiting: bool, ids: map<Service, Identity>,
               ghost x: Sample, ghost reading: Reading)
      requires now < deadline
      modifies this
      ensures old(now) <= now < deadline + 1.0 && old(asked) < asked
      ensures ok ==>
        && x.began == old(now) && x.seen == now && Describes(x, reading)
        && (trouble <==> x.fatal || Conflict(known, x.running)) && ids == known + x.running
        && (!trouble ==> (waiting <==> !x.clean)) && reading == Shown(snapshots(x.began))
      ensures asked <= old(asked) + MOST_COMMANDS && now <= old(now) + Cost(old(asked), asked)
      ensures !ok ==> now >= deadline || SomeFailed(deadline - old(now), old(asked), asked) || !SoundAt(old(now))
      ensures ok ==> AnsweredIn(old(asked), asked)
    {
      trouble, waiting, ids := false, false, known;
      x, reading := Sample(now, now, false, false, map[]), Reading(map[], map[]);
      ghost var began := now;
      var containers, logs;
      ok, containers, logs := ReadCore(deadline);
      if !ok { return; }
      var marks := Marked(logs);
      var fatal, pending := FindIssues(containers, marks);
      var changed;
      ids, changed := CheckIdentities(containers, known);
      trouble, waiting := fatal != [] || changed != [], pending != [];
      x := Sample(began, now, fatal != [], fatal == [] && pending == [], RunningIn(containers));
      reading := Reading(containers, marks);
      assert fatal != [] ==> IsFatal(fatal[0], containers, marks);
    }

    /** A poll, entered in the account of the call: the next reading, or the end of the call. */
    method TakePoll(deadline: real, known: map<Service, Identity>, ghost h: seq<Sample>, ghost readings: seq<Reading>,
                    ghost marks: seq<Mark>, ghost from: nat, ghost w: Watch, ghost run: Run)
      returns (ok: bool, trouble: bool, waiting: bool, ids: map<Service, Identity>,
               ghost x: Sample, ghost reading: Reading, ghost marks': seq<Mark>)
      requires now < deadline == run.lim.deadline && |marks| == |h| && w.ids == known
      requires Watched(h, readings, w, now, run) && Accounted(h, marks, from, asked)
      modifies this
      ensures old(now) <= now && |marks'| == |h| + 1 && Accounted(if ok then h + [x] else h, marks', from, asked)
      ensures ok ==>
        && NextReading(h, readings, w, x, reading, run) && reading == Shown(snapshots(x.began))
        && x.seen == now && ids == known + x.running
        && (trouble <==> x.fatal || Conflict(known, x.running)) && (!trouble ==> (waiting <==> !x.clean))
      ensures !ok ==>
        WatchGuarantee(h, readings, |h| + 1, false, true, run, now) && FailsFor(h, marks', run, asked, now)
    {
      ghost var began := Mark(now, asked);
      marks' := marks + [began];
      ok, trouble, waiting, ids, x, reading := Poll(deadline, known);
      AccountedAppend(h, marks, from, began.first, began, asked);
      if ok {
        AccountedReading(h, marks', from, asked, x);
      } else {
        StopsUnread(h, readings, w, began.at, run, now);
        UnreadFails(h, readings, marks, w, began, run, asked, now);
      }
    }

    /** What the clock after one poll makes of stable_since. */
    method Judge(deadline: real, stable: int, stableSince: Option<real>, trouble: bool, waiting: bool,
                 ghost w: Watch, ghost x: Sample)
      returns (since: Option<real>, verdict: Verdict)
      requires w.since == stableSince && w.verdict == Watching && x.seen == now
      requires trouble <==> x.fatal || Conflict(w.ids, x.running)
      requires !trouble ==> (waiting <==> !x.clean)
      ensures Next(w, x, Limits(stable as real, deadline)) == Watch(since, w.ids + x.running, verdict)
    {
      since, verdict := stableSince, Watching;
      if trouble { return since, Broken; }
      if waiting {
        since := None;
      } else {
        since := if since == None then Some(now) else since;
        if now - since.value >= stable as real && now < deadline { verdict := Ready; }
      }
    }

    lemma UnreadFails(
      h: seq<Sample>, readings: seq<Reading>, marks: seq<Mark>, w: Watch, m: Mark, run: Run, to: nat, ended: real)
      requires Watched(h, readings, w, m.at, run) && |marks| == |h|
      requires m.at < run.lim.deadline && m.at <= ended <= m.at + Cost(m.first, to)
      requires ended >= run.lim.deadline || SomeFailed(run.lim.deadline - m.at, m.first, to) || !SoundAt(m.at)
      ensures FailsFor(h, marks + [m], run, to, ended)
    {
    }

    /** One turn of the loop; an answer ends the call. */
    method Round(deadline: real, stable: int, interval: real, k: nat, stableSince: Option<real>,
                 known: map<Service, Identity>, ghost h: seq<Sample>, ghost readings: seq<Reading>,
                 ghost marks: seq<Mark>, ghost from: nat, ghost run: Run)
      returns (answer: Option<Ended>, since: Option<real>, ids: map<Service, Identity>,
               ghost h': seq<Sample>, ghost readings': seq<Reading>, ghost marks': seq<Mark>)
      requires Valid() && now < deadline && k == |h| == |marks|
      requires run.lim == Limits(stable as real, deadline) && run.interval == interval && run.lag == maxLag
      requires Watched(h, readings, Watch(stableSince, known, Watching), now, run) && Faithful(h, readings)
      requires Accounted(h, marks, from, asked)
      modifies this
      ensures old(now) <= now && Faithful(h', readings') && Accounted(h', marks', from, asked) && |marks'| == |h| + 1
      ensures answer == None ==>
        |h'| == |h| + 1 && Watched(h', readings', Watch(since, ids, Watching), now, run)
      ensures answer.Some? ==>
        && answer.value.Finished?
        && WatchGuarantee(h', readings', |h| + 1, answer.value.passed, answer.value.readFailed, run, now)
        && (answer.value.readFailed ==> FailsFor(h', marks', run, asked, now))
    {
      ghost var w := Watch(stableSince, known, Watching);
      var ok, trouble, waiting;
      ghost var x, reading;
      ok, trouble, waiting, ids, x, reading, marks' :=
        TakePoll(deadline, known, h, readings, marks, from, w, run);
      if !ok {
        return Some(Finished(false, true)), stableSince, ids, h, readings, marks';
      }
      answer, since, h', readings' :=
        Advance(deadline, stable, interval, k, stableSince, trouble, waiting, h, readings, w, x, reading, run);
    }

    /** What follows a successful poll: an answer, or the sleep before the next round. */
    method Advance(deadline: real, stable: int, interval: real, k: nat, stableSince: Option<real>,
                   trouble: bool, waiting: bool,
                   ghost h: seq<Sample>, ghost readings: seq<Reading>, ghost w: Watch,
                   ghost x: Sample, ghost reading: Reading, ghost run: Run)
      returns (answer: Option<Ended>, since: Option<real>, ghost h': seq<Sample>, ghost readings': seq<Reading>)
      requires Valid() && w.since == stableSince && w.verdict == Watching && x.seen == now
      requires trouble <==> x.fatal || Conflict(w.ids, x.running)
      requires !trouble ==> (waiting <==> !x.clean)
      requires run.lim == Limits(stable as real, deadline) && run.interval == interval && run.lag == maxLag
      requires NextReading(h, readings, w, x, reading, run) && Faithful(h, readings)
      requires reading == Shown(snapshots(x.began))
      modifies this`now
      ensures old(now) <= now && Faithful(h', readings') && |h'| == |h| + 1 && h' == h + [x]
      ensures answer == None ==>
        |h'| == |h| + 1 && Watched(h', readings', Watch(since, w.ids + x.running, Watching), now, run)
      ensures answer.Some? ==>
        && answer.value.Finished? && !answer.value.readFailed
        && WatchGuarantee(h', readings', |h| + 1, answer.value.passed, false, run, now)
    {
      FaithfulAppend(h, readings, x, reading);
      h', readings' := h + [x], readings + [reading];
      var verdict;
      since, verdict := Judge(deadline, stable, stableSince, trouble, waiting, w, x);
      if verdict != Watching {
        Decides(h, readings, w, x, reading, run);
        return Some(Finished(verdict == Ready, false)), since, h', readings';
      }
      assert 0.0 <= lags(k) <= maxLag;
      GoesOn(h, readings, w, x, reading, run, lags(k));
      now := now + Smaller(interval, Larger(0.0, deadline - now)) + lags(k);
      answer := None;
    }

    /** wait_core_ready. */
    method WaitCoreReady(timeout: int, stable: int, interval: real) returns (r: Ended, ghost x: Wait)
      requires Valid()
      modifies this
      ensures r == BadArguments <==> timeout <= 0 || stable <= 0 || stable >= timeout || interval <= 0.0
      ensures r.Finished? ==>
        && Made(x) && x.passed == r.passed && x.readFailed == r.readFailed
        && x.run == Run(Limits(stable as real, old(now) + timeout as real), old(now), timeout as real, interval, maxLag)
        && x.from == old(asked) && x.to == asked && x.ended == now
    {
      x := NO_WAIT;
      if timeout <= 0 || stable <= 0 || stable >= timeout || interval <= 0.0 { return BadArguments, x; }
      ghost var h, readings, marks, run, from := [], [], [], x.run, asked;
      r, h, readings, marks, run := WatchLoop(timeout, stable, interval);
      x := Wait(h, readings, marks, r.passed, r.readFailed, run, from, asked, now);
      forall s, ids ensures MadeFor(x, s, ids) {
        if Favourable(x, s, ids) { HealthyInTime(x, s, ids); }
      }
    }

    method WatchLoop(timeout: int, stable: int, interval: real)
      returns (r: Ended, ghost h: seq<Sample>, ghost readings: seq<Reading>, ghost marks: seq<Mark>, ghost run: Run)
      requires Valid() && 0 < stable < timeout && interval > 0.0
      modifies this
      ensures run ==
        Run(Limits(stable as real, old(now) + timeout as real), old(now), timeout as real, interval, maxLag)
      ensures r.Finished? && ValidRun(run) && Faithful(h, readings) && Accounted(h, marks, old(asked), asked)
      ensures WatchGuarantee(h, readings, |marks|, r.passed, r.readFailed, run, now)
      ensures r.readFailed ==> FailsFor(h, marks, run, asked, now)
    {
      var deadline := now + timeout as real;
      ghost var from := asked;
      h, readings, marks := [], [], [];
      run := Run(Limits(stable as real, deadline), now, timeout as real, interval, maxLag);
      var stableSince: Option<real> := None;
      var identities: map<Service, Identity> := map[];
      var k := 0;
      assert 0.0 <= lags(0) <= maxLag;
      NothingYet(asked);
      NothingWatched(run);
      while now < deadline
        invariant k == |h| == |marks| && Accounted(h, marks, from, asked)
        invariant Watched(h, readings, Watch(stableSince, identities, Watching), now, run) && Faithful(h, readings)
        decreases Ceil(timeout as real / interval) - k
      {
        PollBound(k, interval, timeout as real);
        var answer;
        answer, stableSince, identities, h, readings, marks :=
          Round(deadline, stable, interval, k, stableSince, identities, h, readings, marks, from, run);
        if answer.Some? { return answer.value, h, readings, marks, run; }
        k := k + 1;
      }
      StopsLate(h, readings, Watch(stableSince, identities, Watching), now, run);
      r := Finished(false, false);
    }

    /** Every poll begins and is judged during the call. */
    lemma PollsInside(x: Wait, k: nat)
      requires ValidRun(x.run) && k < |x.h| && x.h[|x.h| - 1].seen <= x.ended
      requires Paced(x.h, x.run.started, x.run.lim.deadline, x.run.interval, x.run.lag)
      ensures x.run.started <= x.h[k].began <= x.h[k].seen <= x.ended
    {
      PacedIsOrdered(x.h, x.run.started, x.run.lim.deadline, x.run.interval, x.run.lag);
    }

    lemma CalmIsUntroubled(x: Wait, ids: map<Service, Identity>)
      requires Happened(x) && CalmIn(ids, x.run.started, x.ended)
      ensures Untroubled(x.h)
    {
      forall k | 0 <= k < |x.h| ensures !x.h[k].fatal && Within(x.h[k].running, ids) {
        PollsInside(x, k);
        assert CalmAt(ids, x.h[k].began);
        PollMeans(x.h, x.readings, x.run, k, ids);
      }
      assert Agrees(ids, x.h);
    }

    /** A poll of prompt commands is short. */
    lemma PromptPoll(x: Wait, k: nat)
      requires Accounted(x.h, x.marks, x.from, x.to) && PromptIn(x.from, x.to) && k < |x.marks|
      ensures Cost(x.marks[k].first, NextFirst(x.marks, x.to, k)) <= ReadTime()
    {
      assert AccountedAt(x.h, x.marks, x.from, x.to, k);
      var a, b := x.marks[k].first, NextFirst(x.marks, x.to, k);
      assert PromptIn(a, b);
      PromptCost(a, b);
      IntervalsGrow(b - a, MOST_COMMANDS, pace);
    }

    /** With prompt commands and acceptable output, reads are short and fail only at the deadline. */
    lemma PromptIsBrisk(x: Wait)
      requires Happened(x) && PromptIn(x.from, x.to) && SoundIn(x.run.started, x.ended)
      ensures Brisk(x.h, x.readFailed, x.run, x.ended, ReadTime())
    {
      forall k | 0 <= k < |x.h| ensures x.h[k].seen - x.h[k].began <= ReadTime() {
        assert AccountedAt(x.h, x.marks, x.from, x.to, k);
        PromptPoll(x, k);
      }
      if x.readFailed { PromptFails(x); }
    }

    lemma PromptSucceeds(left: real, a: nat, to: nat, from: nat)
      requires PromptIn(from, to) && from <= a
      ensures !SomeFailed(left, a, to)
    {
      forall n | a <= n < to ensures !FailsInTurn(left, a, n) { assert PromptAt(n); }
    }

    lemma PromptFails(x: Wait)
      requires Happened(x) && PromptIn(x.from, x.to) && SoundIn(x.run.started, x.ended) && x.readFailed
      ensures x.run.lim.deadline <= x.ended <= NextBegin(x.h, x.run) + ReadTime()
    {
      var m := x.marks[|x.h|];
      assert AccountedAt(x.h, x.marks, x.from, x.to, |x.h|);
      PromptPoll(x, |x.h|);
      PromptSucceeds(x.run.lim.deadline - m.at, m.first, x.to, x.from);
      if x.h != [] { PollsInside(x, |x.h| - 1); }
      assert SoundAt(m.at);
    }

    /** Liveness from what the lab promises for the time and the commands of the call. */
    lemma HealthyInTime(x: Wait, s: real, ids: map<Service, Identity>)
      requires Happened(x) && Favourable(x, s, ids)
      ensures x.passed
    {
      CalmIsUntroubled(x, ids);
      PromptIsBrisk(x);
      forall k | 0 <= k < |x.h| && x.h[k].began >= s ensures x.h[k].clean {
        PollsInside(x, k);
        assert HealthyAt(x.h[k].began);
        PollMeans(x.h, x.readings, x.run, k, ids);
      }
      CleanFromTime(x.h, x.readings, |x.marks|, x.passed, x.readFailed, x.run, x.ended, s, ReadTime());
    }

    /** The exact condition when reads take no time and sleeps wake up on time: the call passes if and only if the
        time until the core is healthy and the stability window, each rounded up to whole intervals, fit together. */
    lemma HealthyInTimeExact(x: Wait, s: real, ids: map<Service, Identity>, a: nat, b: nat)
      requires Happened(x) && PromptIn(x.from, x.to) && SoundIn(x.run.started, x.ended)
      requires CalmIn(ids, x.run.started, x.ended) && HealthyExactlyFrom(s, x.run.started, x.ended)
      requires pace == 0.0 && x.run.lag == 0.0
      requires Covers(a, s - x.run.started, x.run.interval) && Covers(b, x.run.lim.stable, x.run.interval)
      ensures x.passed <==> Intervals(a + b, x.run.interval) < x.run.timeout
    {
      CalmIsUntroubled(x, ids);
      PromptIsBrisk(x);
      IntervalsMultiply(MOST_COMMANDS, pace);
      forall k | 0 <= k < |x.h| ensures x.h[k].seen == x.h[k].began && (x.h[k].clean <==> x.h[k].began >= s) {
        PollsInside(x, k);
        assert HealthyAt(x.h[k].began) <==> x.h[k].began >= s;
        PollMeans(x.h, x.readings, x.run, k, ids);
      }
      PunctualExact(x.h, x.readings, |x.marks|, x.passed, x.run, x.ended, s, a, b);
    }
  }

  lemma NoRepeats()
    ensures forall i, j :: 0 <= i < j < |CORE_SERVICES| ==> CORE_SERVICES[i] != CORE_SERVICES[j]
    ensures LogInit !in CORE_SERVICES
  {
  }
}
