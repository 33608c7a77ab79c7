/** The bounded wait for NG setup: two short commands per attempt, inside an integer timeout. */
module NgSetup {

  /** What one attempt finds: whether the node dump works, whether the status command works, and what it says. */
  datatype Status = Status(dumpOk: bool, statusOk: bool, ngapUp: bool)

  predicate Ready(s: Status) {
    s.dumpOk && s.statusOk && s.ngapUp
  }

  /** min(3, max(1, int(remaining / 2))) for a positive remaining time: the longest of one, two or three seconds that
      two commands fit into, and one second when not even that does. */
  function CommandTimeout(remaining: real): (t: int)
    requires remaining > 0.0
    ensures 1 <= t <= 3
    ensures remaining >= 2.0 ==> 2.0 * t as real <= remaining
    ensures remaining < 2.0 ==> t == 1
    ensures t == 3 || remaining < 2.0 * (t + 1) as real
  {
    var half := (remaining / 2.0).Floor;
    var atLeast := if half < 1 then 1 else half;
    if atLeast < 3 then atLeast else 3
  }

  /** k rounds, one after the other. */
  function Rounds(k: nat, round: real): real {
    if k == 0 then 0.0 else Rounds(k - 1, round) + round
  }

  lemma {:induction false} RoundsGrow(a: nat, b: nat, round: real)
    requires a <= b && round >= 0.0
    ensures Rounds(a, round) <= Rounds(b, round)
  {
    if a < b { RoundsGrow(a, b - 1, round); }
  }

  class Gnb {
    const wanted: nat -> real     // how long the n-th command would run
    const statuses: nat -> Status // what the k-th attempt would find
    const lags: nat -> real       // how late the k-th sleep wakes up
    const maxLag: real
    var now: real
    var asked: nat

    ghost predicate Valid() {
      forall k :: 0.0 <= lags(k) <= maxLag
    }

    /** Every command answers within a second. */
    ghost predicate Prompt() {
      forall n :: wanted(n) <= 1.0
    }

    function Took(n: nat): real {
      if wanted(n) < 0.0 then 0.0 else wanted(n)
    }

    /** run_command: killed at its timeout. */
    method RunCommand(limit: int) returns (inTime: bool)
      requires limit > 0
      modifies this
      ensures old(now) <= now <= old(now) + limit as real && asked == old(asked) + 1
      ensures inTime <==> wanted(old(asked)) <= limit as real
      ensures inTime ==> now == old(now) + Took(old(asked))
      ensures Prompt() ==> now <= old(now) + 1.0
    {
      var took := Took(asked);
      inTime := took <= limit as real;
      now := now + if inTime then took else limit as real;
      asked := asked + 1;
    }

    /** run_ueransim_cli: the status command runs only after a successful node dump. */
    method Attempt(k: nat, limit: int) returns (up: bool)
      requires limit > 0
      modifies this
      ensures old(now) <= now <= old(now) + 2.0 * limit as real
      ensures Prompt() ==> now <= old(now) + 2.0
      ensures asked == old(asked) + if wanted(old(asked)) <= limit as real && statuses(k).dumpOk then 2 else 1
      ensures up <==>
        Ready(statuses(k)) && wanted(old(asked)) <= limit as real && wanted(old(asked) + 1) <= limit as real
      ensures up ==> asked == old(asked) + 2 && now == old(now) + Took(old(asked)) + Took(old(asked) + 1)
    {
      var inTime := RunCommand(limit);
      if !inTime || !statuses(k).dumpOk { return false; }
      inTime := RunCommand(limit);
      up := inTime && statuses(k).statusOk && statuses(k).ngapUp;
    }

    /** The last two commands asked are those of an attempt that began at time began, before the deadline, and both
        answered within their timeout; nothing else has happened since. */
    ghost predicate EndedWith(began: real, deadline: real)
      reads this
    {
      && began < deadline && asked >= 2
      && wanted(asked - 2) <= CommandTimeout(deadline - began) as real
      && wanted(asked - 1) <= CommandTimeout(deadline - began) as real
      && now == began + Took(asked - 2) + Took(asked - 1)
    }

    /** At most timeout attempts of one or two commands each, over before timeout + 2 s; a pass is the word of the last
        attempt, and giving up means the whole time was used. An attempt never overruns the deadline unless it began
        with less than two seconds left. */
    method WaitForNgSetup(timeout: nat) returns (passed: bool, attempts: nat, ghost began: real)
      requires Valid()
      modifies this
      ensures attempts <= timeout && attempts <= asked - old(asked) <= 2 * attempts
      ensures old(now) <= now < old(now) + timeout as real + 2.0 + maxLag
      ensures passed ==>
        && attempts > 0 && Ready(statuses(attempts - 1))
        && old(now) <= began && old(asked) + 2 <= asked && EndedWith(began, old(now) + timeout as real)
      ensures passed && began <= old(now) + timeout as real - 2.0 ==> now <= old(now) + timeout as real
      ensures !passed ==> now >= old(now) + timeout as real
      // it goes on asking: no round takes longer than seven seconds, or three with prompt commands, and the lag
      ensures now <= old(now) + Rounds(attempts, 7.0 + maxLag)
      ensures Prompt() ==> now <= old(now) + Rounds(attempts, 3.0 + maxLag)
      // with prompt commands no attempt is wasted: if a k-th attempt that fits into the time finds the gNB ready, the
      // wait passes with it at the latest
      ensures Prompt() ==>
        forall k: nat :: Ready(statuses(k)) && Rounds(k, 3.0 + maxLag) < timeout as real ==> passed && attempts <= k + 1
    {
      var started := now;
      var deadline := started + timeout as real;
      passed, attempts, began := false, 0, started;
      assert 0.0 <= lags(0) <= maxLag;
      while deadline - now > 0.0
        invariant !passed && started <= now < deadline + 2.0 + maxLag
        invariant now < deadline ==> now >= started + attempts as real
        invariant attempts <= timeout && attempts <= asked - old(asked) <= 2 * attempts
        invariant now <= started + Rounds(attempts, 7.0 + maxLag)
        invariant Prompt() ==> now <= started + Rounds(attempts, 3.0 + maxLag)
        invariant Prompt() ==> forall k :: 0 <= k < attempts ==> !Ready(statuses(k))
        decreases timeout - attempts
      {
        began := now;
        var limit := CommandTimeout(deadline - now);
        passed := Attempt(attempts, limit);
        attempts := attempts + 1;
        if passed { return; }
        var left := if deadline - now < 0.0 then 0.0 else deadline - now;
        now := now + (if left < 1.0 then left else 1.0) + lags(attempts);
      }
      forall k: nat | Prompt() && Ready(statuses(k)) && Rounds(k, 3.0 + maxLag) < timeout as real ensures false {
        if k >= attempts { RoundsGrow(attempts, k, 3.0 + maxLag); }
      }
    }
  }
}
