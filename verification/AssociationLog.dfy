/** The readiness log check: a comparison of last occurrences that stands for replaying the whole log. */
module AssociationLog {

  predicate OccursAt(s: string, p: string, i: int) {
    0 <= i && i + |p| <= |s| && s[i..i + |p|] == p
  }

  predicate Contains(s: string, p: string) {
    exists i :: 0 <= i <= |s| && OccursAt(s, p, i)
  }

  function RfindUpTo(s: string, p: string, n: nat): int {
    if n == 0 then -1 else if OccursAt(s, p, n - 1) then n - 1 else RfindUpTo(s, p, n - 1)
  }

  /** str.rfind */
  function Rfind(s: string, p: string): int {
    RfindUpTo(s, p, |s| + 1)
  }

  lemma {:induction false} RfindUpToMeans(s: string, p: string, n: nat)
    ensures var r := RfindUpTo(s, p, n); r == -1 || (0 <= r < n && OccursAt(s, p, r))
    ensures forall i :: RfindUpTo(s, p, n) < i < n ==> !OccursAt(s, p, i)
  {
    if n > 0 && !OccursAt(s, p, n - 1) { RfindUpToMeans(s, p, n - 1); }
  }

  /** The last position at which p occurs, or -1. */
  lemma RfindMeans(s: string, p: string)
    ensures Rfind(s, p) >= -1 && (Rfind(s, p) == -1 <==> !Contains(s, p))
    ensures Rfind(s, p) != -1 ==> OccursAt(s, p, Rfind(s, p))
    ensures forall i :: i > Rfind(s, p) ==> !OccursAt(s, p, i)
  {
    RfindUpToMeans(s, p, |s| + 1);
  }

  function LastOf(s: string, ps: seq<string>): int
    requires ps != []
  {
    var first := Rfind(s, ps[0]);
    if |ps| == 1 then first
    else
      var rest := LastOf(s, ps[1..]);
      if first > rest then first else rest
  }

  /** The latest of the last occurrences of all these. */
  lemma {:induction false} LastOfMeans(s: string, ps: seq<string>)
    requires ps != []
    ensures forall p :: p in ps ==> Rfind(s, p) <= LastOf(s, ps)
    ensures exists p :: p in ps && Rfind(s, p) == LastOf(s, ps)
  {
    assert ps == [ps[0]] + ps[1..];
    if |ps| > 1 {
      LastOfMeans(s, ps[1..]);
      var p :| p in ps[1..] && Rfind(s, p) == LastOf(s, ps[1..]);
      assert p in ps && ps[0] in ps;
    } else {
      assert ps[0] in ps;
    }
  }

  /** latest_association_succeeded */
  predicate LatestAssociationSucceeded(output: string, success: string, failures: seq<string>)
    requires failures != []
  {
    Rfind(output, success) > LastOf(output, failures)
  }

  predicate AnyAt(s: string, ps: seq<string>, i: int) {
    exists p :: p in ps && OccursAt(s, p, i)
  }

  /** The association state after the messages starting before position n have been replayed in order. */
  function Replay(output: string, success: string, failures: seq<string>, n: nat): bool {
    if n == 0 then false
    else if AnyAt(output, failures, n - 1) then false
    else if OccursAt(output, success, n - 1) then true
    else Replay(output, success, failures, n - 1)
  }

  /** A success at position i with no failure from there up to position n. */
  ghost predicate HoldsFrom(output: string, success: string, failures: seq<string>, i: int, n: nat) {
    0 <= i < n && OccursAt(output, success, i) && forall j :: i <= j < n ==> !AnyAt(output, failures, j)
  }

  lemma {:induction false} ReplayMeans(output: string, success: string, failures: seq<string>, n: nat)
    ensures Replay(output, success, failures, n) <==> exists i :: HoldsFrom(output, success, failures, i, n)
  {
    if n > 0 {
      ReplayMeans(output, success, failures, n - 1);
      if i :| HoldsFrom(output, success, failures, i, n) {
        assert i < n - 1 ==> HoldsFrom(output, success, failures, i, n - 1);
      }
      if !AnyAt(output, failures, n - 1) && Replay(output, success, failures, n) {
        if OccursAt(output, success, n - 1) {
          assert HoldsFrom(output, success, failures, n - 1, n);
        } else {
          var i :| HoldsFrom(output, success, failures, i, n - 1);
          assert HoldsFrom(output, success, failures, i, n);
        }
      }
    }
  }

  /** The fast check equals the replay, for every log and every choice of messages. */
  lemma LatestRefinesReplay(output: string, success: string, failures: seq<string>)
    requires failures != []
    ensures LatestAssociationSucceeded(output, success, failures) <==> Replay(output, success, failures, |output| + 1)
  {
    var n := |output| + 1;
    ReplayMeans(output, success, failures, n);
    var s, f := Rfind(output, success), LastOf(output, failures);
    RfindMeans(output, success);
    LastOfMeans(output, failures);
    forall p | p in failures ensures forall i :: i > f ==> !OccursAt(output, p, i) { RfindMeans(output, p); }
    if s > f {
      var p :| p in failures && Rfind(output, p) == f;
      RfindMeans(output, p);
      assert HoldsFrom(output, success, failures, s, n);
    }
    if i :| HoldsFrom(output, success, failures, i, n) {
      var p :| p in failures && Rfind(output, p) == f;
      RfindMeans(output, p);
      if f >= i { assert AnyAt(output, failures, f); }
    }
  }

  /** A success at position i, and from there on none of the failures a, b, c. */
  ghost predicate LastingSince(log: string, success: string, a: string, b: string, c: string, i: int) {
    && OccursAt(log, success, i)
    && forall j :: j >= i ==> !OccursAt(log, a, j) && !OccursAt(log, b, j) && !OccursAt(log, c, j)
  }

  /** The check against a list of failures that holds just a, b and c. */
  lemma LatestExact(log: string, success: string, failures: seq<string>, a: string, b: string, c: string)
    requires failures != [] && forall f :: f in failures <==> f == a || f == b || f == c
    ensures LatestAssociationSucceeded(log, success, failures) <==>
      exists i :: LastingSince(log, success, a, b, c, i)
  {
    var n := |log| + 1;
    LatestRefinesReplay(log, success, failures);
    ReplayMeans(log, success, failures, n);
    forall j ensures AnyAt(log, failures, j) <==> OccursAt(log, a, j) || OccursAt(log, b, j) || OccursAt(log, c, j) {
      assert a in failures && b in failures && c in failures;
    }
    if i :| HoldsFrom(log, success, failures, i, n) {
      assert LastingSince(log, success, a, b, c, i);
    }
    if i :| LastingSince(log, success, a, b, c, i) {
      assert HoldsFrom(log, success, failures, i, n);
    }
  }

  lemma Shifted(out: string, suffix: string, p: string, i: int)
    requires i >= 0
    ensures OccursAt(out + suffix, p, |out| + i) <==> OccursAt(suffix, p, i)
  {
    if i + |p| <= |suffix| {
      assert (out + suffix)[|out| + i..|out| + i + |p|] == suffix[i..i + |p|];
    }
  }

  lemma RfindShifts(out: string, suffix: string, p: string)
    ensures Contains(suffix, p) ==> Rfind(out + suffix, p) == |out| + Rfind(suffix, p)
    ensures !Contains(suffix, p) ==> Rfind(out + suffix, p) < |out|
  {
    var r := Rfind(out + suffix, p);
    RfindMeans(out + suffix, p);
    RfindMeans(suffix, p);
    if Contains(suffix, p) {
      Shifted(out, suffix, p, Rfind(suffix, p));
    }
    if r >= |out| {
      Shifted(out, suffix, p, r - |out|);
    }
  }

  lemma {:induction false} LastShifts(out: string, suffix: string, ps: seq<string>)
    requires ps != []
    ensures
      if exists p :: p in ps && Contains(suffix, p) then
        LastOf(out + suffix, ps) == |out| + LastOf(suffix, ps) && LastOf(suffix, ps) >= 0
      else LastOf(out + suffix, ps) < |out| && LastOf(suffix, ps) == -1
  {
    RfindShifts(out, suffix, ps[0]);
    RfindMeans(suffix, ps[0]);
    assert ps == [ps[0]] + ps[1..];
    if |ps| > 1 { LastShifts(out, suffix, ps[1..]); }
  }

  /** Older output never matters once newer output mentions the association: the suffix alone decides. */
  lemma SuffixDecides(out: string, suffix: string, success: string, failures: seq<string>)
    requires failures != []
    requires Contains(suffix, success) || exists f :: f in failures && Contains(suffix, f)
    ensures LatestAssociationSucceeded(out + suffix, success, failures) ==
      LatestAssociationSucceeded(suffix, success, failures)
  {
    RfindShifts(out, suffix, success);
    RfindMeans(suffix, success);
    LastShifts(out, suffix, failures);
  }

  /** A later loss invalidates any earlier success, and a later success heals any earlier loss, as long as the other
      kind of message does not follow. */
  lemma LaterMessageWins(out: string, tail: string, success: string, failures: seq<string>, failure: string)
    requires failure in failures
    ensures !Contains(failure + tail, success) ==>
      !LatestAssociationSucceeded(out + (failure + tail), success, failures)
    ensures (forall f :: f in failures ==> !Contains(success + tail, f)) ==>
      LatestAssociationSucceeded(out + (success + tail), success, failures)
  {
    assert OccursAt(failure + tail, failure, 0) && OccursAt(success + tail, success, 0);
    SuffixDecides(out, failure + tail, success, failures);
    SuffixDecides(out, success + tail, success, failures);
    RfindMeans(failure + tail, success);
    RfindMeans(failure + tail, failure);
    RfindMeans(success + tail, success);
    LastOfMeans(failure + tail, failures);
    LastOfMeans(success + tail, failures);
    var p :| p in failures && Rfind(success + tail, p) == LastOf(success + tail, failures);
    RfindMeans(success + tail, p);
  }

  /** p does not occur in s when every place it could begin at shows the wrong character. */
  lemma NotContained(s: string, p: string, wrong: seq<nat>)
    requires |s| < |p| + |wrong|
    requires forall i :: 0 <= i < |wrong| && i + |p| <= |s| ==> wrong[i] < |p| && s[i + wrong[i]] != p[wrong[i]]
    ensures !Contains(s, p)
  {
    forall i | 0 <= i <= |s| ensures !OccursAt(s, p, i) {
      if i + |p| <= |s| {
        assert s[i..i + |p|][wrong[i]] == s[i + wrong[i]];
      }
    }
  }
}
