/** Event assertions and the status of a list of assertions. */
module Assertions {
  datatype ResultStatus = Pass | Fail | Skipped | Blocked | Error

  datatype Subject = ExpectedEvent(event: string) | ForbiddenEvent(event: string) | State(name: string)
  datatype Assertion = Assertion(subject: Subject, status: ResultStatus)

  predicate AnyIs(assertions: seq<Assertion>, status: ResultStatus) {
    exists i :: 0 <= i < |assertions| && assertions[i].status == status
  }

  /** The worst of the statuses; anything that is neither an error nor a failure counts as passed. */
  function ScenarioStatus(assertions: seq<Assertion>): (r: ResultStatus)
    ensures r == Error <==> AnyIs(assertions, Error)
    ensures r == Fail <==> !AnyIs(assertions, Error) && AnyIs(assertions, Fail)
    ensures r == Pass <==> !AnyIs(assertions, Error) && !AnyIs(assertions, Fail)
  {
    if exists i :: 0 <= i < |assertions| && assertions[i].status == Error then Error
    else if exists i :: 0 <= i < |assertions| && assertions[i].status == Fail then Fail
    else Pass
  }

  /** Every expected event was seen and no forbidden one was. */
  predicate AsExpected(expected: seq<string>, forbidden: seq<string>, observed: set<string>) {
    (forall e :: e in expected ==> e in observed) && (forall e :: e in forbidden ==> e !in observed)
  }

  ghost predicate EventResults(
    expected: seq<string>, forbidden: seq<string>, observed: set<string>, results: seq<Assertion>)
  {
    && |results| == |expected| + |forbidden|
    && (forall i :: 0 <= i < |expected| ==>
          results[i] == Assertion(ExpectedEvent(expected[i]), if expected[i] in observed then Pass else Fail))
    && (forall i :: |expected| <= i < |results| ==>
          var e := forbidden[i - |expected|];
          results[i] == Assertion(ForbiddenEvent(e), if e in observed then Fail else Pass))
  }

  lemma StatusOfEvents(expected: seq<string>, forbidden: seq<string>, observed: set<string>, results: seq<Assertion>)
    requires EventResults(expected, forbidden, observed, results)
    ensures ScenarioStatus(results) == (if AsExpected(expected, forbidden, observed) then Pass else Fail)
  {
    if AsExpected(expected, forbidden, observed) {
      forall i | 0 <= i < |results| ensures results[i].status == Pass {
        assert i >= |expected| ==> forbidden[i - |expected|] in forbidden;
      }
    } else if exists e :: e in expected && e !in observed {
      var k :| 0 <= k < |expected| && expected[k] !in observed;
      assert results[k].status == Fail;
    } else {
      var k :| 0 <= k < |forbidden| && forbidden[k] in observed;
      assert results[|expected| + k].status == Fail;
    }
  }

  /** Adds one assertion per scenario event; the verdict over them alone is PASS exactly when the events are
      as expected and FAIL otherwise, never ERROR. */
  method EvaluateScenarioEvents(expected: seq<string>, forbidden: seq<string>, observed: set<string>)
    returns (results: seq<Assertion>)
    ensures EventResults(expected, forbidden, observed, results)
    ensures ScenarioStatus(results) == (if AsExpected(expected, forbidden, observed) then Pass else Fail)
  {
    results := [];
    for i := 0 to |expected|
      invariant EventResults(expected[..i], [], observed, results)
    {
      results := results + [Assertion(ExpectedEvent(expected[i]), if expected[i] in observed then Pass else Fail)];
    }
    assert expected[..|expected|] == expected;
    for i := 0 to |forbidden|
      invariant EventResults(expected, forbidden[..i], observed, results)
    {
      results := results + [Assertion(ForbiddenEvent(forbidden[i]), if forbidden[i] in observed then Fail else Pass)];
    }
    assert forbidden[..|forbidden|] == forbidden;
    StatusOfEvents(expected, forbidden, observed, results);
  }

  /** Adding assertions without errors can only turn a PASS into a FAIL. */
  lemma StatusAppend(a: seq<Assertion>, b: seq<Assertion>)
    requires forall i :: 0 <= i < |a| ==> a[i].status == Pass || a[i].status == Fail
    requires ScenarioStatus(b) != Error
    ensures ScenarioStatus(a + b) != Error
    ensures ScenarioStatus(a + b) == Pass <==>
      (forall i :: 0 <= i < |a| ==> a[i].status == Pass) && ScenarioStatus(b) == Pass
  {
    var all := a + b;
    assert forall i :: 0 <= i < |a| ==> all[i] == a[i];
    assert forall i :: 0 <= i < |b| ==> all[|a| + i] == b[i];
    assert forall i :: |a| <= i < |all| ==> all[i] == b[i - |a|];
  }
}
