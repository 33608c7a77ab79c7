/** The check that no scenario file smuggles in a command, at any depth. */
module ScenarioKeys {
  import opened Basics

  datatype Node = Mapping(entries: seq<(string, Node)>) | Sequence(items: seq<Node>) | Scalar

  const UNSAFE_KEYS: set<string> := {"command", "shell", "script", "exec", "subprocess", "args"}

  predicate Unsafe(key: string) {
    key in UNSAFE_KEYS
  }

  /** Every key that could smuggle in a command is refused, and named, whatever is behind it. */
  lemma CommandsRefused(key: string, v: Node)
    ensures
      || key == "command" || key == "shell" || key == "script" || key == "exec" || key == "subprocess" || key == "args"
      <==> RejectUnsafeKeys(Mapping([(key, Scalar)]), []).Some?
    ensures Unsafe(key) ==> RejectUnsafeKeys(Mapping([(key, v)]), []) == Some([Key(key)])
  {
    var m := Mapping([(key, Scalar)]);
    assert Children(m) == 1 && Child(m, 0) == Scalar;
    assert RejectUnsafeKeys(Scalar, [] + [StepTo(m, 0)]) == None && RejectFrom(m, [], 1) == None;
    var n := Mapping([(key, v)]);
    assert BadEntry(n, 0) <==> Unsafe(key);
    assert [] + [StepTo(n, 0)] == [Key(key)];
  }

  datatype Step = Key(name: string) | Index(i: nat)

  function Children(v: Node): nat {
    match v
    case Mapping(entries) => |entries|
    case Sequence(items) => |items|
    case Scalar => 0
  }

  function Child(v: Node, i: nat): (c: Node)
    requires i < Children(v)
    ensures c < v
  {
    if v.Mapping? then v.entries[i].1 else v.items[i]
  }

  function StepTo(v: Node, i: nat): Step
    requires i < Children(v)
  {
    if v.Mapping? then Key(v.entries[i].0) else Index(i)
  }

  predicate BadEntry(v: Node, i: nat)
    requires i < Children(v)
  {
    v.Mapping? && Unsafe(v.entries[i].0)
  }

  /** reject_unsafe_keys: the path named in the error, or None when the value is accepted. Each key is checked
      before the value behind it, each value before the next key. */
  function RejectUnsafeKeys(v: Node, path: seq<Step>): Option<seq<Step>>
    decreases v, Children(v) + 1
  {
    RejectFrom(v, path, 0)
  }

  function RejectFrom(v: Node, path: seq<Step>, i: nat): Option<seq<Step>>
    requires i <= Children(v)
    decreases v, Children(v) - i
  {
    if i == Children(v) then None
    else
      var here := path + [StepTo(v, i)];
      if BadEntry(v, i) then Some(here)
      else
        var inside := RejectUnsafeKeys(Child(v, i), here);
        if inside.Some? then inside else RejectFrom(v, path, i + 1)
  }

  // ---- the tree, addressed from outside ----

  /** a is the address of a key: the child to take at each level, the last one naming a mapping's entry. */
  predicate UnsafeAt(v: Node, a: seq<nat>) {
    if a == [] || a[0] >= Children(v) then false
    else if |a| == 1 then BadEntry(v, a[0])
    else UnsafeAt(Child(v, a[0]), a[1..])
  }

  function PathTo(v: Node, a: seq<nat>): seq<Step> {
    if a == [] || a[0] >= Children(v) then [] else [StepTo(v, a[0])] + PathTo(Child(v, a[0]), a[1..])
  }

  /** Document order: a key comes before everything under it, and before its later siblings. */
  predicate Before(a: seq<nat>, b: seq<nat>) {
    if b == [] then false
    else if a == [] then true
    else a[0] < b[0] || (a[0] == b[0] && Before(a[1..], b[1..]))
  }

  /** a addresses an unsafe key at or after child i of v. */
  predicate UnsafeFrom(v: Node, a: seq<nat>, i: nat) {
    UnsafeAt(v, a) && a[0] >= i
  }

  ghost predicate FirstUnsafe(v: Node, a: seq<nat>, i: nat) {
    UnsafeFrom(v, a, i) && forall b :: UnsafeFrom(v, b, i) ==> b == a || Before(a, b)
  }

  /** An unsafe key at or after child i is child i's own key, or inside child i, or after it. */
  lemma UnsafeCases(v: Node, b: seq<nat>, i: nat)
    requires i < Children(v) && UnsafeFrom(v, b, i)
    ensures b == [b[0]] + b[1..]
    ensures (b == [i] && BadEntry(v, i)) || (b[0] == i && UnsafeFrom(Child(v, i), b[1..], 0)) || UnsafeFrom(v, b, i + 1)
  {
  }

  lemma {:induction false} RejectFromMeans(v: Node, path: seq<Step>, i: nat) returns (a: seq<nat>)
    requires i <= Children(v)
    ensures
      match RejectFrom(v, path, i)
      case None => forall b :: !UnsafeFrom(v, b, i)
      case Some(p) => FirstUnsafe(v, a, i) && p == path + PathTo(v, a)
    decreases v, Children(v) - i
  {
    a := [];
    if i < Children(v) {
      var child, here := Child(v, i), path + [StepTo(v, i)];
      if BadEntry(v, i) {
        a := [i];
        assert PathTo(v, a) == [StepTo(v, i)] + PathTo(child, []);
        forall b | UnsafeFrom(v, b, i) ensures b == a || Before(a, b) { UnsafeCases(v, b, i); }
      } else {
        var inner := RejectFromMeans(child, here, 0);
        if RejectUnsafeKeys(child, here).Some? {
          a := [i] + inner;
          assert a[1..] == inner;
          assert path + ([StepTo(v, i)] + PathTo(child, inner)) == here + PathTo(child, inner);
          forall b | UnsafeFrom(v, b, i) ensures b == a || Before(a, b) { UnsafeCases(v, b, i); }
        } else {
          a := RejectFromMeans(v, path, i + 1);
          forall b | UnsafeFrom(v, b, i) ensures UnsafeFrom(v, b, i + 1) { UnsafeCases(v, b, i); }
        }
      }
    }
  }

  /** No mapping at any depth has an unsafe key. */
  ghost predicate Safe(v: Node) {
    forall a: seq<nat> :: !UnsafeFrom(v, a, 0)
  }

  /** The check is exact: a value is accepted exactly when no mapping at any depth has an unsafe key, and
      otherwise the path reported is that of the first unsafe key in document order. */
  lemma RejectExact(v: Node)
    ensures RejectUnsafeKeys(v, []).None? <==> Safe(v)
    ensures RejectUnsafeKeys(v, []).Some? ==>
      exists a: seq<nat> :: FirstUnsafe(v, a, 0) && RejectUnsafeKeys(v, []).value == PathTo(v, a)
  {
    var a := RejectFromMeans(v, [], 0);
    if RejectUnsafeKeys(v, []).Some? {
      assert [] + PathTo(v, a) == PathTo(v, a);
      assert FirstUnsafe(v, a, 0);
    }
  }
}
