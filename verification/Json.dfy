/**
 JSON values as the Run journal sees them, and the nesting bound that guards every
 manifest and event body before serde is allowed to recurse over it.
 Objects are maps, so Dafny's equality is the order-insensitive equality of
 `serde_json::Value`.
 */
module Json {

  const MAX_INPUT_DEPTH: nat := 120

  datatype Value =
    | Null
    | Bool(b: bool)
    | Number(literal: string)
    | Text(s: string)
    | Array(items: seq<Value>)
    | Object(members: map<string, Value>)
  {
    predicate Container() { Array? || Object? }
  }

  /** The recursive bound check: at most `remaining` containers around any leaf. */
  predicate Fits(value: Value, remaining: nat)
    decreases value
  {
    match value
    case Array(items) =>
      remaining > 0 && forall i | 0 <= i < |items| :: Fits(items[i], remaining - 1)
    case Object(members) =>
      remaining > 0 && forall k | k in members :: Fits(members[k], remaining - 1)
    case _ => true
  }

  // ----- an independent reading of the bound: paths into the tree

  datatype Hop = Index(i: nat) | Key(k: string)

  /** The subtree reached by following a path, if the path exists. */
  ghost predicate Reaches(value: Value, path: seq<Hop>, target: Value)
    decreases |path|
  {
    if path == [] then value == target else
    match (value, path[0])
    case (Array(items), Index(i)) => i < |items| && Reaches(items[i], path[1..], target)
    case (Object(members), Key(k)) => k in members && Reaches(members[k], path[1..], target)
    case _ => false
  }

  /** No container lies `depth` or more hops below the root. */
  ghost predicate NestsWithin(value: Value, depth: nat) {
    forall path, target | Reaches(value, path, target) && target.Container() :: |path| < depth
  }

  lemma {:induction false} FitsBoundsEveryPath(value: Value, remaining: nat, path: seq<Hop>, target: Value)
    requires Fits(value, remaining) && Reaches(value, path, target) && target.Container()
    ensures |path| < remaining
    decreases |path|
  {
    if path != [] {
      match (value, path[0]) {
        case (Array(items), Index(i)) => FitsBoundsEveryPath(items[i], remaining - 1, path[1..], target);
        case (Object(members), Key(k)) => FitsBoundsEveryPath(members[k], remaining - 1, path[1..], target);
      }
    }
  }

  lemma ChildNests(value: Value, hop: Hop, child: Value, depth: nat)
    requires NestsWithin(value, depth) && depth > 0
    requires match (value, hop)
             case (Array(items), Index(i)) => i < |items| && child == items[i]
             case (Object(members), Key(k)) => k in members && child == members[k]
             case _ => false
    ensures NestsWithin(child, depth - 1)
  {
    forall path, target | Reaches(child, path, target) && target.Container()
      ensures |path| < depth - 1
    {
      assert ([hop] + path)[1..] == path;
      assert Reaches(value, [hop] + path, target);
    }
  }

  lemma {:induction false} NestingIsEnough(value: Value, depth: nat)
    requires NestsWithin(value, depth)
    ensures Fits(value, depth)
    decreases value
  {
    if value.Container() {
      assert Reaches(value, [], value);
    }
    match value
    case Array(items) =>
      forall i | 0 <= i < |items| ensures Fits(items[i], depth - 1) {
        ChildNests(value, Index(i), items[i], depth);
        NestingIsEnough(items[i], depth - 1);
      }
    case Object(members) =>
      forall k | k in members ensures Fits(members[k], depth - 1) {
        ChildNests(value, Key(k), members[k], depth);
        NestingIsEnough(members[k], depth - 1);
      }
    case _ =>
  }

  /** The recursive check accepts exactly the values whose every container is shallow. */
  lemma FitsIffShallow(value: Value, depth: nat)
    ensures Fits(value, depth) <==> NestsWithin(value, depth)
  {
    if Fits(value, depth) {
      forall path, target | Reaches(value, path, target) && target.Container()
        ensures |path| < depth
      {
        FitsBoundsEveryPath(value, depth, path, target);
      }
    }
    if NestsWithin(value, depth) {
      NestingIsEnough(value, depth);
    }
  }

  // ----- iterative disposal of an over-deep value

  /** Number of nodes of a tree: the disposal loop's measure. */
  ghost function Nodes(value: Value): nat
    decreases value
  {
    match value
    case Array(items) => 1 + NodesOfSeq(items)
    case Object(members) => 1 + NodesUnder(value, members.Keys)
    case _ => 1
  }

  ghost function NodesOfSeq(values: seq<Value>): nat
    decreases values
  {
    if values == [] then 0 else Nodes(values[0]) + NodesOfSeq(values[1..])
  }

  /** Nodes below the given keys of an object. */
  ghost function NodesUnder(value: Value, keys: set<string>): nat
    requires value.Object? && keys <= value.members.Keys
    decreases value, keys
  {
    if keys == {} then 0 else
    var k :| k in keys;
    Nodes(value.members[k]) + NodesUnder(value, keys - {k})
  }

  lemma {:induction false} NodesUnderSplit(value: Value, keys: set<string>, k: string)
    requires value.Object? && keys <= value.members.Keys && k in keys
    ensures NodesUnder(value, keys) == Nodes(value.members[k]) + NodesUnder(value, keys - {k})
    decreases keys
  {
    var j :| j in keys && NodesUnder(value, keys) == Nodes(value.members[j]) + NodesUnder(value, keys - {j});
    if j != k {
      NodesUnderSplit(value, keys - {j}, k);
      NodesUnderSplit(value, keys - {k}, j);
      assert keys - {j} - {k} == keys - {k} - {j};
    }
  }

  lemma {:induction false} NodesOfConcat(a: seq<Value>, b: seq<Value>)
    ensures NodesOfSeq(a + b) == NodesOfSeq(a) + NodesOfSeq(b)
  {
    if a == [] {
      assert a + b == b;
    } else {
      NodesOfConcat(a[1..], b);
      assert (a + b)[1..] == a[1..] + b;
    }
  }

  /**
   Input gate for manifests and bodies. An over-deep value is taken apart with an
   explicit worklist instead of a recursive drop; the loop empties the worklist for
   every value, however deep, because each round removes one node for good.
   */
  method BoundedInput(value: Value) returns (accepted: bool)
    ensures accepted <==> NestsWithin(value, MAX_INPUT_DEPTH)
  {
    FitsIffShallow(value, MAX_INPUT_DEPTH);
    if Fits(value, MAX_INPUT_DEPTH) {
      return true;
    }
    var pending := [value];
    while pending != []
      decreases NodesOfSeq(pending)
    {
      var last := |pending| - 1;
      var top := pending[last];
      assert pending == pending[..last] + [top];
      NodesOfConcat(pending[..last], [top]);
      pending := pending[..last];
      match top {
        case Array(items) =>
          NodesOfConcat(pending, items);
          pending := pending + items;
        case Object(members) =>
          pending := PushMembers(pending, top);
        case _ =>
      }
    }
    return false;
  }

  /** Extends the worklist with every member value of an obj. */
  method PushMembers(pending: seq<Value>, obj: Value) returns (extended: seq<Value>)
    requires obj.Object?
    ensures NodesOfSeq(extended) == NodesOfSeq(pending) + Nodes(obj) - 1
  {
    extended := pending;
    var keys := obj.members.Keys;
    while keys != {}
      invariant keys <= obj.members.Keys
      invariant NodesOfSeq(extended) + NodesUnder(obj, keys) == NodesOfSeq(pending) + Nodes(obj) - 1
      decreases keys
    {
      var k :| k in keys;
      NodesUnderSplit(obj, keys, k);
      NodesOfConcat(extended, [obj.members[k]]);
      extended := extended + [obj.members[k]];
      keys := keys - {k};
    }
  }
}
