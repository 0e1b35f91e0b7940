/** Destroying a nested document with an explicit stack instead of recursion. */
module Destruction {
  import opened Outcomes
  import opened JsonValue
  import opened JsonPointer
  import opened PointerResolution

  /** The items inside a container, in the order in which they are moved to the stack. */
  function Children(v: Json): seq<Json> {
    match v
    case Arr(a) => a
    case Obj(m) => var keys := Keys(m); seq(|keys|, i requires 0 <= i < |keys| => m[keys[i]])
    case _ => []
  }

  lemma ChildSmaller(v: Json, i: nat)
    requires i < |Children(v)|
    ensures v decreases to Children(v)[i]
  {
    if v.Obj? {
      assert Keys(v.members)[i] in v.members;
    }
  }

  /** A document and everything below it, a node before its children and later children first. */
  function Nodes(v: Json): seq<Json>
    decreases v, 1, 0
  {
    [v] + Below(v, |Children(v)|)
  }

  /** The nodes of the first `n` children. */
  function Below(v: Json, n: nat): seq<Json>
    requires n <= |Children(v)|
    decreases v, 0, n
  {
    if n == 0 then
      []
    else
      ChildSmaller(v, n - 1);
      Nodes(Children(v)[n - 1]) + Below(v, n - 1)
  }

  /** The nodes of a whole stack, its top first. */
  function OnStack(stack: seq<Json>): seq<Json> {
    if stack == [] then [] else Nodes(stack[|stack| - 1]) + OnStack(stack[..|stack| - 1])
  }

  lemma {:induction false} BelowIsStack(v: Json, n: nat)
    requires n <= |Children(v)|
    ensures Below(v, n) == OnStack(Children(v)[..n])
    decreases n
  {
    if n > 0 {
      BelowIsStack(v, n - 1);
      StackPrefix(Children(v), n - 1);
    }
  }

  lemma StackPrefix(items: seq<Json>, n: nat)
    requires n < |items|
    ensures OnStack(items[..n + 1]) == Nodes(items[n]) + OnStack(items[..n])
  {
    assert items[..n + 1][..n] == items[..n];
  }

  lemma Associate(a: seq<Json>, b: seq<Json>, c: seq<Json>)
    ensures a + (b + c) == a + b + c
  {
  }

  lemma PushOne(stack: seq<Json>, top: Json)
    ensures OnStack(stack + [top]) == Nodes(top) + OnStack(stack)
  {
    assert (stack + [top])[..|stack|] == stack;
  }

  lemma {:induction false} PushAll(stack: seq<Json>, items: seq<Json>)
    ensures OnStack(stack + items) == OnStack(items) + OnStack(stack)
    decreases |items|
  {
    if items == [] {
      assert stack + items == stack;
    } else {
      var top, rest := items[|items| - 1], items[..|items| - 1];
      assert items == rest + [top];
      assert stack + items == (stack + rest) + [top];
      PushAll(stack, rest);
      PushOne(stack + rest, top);
      PushOne(rest, top);
      Associate(Nodes(top), OnStack(rest), OnStack(stack));
    }
  }

  /** Taking the top off the stack and pushing its children removes exactly that node. */
  lemma StackStep(stack: seq<Json>)
    requires stack != []
    ensures var top, rest := stack[|stack| - 1], stack[..|stack| - 1];
            OnStack(stack) == [top] + OnStack(rest + Children(top))
  {
    var top, rest := stack[|stack| - 1], stack[..|stack| - 1];
    var children := Children(top);
    BelowIsStack(top, |children|);
    assert children[..|children|] == children;
    PushAll(rest, children);
    Regroup(top, OnStack(children), OnStack(rest), Nodes(top));
  }

  lemma Regroup(top: Json, a: seq<Json>, b: seq<Json>, nodes: seq<Json>)
    requires nodes == [top] + a
    ensures nodes + b == [top] + (a + b)
  {
  }

  /** A container after its items have been moved away. */
  function Hollow(v: Json): Json {
    match v
    case Arr(_) => Arr([])
    case Obj(_) => Obj(map[])
    case _ => v
  }

  lemma HollowIsEmpty(v: Json)
    ensures Children(Hollow(v)) == []
  {
    var none: map<string, Json> := map[];
    assert none.Keys == {};
    assert Keys(none) == [];
  }

  /** `json_value::destroy`. `taken` lists what is taken off the stack and `dropped` what is then destructed:
      every node below `v` exactly once, and each of them without children left. */
  method Destroy(v: Json) returns (taken: seq<Json>, dropped: seq<Json>)
    ensures [v] + taken == Nodes(v)
    ensures |dropped| == |taken|
    ensures forall i :: 0 <= i < |dropped| ==> dropped[i] == Hollow(taken[i]) && Children(dropped[i]) == []
  {
    taken, dropped := [], [];
    var stack := Children(v);
    BelowIsStack(v, |stack|);
    assert stack[..|stack|] == stack;
    ghost var all := OnStack(stack);
    while stack != []
      invariant taken + OnStack(stack) == all
      invariant |dropped| == |taken|
      invariant forall i :: 0 <= i < |dropped| ==> dropped[i] == Hollow(taken[i]) && Children(dropped[i]) == []
      decreases |OnStack(stack)|
    {
      StackStep(stack);
      var current := stack[|stack| - 1];
      stack := stack[..|stack| - 1] + Children(current);
      assert taken + ([current] + OnStack(stack)) == taken + [current] + OnStack(stack);
      taken := taken + [current];
      HollowIsEmpty(current);
      dropped := dropped + [Hollow(current)];
    }
  }

  // ----- The listing is complete --------------------------------------------------------------

  /** The nodes of one item are a slice of those of the stack. */
  lemma StackSlice(below: seq<Json>, item: Json, above: seq<Json>)
    ensures OnStack(below + [item] + above) == OnStack(above) + (Nodes(item) + OnStack(below))
  {
    PushAll(below + [item], above);
    PushOne(below, item);
  }

  lemma InSlice(w: Json, a: seq<Json>, b: seq<Json>, c: seq<Json>)
    requires w in b
    ensures w in a + (b + c)
  {
  }

  lemma Parts(s: seq<Json>, i: nat)
    requires i < |s|
    ensures s == s[..i] + [s[i]] + s[i + 1..]
  {
  }

  lemma InParts(below: seq<Json>, item: Json, above: seq<Json>, w: Json)
    requires w in Nodes(item)
    ensures w in OnStack(below + [item] + above)
  {
    StackSlice(below, item, above);
    InSlice(w, OnStack(above), Nodes(item), OnStack(below));
  }

  lemma InStack(stack: seq<Json>, i: nat, w: Json)
    requires i < |stack| && w in Nodes(stack[i])
    ensures w in OnStack(stack)
  {
    Parts(stack, i);
    InParts(stack[..i], stack[i], stack[i + 1..], w);
  }

  lemma ChildNodes(v: Json, i: nat, w: Json)
    requires i < |Children(v)| && w in Nodes(Children(v)[i])
    ensures w in Nodes(v)
  {
    var children := Children(v);
    InStack(children, i, w);
    BelowIsStack(v, |children|);
    assert children[..|children|] == children;
    InSlice(w, [v], OnStack(children), []);
    assert OnStack(children) + [] == OnStack(children);
  }

  lemma ChildIndex(v: Json, t: string) returns (i: nat)
    requires Child(v, t).Ok?
    ensures i < |Children(v)| && Children(v)[i] == Child(v, t).value
  {
    if v.Obj? {
      i :| 0 <= i < |Keys(v.members)| && Keys(v.members)[i] == t;
    } else {
      i := ArrayIndex(t).value;
    }
  }

  /** Whatever a JSON Pointer can reach is among the nodes that are taken. */
  lemma {:induction false} ReachableIsTaken(v: Json, ts: seq<string>)
    requires At(v, ts).Ok?
    ensures At(v, ts).value in Nodes(v)
    decreases |ts|
  {
    if ts != [] {
      var i := ChildIndex(v, ts[0]);
      ReachableIsTaken(Children(v)[i], ts[1..]);
      ChildNodes(v, i, At(v, ts).value);
    }
  }
}
