/** `flatten`: one object member per leaf of a document, named by the leaf's JSON Pointer. */
module Flattening {
  import opened Outcomes
  import opened JsonValue
  import opened Escaping
  import opened JsonPointer
  import opened PointerResolution

  // ----- Leaves -------------------------------------------------------------------------------

  /** A primitive value or an empty container. */
  predicate IsLeaf(j: Json) {
    IsPrimitive(j) || j == Arr([]) || j == Obj(map[])
  }

  /** What `flatten` stores for a leaf: empty containers become null. */
  function Stored(leaf: Json): Json {
    if IsPrimitive(leaf) then leaf else Null
  }

  predicate LeafAt(v: Json, ts: seq<string>) {
    At(v, ts).Ok? && IsLeaf(At(v, ts).value)
  }

  function ValueAt(v: Json, ts: seq<string>): Json
    requires LeafAt(v, ts)
  {
    Stored(At(v, ts).value)
  }

  /** The pointers of all leaves. */
  function LeafSet(v: Json): set<seq<string>> {
    if IsLeaf(v) then
      {[]}
    else if v.Arr? then
      set i, ts | 0 <= i < |v.elems| && ts in LeafSet(v.elems[i]) :: [Digits(i)] + ts
    else
      set k, ts | k in v.members && ts in LeafSet(v.members[k]) :: [k] + ts
  }

  lemma LeafBelow(v: Json, t: string, ts: seq<string>)
    ensures LeafAt(v, [t] + ts) <==> Child(v, t).Ok? && LeafAt(Child(v, t).value, ts)
    ensures LeafAt(v, [t] + ts) ==> ValueAt(v, [t] + ts) == ValueAt(Child(v, t).value, ts)
  {
    assert ([t] + ts)[1..] == ts;
  }

  lemma LeafHere(v: Json)
    ensures LeafAt(v, []) <==> IsLeaf(v)
  {
  }

  lemma {:induction false} LeafOnlyHere(v: Json, ts: seq<string>)
    requires IsLeaf(v) && LeafAt(v, ts)
    ensures ts == []
  {
  }

  lemma ElemChild(a: seq<Json>, i: nat)
    requires i < |a| <= SIZE_MAX
    ensures Child(Arr(a), Digits(i)) == Ok(a[i])
  {
    IndexOfDigits(i);
    EncodeDigits(i);
  }

  /** A token that resolves in an array is the printed form of an index. */
  lemma ElemToken(a: seq<Json>, t: string) returns (i: nat)
    requires Child(Arr(a), t).Ok?
    ensures i < |a| && t == Digits(i) && Child(Arr(a), t).value == a[i]
  {
    i := ArrayIndex(t).value;
    DigitsOfIndex(t);
  }

  lemma {:induction false} LeafSetIff(v: Json, ts: seq<string>)
    requires Representable(v)
    ensures ts in LeafSet(v) <==> LeafAt(v, ts)
    decreases v
  {
    if IsLeaf(v) {
      LeafHere(v);
      if LeafAt(v, ts) {
        LeafOnlyHere(v, ts);
      }
    } else if ts == [] {
    } else {
      var t, rest := ts[0], ts[1..];
      assert ts == [t] + rest;
      LeafBelow(v, t, rest);
      if v.Arr? {
        ArrayLeafSetIff(v, t, rest);
      } else if t in v.members {
        LeafSetIff(v.members[t], rest);
        ObjectLeafSet(v, t, rest);
      } else {
        ObjectLeafSet(v, t, rest);
      }
    }
  }

  lemma ObjectLeafSet(v: Json, t: string, rest: seq<string>)
    requires v.Obj? && !IsLeaf(v)
    ensures [t] + rest in LeafSet(v) <==> t in v.members && rest in LeafSet(v.members[t])
  {
    if [t] + rest in LeafSet(v) {
      var k, us :| k in v.members && us in LeafSet(v.members[k]) && [t] + rest == [k] + us;
      assert ([t] + rest)[0] == ([k] + us)[0] && ([t] + rest)[1..] == ([k] + us)[1..];
      assert k == t && us == rest;
    }
  }

  lemma {:induction false} ArrayLeafSetIff(v: Json, t: string, rest: seq<string>)
    requires Representable(v) && v.Arr? && !IsLeaf(v)
    ensures [t] + rest in LeafSet(v) <==> Child(v, t).Ok? && LeafAt(Child(v, t).value, rest)
    decreases v, 0
  {
    var a := v.elems;
    if [t] + rest in LeafSet(v) {
      var i, us :| 0 <= i < |a| && us in LeafSet(a[i]) && [t] + rest == [Digits(i)] + us;
      assert ([t] + rest)[0] == ([Digits(i)] + us)[0] && ([t] + rest)[1..] == ([Digits(i)] + us)[1..];
      ElemChild(a, i);
      LeafSetIff(a[i], rest);
    } else if Child(v, t).Ok? {
      var i := ElemToken(a, t);
      LeafSetIff(a[i], rest);
      assert [Digits(i)] + rest !in LeafSet(v);
    }
  }

  /** Every document has a leaf. */
  lemma {:induction false} SomeLeaf(v: Json) returns (ts: seq<string>)
    requires Representable(v)
    ensures LeafAt(v, ts)
    decreases v
  {
    if IsLeaf(v) {
      ts := [];
    } else if v.Arr? {
      ElemChild(v.elems, 0);
      ts := SomeLeaf(v.elems[0]);
      LeafBelow(v, Digits(0), ts);
      ts := [Digits(0)] + ts;
    } else {
      var k :| k in v.members;
      ts := SomeLeaf(v.members[k]);
      LeafBelow(v, k, ts);
      ts := [k] + ts;
    }
  }

  // ----- The flattened object -----------------------------------------------------------------

  /** The value stored under `key`, which is `ref` followed by the pointer of a leaf. */
  ghost function StoredUnder(ref: string, v: Json, key: string): Json {
    var ptr := if |ref| <= |key| then Parse(key[|ref|..]) else Err(ParseError(107));
    if ptr.Ok? && LeafAt(v, ptr.value) then ValueAt(v, ptr.value) else Null
  }

  ghost function Printed(ref: string, leaves: set<seq<string>>): set<string> {
    set ts | ts in leaves :: ref + ToString(ts)
  }

  /** The members for a given set of leaf pointers of `v`, below the reference string `ref`. */
  ghost function Members(ref: string, v: Json, leaves: set<seq<string>>): map<string, Json> {
    map key | key in Printed(ref, leaves) :: StoredUnder(ref, v, key)
  }

  ghost predicate LeavesOf(v: Json, leaves: set<seq<string>>) {
    forall ts :: ts in leaves ==> LeafAt(v, ts)
  }

  lemma LeafSetLeaves(v: Json)
    requires Representable(v)
    ensures LeavesOf(v, LeafSet(v))
  {
    forall ts | ts in LeafSet(v)
      ensures LeafAt(v, ts)
    {
      LeafSetIff(v, ts);
    }
  }

  ghost function Flat(ref: string, v: Json): map<string, Json>
    requires Representable(v)
  {
    LeafSetLeaves(v);
    Members(ref, v, LeafSet(v))
  }

  lemma MemberOf(ref: string, v: Json, leaves: set<seq<string>>, ts: seq<string>)
    requires LeavesOf(v, leaves) && ts in leaves
    ensures ref + ToString(ts) in Members(ref, v, leaves)
    ensures Members(ref, v, leaves)[ref + ToString(ts)] == ValueAt(v, ts)
  {
    assert ref + ToString(ts) in Printed(ref, leaves);
    StoredAt(ref, v, ts);
  }

  lemma LeafOf(ref: string, v: Json, leaves: set<seq<string>>, key: string) returns (ts: seq<string>)
    requires LeavesOf(v, leaves) && key in Members(ref, v, leaves)
    ensures ts in leaves && key == ref + ToString(ts) && Members(ref, v, leaves)[key] == ValueAt(v, ts)
  {
    ts :| ts in leaves && key == ref + ToString(ts);
    MemberOf(ref, v, leaves, ts);
  }

  /** Every key of the flattened document, parsed as a pointer, resolves in the document to a leaf whose
      stored value is the key's value; and every leaf has such a key. */
  lemma FlatResolves(v: Json, key: string)
    requires Representable(v)
    ensures key in Flat("", v)
        <==> Parse(key).Ok? && At(v, Parse(key).value).Ok?
             && var x := At(v, Parse(key).value).value; (!x.Arr? && !x.Obj?) || x == Arr([]) || x == Obj(map[])
    ensures key in Flat("", v) ==>
              var x := At(v, Parse(key).value).value; Flat("", v)[key] == if x.Arr? || x.Obj? then Null else x
  {
    LeafSetLeaves(v);
    if key in Flat("", v) {
      var ts := LeafOf("", v, LeafSet(v), key);
      assert key == ToString(ts);
      ParsePrint(ts);
    }
    if Parse(key).Ok? {
      var ts := Parse(key).value;
      PrintParse(key);
      LeafSetIff(v, ts);
      if ts in LeafSet(v) {
        MemberOf("", v, LeafSet(v), ts);
        assert "" + ToString(ts) == key;
      }
    }
  }

  // ----- The recursive loops ------------------------------------------------------------------

  /** The leaves of `v` whose first token is in `done`. */
  ghost function Below(v: Json, done: set<string>): set<seq<string>> {
    set ts | ts in LeafSet(v) && ts != [] && ts[0] in done
  }

  ghost function FlatBelow(ref: string, v: Json, done: set<string>): map<string, Json>
    requires Representable(v)
  {
    LeafSetLeaves(v);
    Members(ref, v, Below(v, done))
  }

  ghost function Prepend(t: string, leaves: set<seq<string>>): set<seq<string>> {
    set ts | ts in leaves :: [t] + ts
  }

  lemma UnionKeeps(ref: string, v: Json, a: set<seq<string>>, b: set<seq<string>>, key: string)
    requires LeavesOf(v, a) && LeavesOf(v, b) && LeavesOf(v, a + b)
    requires key in Members(ref, v, a) || key in Members(ref, v, b)
    ensures key in Members(ref, v, a + b)
    ensures Members(ref, v, a + b)[key] == (Members(ref, v, a) + Members(ref, v, b))[key]
  {
    var ts := LeafOf(ref, v, if key in Members(ref, v, b) then b else a, key);
    MemberOf(ref, v, a + b, ts);
  }

  lemma UnionOnly(ref: string, v: Json, a: set<seq<string>>, b: set<seq<string>>, key: string)
    requires LeavesOf(v, a) && LeavesOf(v, b) && LeavesOf(v, a + b) && key in Members(ref, v, a + b)
    ensures key in Members(ref, v, a) || key in Members(ref, v, b)
  {
    var ts := LeafOf(ref, v, a + b, key);
    MemberOf(ref, v, if ts in b then b else a, ts);
  }

  lemma MembersUnion(ref: string, v: Json, a: set<seq<string>>, b: set<seq<string>>)
    requires LeavesOf(v, a) && LeavesOf(v, b)
    ensures LeavesOf(v, a + b) && Members(ref, v, a + b) == Members(ref, v, a) + Members(ref, v, b)
  {
    forall key | key in Members(ref, v, a) || key in Members(ref, v, b)
      ensures key in Members(ref, v, a + b)
      ensures Members(ref, v, a + b)[key] == (Members(ref, v, a) + Members(ref, v, b))[key]
    {
      UnionKeeps(ref, v, a, b, key);
    }
    forall key | key in Members(ref, v, a + b)
      ensures key in Members(ref, v, a) || key in Members(ref, v, b)
    {
      UnionOnly(ref, v, a, b, key);
    }
  }

  lemma KeyBelow(ref: string, t: string, ts: seq<string>)
    ensures ref + "/" + Encode(t) + ToString(ts) == ref + ToString([t] + ts)
  {
    ToStringFront(t, ts);
    Regrouped(ref, Encode(t), ToString(ts));
  }

  lemma Regrouped(ref: string, e: string, rest: string)
    ensures ref + "/" + e + rest == ref + ("/" + e + rest)
  {
  }

  lemma StoredAt(ref: string, v: Json, ts: seq<string>)
    requires LeafAt(v, ts)
    ensures StoredUnder(ref, v, ref + ToString(ts)) == ValueAt(v, ts)
  {
    ParsePrint(ts);
    assert (ref + ToString(ts))[|ref|..] == ToString(ts);
  }

  lemma LeafKeyBelow(ref: string, v: Json, t: string, ts: seq<string>)
    requires Child(v, t).Ok? && LeafAt(Child(v, t).value, ts)
    ensures LeafAt(v, [t] + ts)
    ensures ref + "/" + Encode(t) + ToString(ts) == ref + ToString([t] + ts)
    ensures StoredUnder(ref + "/" + Encode(t), Child(v, t).value, ref + "/" + Encode(t) + ToString(ts))
         == StoredUnder(ref, v, ref + ToString([t] + ts))
  {
    LeafBelow(v, t, ts);
    KeyBelow(ref, t, ts);
    StoredAt(ref + "/" + Encode(t), Child(v, t).value, ts);
    StoredAt(ref, v, [t] + ts);
  }

  lemma PrintedBelow(ref: string, t: string, leaves: set<seq<string>>)
    requires forall ts :: ts in leaves ==> ref + "/" + Encode(t) + ToString(ts) == ref + ToString([t] + ts)
    ensures Printed(ref, Prepend(t, leaves)) == Printed(ref + "/" + Encode(t), leaves)
  {
    forall key | key in Printed(ref, Prepend(t, leaves))
      ensures key in Printed(ref + "/" + Encode(t), leaves)
    {
      var us :| us in Prepend(t, leaves) && key == ref + ToString(us);
      var ts :| ts in leaves && us == [t] + ts;
    }
    forall key | key in Printed(ref + "/" + Encode(t), leaves)
      ensures key in Printed(ref, Prepend(t, leaves))
    {
      var ts :| ts in leaves && key == ref + "/" + Encode(t) + ToString(ts);
      assert [t] + ts in Prepend(t, leaves);
    }
  }

  lemma MembersBelow(ref: string, v: Json, t: string, leaves: set<seq<string>>)
    requires Child(v, t).Ok? && LeavesOf(Child(v, t).value, leaves)
    ensures LeavesOf(v, Prepend(t, leaves))
    ensures Members(ref, v, Prepend(t, leaves)) == Members(ref + "/" + Encode(t), Child(v, t).value, leaves)
  {
    var c, sub := Child(v, t).value, ref + "/" + Encode(t);
    forall ts | ts in leaves
      ensures LeafAt(v, [t] + ts) && sub + ToString(ts) == ref + ToString([t] + ts)
    {
      LeafKeyBelow(ref, v, t, ts);
    }
    PrintedBelow(ref, t, leaves);
    forall key | key in Printed(sub, leaves)
      ensures StoredUnder(ref, v, key) == StoredUnder(sub, c, key)
    {
      var ts :| ts in leaves && key == sub + ToString(ts);
      LeafKeyBelow(ref, v, t, ts);
    }
  }

  lemma BelowStep(v: Json, done: set<string>, t: string)
    requires Representable(v) && !IsLeaf(v) && Child(v, t).Ok? && Representable(Child(v, t).value)
    ensures Below(v, done + {t}) == Below(v, done) + Prepend(t, LeafSet(Child(v, t).value))
  {
    var c := Child(v, t).value;
    forall ts
      ensures ts != [] && ts[0] == t ==> (ts in LeafSet(v) <==> ts[1..] in LeafSet(c) && ts == [t] + ts[1..])
    {
      if ts != [] && ts[0] == t {
        assert ts == [t] + ts[1..];
        LeafBelow(v, t, ts[1..]);
        LeafSetIff(v, ts);
        LeafSetIff(c, ts[1..]);
      }
    }
    forall us | us in LeafSet(c)
      ensures ([t] + us)[0] == t && ([t] + us)[1..] == us
    {
    }
  }

  /** Flattening one more child adds exactly that child's members. */
  lemma FlatStep(ref: string, v: Json, done: set<string>, t: string)
    requires Representable(v) && !IsLeaf(v) && Child(v, t).Ok? && Representable(Child(v, t).value)
    ensures FlatBelow(ref, v, done + {t})
         == FlatBelow(ref, v, done) + Flat(ref + "/" + Encode(t), Child(v, t).value)
  {
    var c := Child(v, t).value;
    LeafSetLeaves(v);
    LeafSetLeaves(c);
    BelowStep(v, done, t);
    MembersBelow(ref, v, t, LeafSet(c));
    MembersUnion(ref, v, Below(v, done), Prepend(t, LeafSet(c)));
  }

  /** What `result` has become when the children in `done` have been flattened into it. */
  ghost function Progress(result: map<string, Json>, ref: string, v: Json, done: set<string>): map<string, Json>
    requires Representable(v)
  {
    result + FlatBelow(ref, v, done)
  }

  lemma ProgressStep(result: map<string, Json>, ref: string, v: Json, done: set<string>, t: string)
    requires Representable(v) && !IsLeaf(v) && Child(v, t).Ok? && Representable(Child(v, t).value)
    ensures Progress(result, ref, v, done) + Flat(ref + "/" + Encode(t), Child(v, t).value)
         == Progress(result, ref, v, done + {t})
  {
    FlatStep(ref, v, done, t);
    PlusAssociative(result, FlatBelow(ref, v, done), Flat(ref + "/" + Encode(t), Child(v, t).value));
  }

  lemma ProgressEnds(result: map<string, Json>, ref: string, v: Json, tokens: set<string>)
    requires Representable(v) && !IsLeaf(v)
    requires forall t :: Child(v, t).Ok? ==> t in tokens
    ensures Progress(result, ref, v, {}) == result
    ensures Progress(result, ref, v, tokens) == result + Flat(ref, v)
  {
    FlatAllBelow(ref, v, tokens);
    assert result + map[] == result;
  }

  lemma PlusAssociative(a: map<string, Json>, b: map<string, Json>, c: map<string, Json>)
    ensures a + b + c == a + (b + c)
  {
  }

  lemma FlatAllBelow(ref: string, v: Json, tokens: set<string>)
    requires Representable(v) && !IsLeaf(v)
    requires forall t :: Child(v, t).Ok? ==> t in tokens
    ensures FlatBelow(ref, v, tokens) == Flat(ref, v)
    ensures FlatBelow(ref, v, {}) == map[]
  {
    assert Below(v, {}) == {};
    forall ts | ts in LeafSet(v)
      ensures ts in Below(v, tokens)
    {
      LeafSetIff(v, ts);
      LeafHere(v);
    }
    assert Below(v, tokens) == LeafSet(v);
  }

  lemma FlatLeaf(ref: string, v: Json)
    requires IsLeaf(v)
    ensures Representable(v) && Flat(ref, v) == map[ref := Stored(v)]
  {
    assert LeafSet(v) == {[]};
    LeafSetLeaves(v);
    MemberOf(ref, v, LeafSet(v), []);
    assert ref + ToString([]) == ref;
    assert Printed(ref, {[]}) == {ref};
  }

  ghost function IndexTokens(n: nat): set<string> {
    set i | 0 <= i < n :: Digits(i)
  }

  lemma NextIndexToken(n: nat)
    ensures IndexTokens(0) == {}
    ensures IndexTokens(n + 1) == IndexTokens(n) + {Digits(n)}
  {
  }

  /** `json_pointer::flatten`: writes the members of `value` into `result`. */
  method FlattenInto(ref: string, value: Json, result: map<string, Json>) returns (r: map<string, Json>)
    requires Representable(value)
    ensures r == result + Flat(ref, value)
    decreases value
  {
    r := result;
    match value {
      case Arr(a) =>
        if a == [] {
          r := r[ref := Null];
          FlatLeaf(ref, value);
        } else {
          r := FlattenElems(ref, value, result);
        }
      case Obj(m) =>
        if m == map[] {
          r := r[ref := Null];
          FlatLeaf(ref, value);
        } else {
          r := FlattenMembers(ref, value, result);
        }
      case _ =>
        r := r[ref := value];
        FlatLeaf(ref, value);
    }
  }

  method FlattenElems(ref: string, value: Json, result: map<string, Json>) returns (r: map<string, Json>)
    requires Representable(value) && value.Arr? && value.elems != []
    ensures r == result + Flat(ref, value)
    decreases value, 0
  {
    var a := value.elems;
    r := result;
    ArrayTokens(value);
    ProgressEnds(result, ref, value, IndexTokens(|a|));
    NextIndexToken(0);
    for i := 0 to |a|
      invariant r == Progress(result, ref, value, IndexTokens(i))
    {
      ElemChild(a, i);
      EncodeDigits(i);
      ProgressStep(result, ref, value, IndexTokens(i), Digits(i));
      NextIndexToken(i);
      r := FlattenInto(ref + "/" + Digits(i), a[i], r);
    }
  }

  lemma ArrayTokens(v: Json)
    requires v.Arr?
    ensures forall t :: Child(v, t).Ok? ==> t in IndexTokens(|v.elems|)
  {
    forall t | Child(v, t).Ok?
      ensures t in IndexTokens(|v.elems|)
    {
      var i := ElemToken(v.elems, t);
    }
  }

  ghost function KeySet(keys: seq<string>): set<string> {
    set k | k in keys
  }

  lemma KeySetStep(keys: seq<string>, i: nat)
    requires i < |keys|
    ensures KeySet(keys[..i + 1]) == KeySet(keys[..i]) + {keys[i]}
  {
    assert keys[..i + 1] == keys[..i] + [keys[i]];
  }

  method FlattenMembers(ref: string, value: Json, result: map<string, Json>) returns (r: map<string, Json>)
    requires Representable(value) && value.Obj? && value.members != map[]
    ensures r == result + Flat(ref, value)
    decreases value, 0
  {
    var m := value.members;
    var keys := Keys(m);
    r := result;
    ProgressEnds(result, ref, value, KeySet(keys));
    for i := 0 to |keys|
      invariant r == Progress(result, ref, value, KeySet(keys[..i]))
    {
      var k := keys[i];
      ProgressStep(result, ref, value, KeySet(keys[..i]), k);
      KeySetStep(keys, i);
      var e := EscapeToken(k);
      EscapeIsEncode(k);
      r := FlattenInto(ref + "/" + e, m[k], r);
    }
    assert keys[..|keys|] == keys;
  }

  /** `basic_json::flatten`. */
  method Flatten(v: Json) returns (r: Json)
    requires Representable(v)
    ensures r == Obj(Flat("", v))
  {
    var m := FlattenInto("", v, map[]);
    r := Obj(m);
  }
}
