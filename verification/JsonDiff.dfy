/** Creating a JSON Patch from two documents, and its round trip through `patch`. */
module JsonDiff {
  import opened Outcomes
  import opened KeyOrder
  import opened JsonValue
  import opened Escaping
  import opened JsonPointer
  import opened PointerResolution
  import opened JsonPatch

  // ----- The patch as a function of the two documents -----------------------------------------

  function Min(a: nat, b: nat): nat {
    if a < b then a else b
  }

  function DiffOps(source: Json, target: Json, path: string): seq<Json>
    decreases source, 1, 0
  {
    if source == target then
      []
    else if source.Arr? && target.Arr? then
      var common := Min(|source.elems|, |target.elems|);
      DiffElems(source, target, path, common)
      + Removals(path, common, |source.elems|)
      + Appends(path, target.elems[common..])
    else if source.Obj? && target.Obj? then
      DiffMembers(source, target, path, Keys(source.members))
      + Additions(source, target, path, Keys(target.members))
    else
      [ReplaceOp(path, target)]
  }

  /** The recursive differences of the first `n` elements. */
  function DiffElems(source: Json, target: Json, path: string, n: nat): seq<Json>
    requires source.Arr? && target.Arr? && n <= |source.elems| && n <= |target.elems|
    decreases source, 0, n
  {
    if n == 0 then
      []
    else
      DiffElems(source, target, path, n - 1)
      + DiffOps(source.elems[n - 1], target.elems[n - 1], path + "/" + Digits(n - 1))
  }

  /** Removals of the indices below `hi` down to `lo`. */
  function Removals(path: string, lo: nat, hi: nat): seq<Json> {
    if hi <= lo then [] else [RemoveOp(path + "/" + Digits(hi - 1))] + Removals(path, lo, hi - 1)
  }

  function Appends(path: string, elems: seq<Json>): seq<Json> {
    seq(|elems|, i requires 0 <= i < |elems| => AddOp(path + "/-", elems[i]))
  }

  /** First pass over the source's keys: recurse on shared ones, remove the others. */
  function DiffMembers(source: Json, target: Json, path: string, keys: seq<string>): seq<Json>
    requires source.Obj? && target.Obj? && forall k :: k in keys ==> k in source.members
    decreases source, 0, |keys|
  {
    if keys == [] then
      []
    else
      DiffMembers(source, target, path, Parent(keys)) + MemberOps(source, target, path, Last(keys))
  }

  /** The operations of the first pass for one member of the source. */
  function MemberOps(source: Json, target: Json, path: string, k: string): seq<Json>
    requires source.Obj? && target.Obj? && k in source.members
    decreases source, 0, 0
  {
    if k in target.members then DiffOps(source.members[k], target.members[k], path + "/" + Encode(k))
    else [RemoveOp(path + "/" + Encode(k))]
  }

  /** Second pass over the target's keys: add those the source lacks. */
  function Additions(source: Json, target: Json, path: string, keys: seq<string>): seq<Json>
    requires source.Obj? && target.Obj? && forall k :: k in keys ==> k in target.members
    decreases |keys|
  {
    if keys == [] then
      []
    else
      var k := Last(keys);
      Additions(source, target, path, Parent(keys))
      + if k in source.members then [] else [AddOp(path + "/" + Encode(k), target.members[k])]
  }

  // ----- Edits of one place -------------------------------------------------------------------

  /** In every document that holds `v` at `ts`, the operations put `w` there, change nothing else and
      never throw on the way. */
  ghost predicate Edits(ts: seq<string>, v: Json, ops: seq<Json>, w: Json) {
    forall doc :: At(doc, ts) == Ok(v) ==> ApplyAll(doc, ops) == Done(SetAt(doc, ts, w))
  }

  lemma EditsNothing(ts: seq<string>, v: Json)
    ensures Edits(ts, v, [], v)
  {
    forall doc | At(doc, ts) == Ok(v)
      ensures ApplyAll(doc, []) == Done(SetAt(doc, ts, v))
    {
      SetSame(doc, ts);
    }
  }

  lemma EditsChain(ts: seq<string>, u: Json, a: seq<Json>, v: Json, b: seq<Json>, w: Json)
    requires Edits(ts, u, a, v) && Edits(ts, v, b, w)
    ensures Edits(ts, u, a + b, w)
  {
    forall doc | At(doc, ts) == Ok(u)
      ensures ApplyAll(doc, a + b) == Done(SetAt(doc, ts, w))
    {
      ApplyConcat(doc, a, b);
      AtSetHere(doc, ts, v);
      SetOver(doc, ts, v, w);
    }
  }

  lemma EditsReplace(ts: seq<string>, v: Json, w: Json)
    ensures Edits(ts, v, [ReplaceOp(ToString(ts), w)], w)
  {
    forall doc | At(doc, ts) == Ok(v)
      ensures ApplyAll(doc, [ReplaceOp(ToString(ts), w)]) == Done(SetAt(doc, ts, w))
    {
      ParsePrint(ts);
      ApplyOne(doc, ReplaceOp(ToString(ts), w));
    }
  }

  lemma EditsRemove(ts: seq<string>, v: Json, t: string, w: Json)
    requires RemoveChild(v, t) == Ok(w)
    ensures Edits(ts, v, [RemoveOp(ToString(ts) + "/" + Encode(t))], w)
  {
    var op := RemoveOp(ToString(ts) + "/" + Encode(t));
    ToStringSnoc(ts, t);
    ParsePrint(ts + [t]);
    forall doc | At(doc, ts) == Ok(v)
      ensures ApplyAll(doc, [op]) == Done(SetAt(doc, ts, w))
    {
      RemoveAt(doc, ts, t);
      ApplyOne(doc, op);
    }
  }

  lemma EditsAdd(ts: seq<string>, v: Json, t: string, x: Json, w: Json)
    requires AddChild(v, t, x) == Ok(w)
    ensures Edits(ts, v, [AddOp(ToString(ts) + "/" + Encode(t), x)], w)
  {
    var op := AddOp(ToString(ts) + "/" + Encode(t), x);
    ToStringSnoc(ts, t);
    ParsePrint(ts + [t]);
    forall doc | At(doc, ts) == Ok(v)
      ensures ApplyAll(doc, [op]) == Done(SetAt(doc, ts, w))
    {
      AddAt(doc, ts, t, x);
      ApplyOne(doc, op);
    }
  }

  /** An edit of a child is an edit of the container. */
  lemma EditsChild(ts: seq<string>, t: string, v: Json, ops: seq<Json>, x: Json)
    requires Child(v, t).Ok? && Edits(ts + [t], Child(v, t).value, ops, x)
    ensures At(v, [t]).Ok? && Edits(ts, v, ops, SetAt(v, [t], x))
  {
    AtSnoc(v, [], t);
    assert [] + [t] == [t];
    forall doc | At(doc, ts) == Ok(v)
      ensures ApplyAll(doc, ops) == Done(SetAt(doc, ts, SetAt(v, [t], x)))
    {
      AtSnoc(doc, ts, t);
      SetConcat(doc, ts, [t], x);
    }
  }

  lemma EditsElem(ts: seq<string>, a: seq<Json>, i: nat, ops: seq<Json>, x: Json)
    requires i < |a| && i < SIZE_MAX && Edits(ts + [Digits(i)], a[i], ops, x)
    ensures Edits(ts, Arr(a), ops, Arr(a[i := x]))
  {
    IndexOfDigits(i);
    EncodeDigits(i);
    EditsChild(ts, Digits(i), Arr(a), ops, x);
    assert [Digits(i)][1..] == [];
    assert SetAt(a[i], [], x) == x;
  }

  lemma EditsMember(ts: seq<string>, m: map<string, Json>, k: string, ops: seq<Json>, x: Json)
    requires k in m && Edits(ts + [k], m[k], ops, x)
    ensures Edits(ts, Obj(m), ops, Obj(m[k := x]))
  {
    EditsChild(ts, k, Obj(m), ops, x);
    assert [k][1..] == [];
    assert SetAt(m[k], [], x) == x;
  }

  // ----- The difference is an edit ------------------------------------------------------------

  lemma {:induction false} DiffEdits(ts: seq<string>, source: Json, target: Json)
    requires Representable(source)
    ensures Edits(ts, source, DiffOps(source, target, ToString(ts)), target)
    decreases source, 1, 0
  {
    if source == target {
      EditsNothing(ts, source);
    } else if source.Arr? && target.Arr? {
      ArraysEdit(ts, source, target);
    } else if source.Obj? && target.Obj? {
      ObjectsEdit(ts, source, target);
    } else {
      EditsReplace(ts, source, target);
    }
  }

  lemma {:induction false} ArraysEdit(ts: seq<string>, source: Json, target: Json)
    requires Representable(source) && source != target && source.Arr? && target.Arr?
    ensures Edits(ts, source, DiffOps(source, target, ToString(ts)), target)
    decreases source, 0, |source.elems| + 1
  {
    var s, t, path := source.elems, target.elems, ToString(ts);
    var common := Min(|s|, |t|);
    var mixed, cut := t[..common] + s[common..], t[..common];
    var a, b, c := DiffElems(source, target, path, common), Removals(path, common, |s|),
                   Appends(path, t[common..]);
    ElemsEdit(ts, source, target, common);
    RemovalsEdit(ts, mixed, common);
    assert mixed[..common] == cut;
    AppendsEdit(ts, cut, t[common..]);
    assert cut + t[common..] == t;
    EditsChain(ts, source, a, Arr(mixed), b, Arr(cut));
    EditsChain(ts, source, a + b, Arr(cut), c, target);
    ArrayOps(source, target, path);
  }

  lemma ArrayOps(source: Json, target: Json, path: string)
    requires source != target && source.Arr? && target.Arr?
    ensures var s, t := source.elems, target.elems;
            var common := Min(|s|, |t|);
            DiffOps(source, target, path)
            == DiffElems(source, target, path, common) + Removals(path, common, |s|) + Appends(path, t[common..])
  {
  }

  lemma {:induction false} ElemsEdit(ts: seq<string>, source: Json, target: Json, n: nat)
    requires Representable(source)
    requires source.Arr? && target.Arr? && n <= |source.elems| && n <= |target.elems|
    ensures Edits(ts, source, DiffElems(source, target, ToString(ts), n),
                  Arr(target.elems[..n] + source.elems[n..]))
    decreases source, 0, n
  {
    var s, t := source.elems, target.elems;
    if n == 0 {
      assert t[..0] + s[0..] == s;
      EditsNothing(ts, source);
    } else {
      var i := n - 1;
      var before := t[..i] + s[i..];
      ElemsEdit(ts, source, target, i);
      DiffEdits(ts + [Digits(i)], s[i], t[i]);
      IndexPath(ts, i);
      var ops := DiffOps(s[i], t[i], ToString(ts) + "/" + Digits(i));
      EditsElem(ts, before, i, ops, t[i]);
      assert before[i := t[i]] == t[..n] + s[n..];
      EditsChain(ts, source, DiffElems(source, target, ToString(ts), i), Arr(before), ops,
                 Arr(t[..n] + s[n..]));
    }
  }

  lemma IndexPath(ts: seq<string>, i: nat)
    ensures ToString(ts + [Digits(i)]) == ToString(ts) + "/" + Digits(i)
    ensures Encode(Digits(i)) == Digits(i)
  {
    ToStringSnoc(ts, Digits(i));
    EncodeDigits(i);
  }

  lemma {:induction false} RemovalsEdit(ts: seq<string>, a: seq<Json>, lo: nat)
    requires lo <= |a| <= SIZE_MAX
    ensures Edits(ts, Arr(a), Removals(ToString(ts), lo, |a|), Arr(a[..lo]))
    decreases |a|
  {
    if lo == |a| {
      assert a[..lo] == a;
      EditsNothing(ts, Arr(a));
    } else {
      var last := |a| - 1;
      var shorter := a[..last];
      var path := ToString(ts);
      IndexOfDigits(last);
      IndexPath(ts, last);
      assert a[..last] + a[last + 1..] == shorter;
      EditsRemove(ts, Arr(a), Digits(last), Arr(shorter));
      RemovalsEdit(ts, shorter, lo);
      assert shorter[..lo] == a[..lo];
      EditsChain(ts, Arr(a), [RemoveOp(path + "/" + Digits(last))], Arr(shorter),
                 Removals(path, lo, last), Arr(a[..lo]));
    }
  }

  lemma {:induction false} AppendsEdit(ts: seq<string>, a: seq<Json>, more: seq<Json>)
    ensures Edits(ts, Arr(a), Appends(ToString(ts), more), Arr(a + more))
    decreases |more|
  {
    var path := ToString(ts);
    if more == [] {
      assert a + more == a;
      EditsNothing(ts, Arr(a));
    } else {
      var longer := a + [more[0]];
      EncodeDash();
      assert path + "/" + "-" == path + "/-";
      EditsAdd(ts, Arr(a), "-", more[0], Arr(longer));
      AppendsEdit(ts, longer, more[1..]);
      assert longer + more[1..] == a + more;
      EditsChain(ts, Arr(a), [AddOp(path + "/-", more[0])], Arr(longer),
                 Appends(path, more[1..]), Arr(a + more));
      assert Appends(path, more) == [AddOp(path + "/-", more[0])] + Appends(path, more[1..]);
    }
  }

  /** The source's members after the first pass has visited the keys in `done`. */
  ghost function Merged(s: map<string, Json>, t: map<string, Json>, done: seq<string>): map<string, Json> {
    map k | k in s && (k in done ==> k in t) :: if k in done then t[k] else s[k]
  }

  /** The target's members that the second pass adds when it visits `keys`. */
  ghost function Missing(s: map<string, Json>, t: map<string, Json>, keys: seq<string>): map<string, Json> {
    map k | k in t && k in keys && k !in s :: t[k]
  }

  lemma {:induction false} ObjectsEdit(ts: seq<string>, source: Json, target: Json)
    requires Representable(source) && source != target && source.Obj? && target.Obj?
    ensures Edits(ts, source, DiffOps(source, target, ToString(ts)), target)
    decreases source, 0, |Keys(source.members)| + 1
  {
    var s, t, path := source.members, target.members, ToString(ts);
    var kept := Merged(s, t, Keys(s));
    KeysInOrder(s);
    MembersEdit(ts, source, target, Keys(s));
    AdditionsEdit(ts, source, target, kept, Keys(t));
    assert kept + Missing(s, t, Keys(t)) == t;
    EditsChain(ts, source, DiffMembers(source, target, path, Keys(s)), Obj(kept),
               Additions(source, target, path, Keys(t)), target);
  }

  lemma MergedStep(s: map<string, Json>, t: map<string, Json>, done: seq<string>, k: string)
    requires k in s && k !in done
    ensures k in Merged(s, t, done) && Merged(s, t, done)[k] == s[k]
    ensures Merged(s, t, done + [k]) == if k in t then Merged(s, t, done)[k := t[k]] else Merged(s, t, done) - {k}
  {
  }

  lemma LastIsNew(keys: seq<string>)
    requires Ascending(keys) && keys != []
    ensures Last(keys) !in Parent(keys) && Ascending(Parent(keys)) && keys == Parent(keys) + [Last(keys)]
  {
    LessIrreflexive(Last(keys));
  }

  lemma {:induction false} MembersEdit(ts: seq<string>, source: Json, target: Json, keys: seq<string>)
    requires Representable(source) && source.Obj? && target.Obj?
    requires Ascending(keys) && forall k :: k in keys ==> k in source.members
    ensures Edits(ts, source, DiffMembers(source, target, ToString(ts), keys),
                  Obj(Merged(source.members, target.members, keys)))
    decreases source, 0, |keys|
  {
    var s, t, path := source.members, target.members, ToString(ts);
    if keys == [] {
      assert Merged(s, t, keys) == s;
      EditsNothing(ts, source);
    } else {
      MembersEdit(ts, source, target, Parent(keys));
      LastIsNew(keys);
      if Last(keys) in t {
        DiffEdits(ts + [Last(keys)], s[Last(keys)], t[Last(keys)]);
      }
      MemberEdit(ts, source, target, Parent(keys), Last(keys));
      LastMember(source, target, path, keys);
    }
  }

  /** One more member of the first pass. */
  lemma MemberEdit(ts: seq<string>, source: Json, target: Json, done: seq<string>, k: string)
    requires source.Obj? && target.Obj? && k in source.members && k !in done
    requires forall o :: o in done ==> o in source.members
    requires Edits(ts, source, DiffMembers(source, target, ToString(ts), done),
                   Obj(Merged(source.members, target.members, done)))
    requires k in target.members ==>
      Edits(ts + [k], source.members[k], DiffOps(source.members[k], target.members[k], ToString(ts + [k])),
            target.members[k])
    ensures Edits(ts, source, DiffMembers(source, target, ToString(ts), done)
                              + MemberOps(source, target, ToString(ts), k),
                  Obj(Merged(source.members, target.members, done + [k])))
  {
    var s, t, path := source.members, target.members, ToString(ts);
    var before, after := Merged(s, t, done), Merged(s, t, done + [k]);
    var ops := MemberOps(source, target, path, k);
    MergedStep(s, t, done, k);
    ToStringSnoc(ts, k);
    if k in t {
      EditsMember(ts, before, k, ops, t[k]);
    } else {
      EditsRemove(ts, Obj(before), k, Obj(after));
    }
    EditsChain(ts, source, DiffMembers(source, target, path, done), Obj(before), ops, Obj(after));
  }

  lemma LastMember(source: Json, target: Json, path: string, keys: seq<string>)
    requires source.Obj? && target.Obj? && keys != [] && forall k :: k in keys ==> k in source.members
    ensures DiffMembers(source, target, path, keys)
         == DiffMembers(source, target, path, Parent(keys)) + MemberOps(source, target, path, Last(keys))
  {
  }

  lemma {:induction false} AdditionsEdit(ts: seq<string>, source: Json, target: Json,
                                         kept: map<string, Json>, keys: seq<string>)
    requires source.Obj? && target.Obj? && forall k :: k in keys ==> k in target.members
    ensures Edits(ts, Obj(kept), Additions(source, target, ToString(ts), keys),
                  Obj(kept + Missing(source.members, target.members, keys)))
    decreases |keys|
  {
    var s, t, path := source.members, target.members, ToString(ts);
    if keys == [] {
      assert kept + Missing(s, t, keys) == kept;
      EditsNothing(ts, Obj(kept));
    } else {
      var k, done := Last(keys), Parent(keys);
      assert keys == done + [k];
      AdditionsEdit(ts, source, target, kept, done);
      var before, after := kept + Missing(s, t, done), kept + Missing(s, t, keys);
      var ops := if k in s then [] else [AddOp(path + "/" + Encode(k), t[k])];
      MissingStep(s, t, kept, done, k);
      if k in s {
        EditsNothing(ts, Obj(before));
      } else {
        EditsAdd(ts, Obj(before), k, t[k], Obj(after));
      }
      EditsChain(ts, Obj(kept), Additions(source, target, path, done), Obj(before), ops, Obj(after));
    }
  }

  lemma MissingStep(s: map<string, Json>, t: map<string, Json>, kept: map<string, Json>,
                    done: seq<string>, k: string)
    requires k in t
    ensures kept + Missing(s, t, done + [k])
         == if k in s then kept + Missing(s, t, done) else (kept + Missing(s, t, done))[k := t[k]]
  {
    assert Missing(s, t, done + [k])
        == if k in s then Missing(s, t, done) else Missing(s, t, done)[k := t[k]];
  }

  // ----- Main results -------------------------------------------------------------------------

  /** Patching `source` with the difference to `target` never throws and yields `target`. */
  lemma DiffPatchRoundTrip(source: Json, target: Json)
    requires Representable(source)
    ensures PatchSpec(source, Arr(DiffOps(source, target, ""))) == Done(target)
  {
    DiffEdits([], source, target);
    assert At(source, []) == Ok(source);
  }

  /** The difference is empty exactly when the documents are equal. */
  lemma DiffEmptyIffEqual(source: Json, target: Json)
    requires Representable(source)
    ensures DiffOps(source, target, "") == [] <==> source == target
  {
    DiffPatchRoundTrip(source, target);
    assert PatchSpec(source, Arr([])) == Done(source);
  }

  // ----- The loops ----------------------------------------------------------------------------

  /** `basic_json::diff`. */
  method Diff(source: Json, target: Json, path: string) returns (patch: Json)
    ensures patch == Arr(DiffOps(source, target, path))
    ensures path == "" && Representable(source) ==> PatchSpec(source, patch) == Done(target)
    decreases source, 1
  {
    var ops: seq<Json> := [];
    if source == target {
    } else if !SameType(source, target) {
      ops := [ReplaceOp(path, target)];
    } else {
      match source {
        case Arr(_) => ops := DiffArrays(source, target, path);
        case Obj(_) => ops := DiffObjects(source, target, path);
        case _ => ops := [ReplaceOp(path, target)];
      }
    }
    patch := Arr(ops);
    if path == "" && Representable(source) {
      DiffPatchRoundTrip(source, target);
    }
  }

  /** The `array` case: shared indices, then removals inserted in front of each other, then appends. */
  method DiffArrays(source: Json, target: Json, path: string) returns (ops: seq<Json>)
    requires source.Arr? && target.Arr? && source != target
    ensures ops == DiffOps(source, target, path)
    decreases source, 0, 1
  {
    var i: nat;
    ops, i := SharedElems(source, target, path);
    var removed := RemoveRest(path, i, |source.elems|);
    var added := AppendRest(path, i, target.elems);
    ops := ops + removed + added;
  }

  method SharedElems(source: Json, target: Json, path: string) returns (ops: seq<Json>, i: nat)
    requires source.Arr? && target.Arr?
    ensures i == Min(|source.elems|, |target.elems|) && ops == DiffElems(source, target, path, i)
    decreases source, 0, 0
  {
    ops, i := [], 0;
    while i < |source.elems| && i < |target.elems|
      invariant i <= |source.elems| && i <= |target.elems|
      invariant ops == DiffElems(source, target, path, i)
    {
      var inner := Diff(source.elems[i], target.elems[i], path + "/" + Digits(i));
      ops := ops + inner.elems;
      i := i + 1;
    }
  }

  /** Each removal goes in front of the earlier ones, so that the indices stay valid. */
  method RemoveRest(path: string, start: nat, size: nat) returns (ops: seq<Json>)
    ensures ops == Removals(path, start, size)
  {
    ops := [];
    var i := start;
    while i < size
      invariant start <= i && (i <= size || i == start)
      invariant ops == Removals(path, start, i)
    {
      ops := [RemoveOp(path + "/" + Digits(i))] + ops;
      i := i + 1;
    }
  }

  method AppendRest(path: string, start: nat, elems: seq<Json>) returns (ops: seq<Json>)
    requires start <= |elems|
    ensures ops == Appends(path, elems[start..])
  {
    ops := [];
    for i := start to |elems|
      invariant ops == Appends(path, elems[start..i])
    {
      ops := ops + [AddOp(path + "/-", elems[i])];
      assert elems[start..i + 1] == elems[start..i] + [elems[i]];
    }
    assert elems[start..|elems|] == elems[start..];
  }

  /** The `object` case: two passes in key order. */
  method DiffObjects(source: Json, target: Json, path: string) returns (ops: seq<Json>)
    requires source.Obj? && target.Obj? && source != target
    ensures ops == DiffOps(source, target, path)
    decreases source, 0, 2
  {
    ops := FirstPass(source, target, path, Keys(source.members));
    var added := SecondPass(source, target, path, Keys(target.members));
    ops := ops + added;
  }

  method FirstPass(source: Json, target: Json, path: string, keys: seq<string>) returns (ops: seq<Json>)
    requires source.Obj? && target.Obj? && forall k :: k in keys ==> k in source.members
    ensures ops == DiffMembers(source, target, path, keys)
    decreases source, 0, 1
  {
    ops := [];
    for i := 0 to |keys|
      invariant ops == DiffMembers(source, target, path, keys[..i])
    {
      DiffMembersSnoc(source, target, path, keys[..i], keys[i]);
      assert keys[..i + 1] == keys[..i] + [keys[i]];
      var more := FirstMember(source, target, path, keys[i]);
      ops := ops + more;
    }
    assert keys[..|keys|] == keys;
  }

  method FirstMember(source: Json, target: Json, path: string, k: string) returns (ops: seq<Json>)
    requires source.Obj? && target.Obj? && k in source.members
    ensures ops == MemberOps(source, target, path, k)
    decreases source, 0, 0
  {
    var e := EscapeToken(k);
    EscapeIsEncode(k);
    if k in target.members {
      var inner := Diff(source.members[k], target.members[k], path + "/" + e);
      ops := inner.elems;
    } else {
      ops := [RemoveOp(path + "/" + e)];
    }
  }

  method SecondPass(source: Json, target: Json, path: string, keys: seq<string>) returns (ops: seq<Json>)
    requires source.Obj? && target.Obj? && forall k :: k in keys ==> k in target.members
    ensures ops == Additions(source, target, path, keys)
  {
    ops := [];
    for i := 0 to |keys|
      invariant ops == Additions(source, target, path, keys[..i])
    {
      AdditionsSnoc(source, target, path, keys[..i], keys[i]);
      assert keys[..i + 1] == keys[..i] + [keys[i]];
      var more := SecondMember(source, target, path, keys[i]);
      ops := ops + more;
    }
    assert keys[..|keys|] == keys;
  }

  method SecondMember(source: Json, target: Json, path: string, k: string) returns (ops: seq<Json>)
    requires source.Obj? && target.Obj? && k in target.members
    ensures ops == if k in source.members then [] else [AddOp(path + "/" + Encode(k), target.members[k])]
  {
    ops := [];
    if k !in source.members {
      var e := EscapeToken(k);
      EscapeIsEncode(k);
      ops := [AddOp(path + "/" + e, target.members[k])];
    }
  }

  lemma DiffMembersSnoc(source: Json, target: Json, path: string, keys: seq<string>, k: string)
    requires source.Obj? && target.Obj? && k in source.members
    requires forall o :: o in keys ==> o in source.members
    ensures DiffMembers(source, target, path, keys + [k])
         == DiffMembers(source, target, path, keys) + MemberOps(source, target, path, k)
  {
    assert Parent(keys + [k]) == keys;
  }

  lemma AdditionsSnoc(source: Json, target: Json, path: string, keys: seq<string>, k: string)
    requires source.Obj? && target.Obj? && k in target.members
    requires forall o :: o in keys ==> o in target.members
    ensures Additions(source, target, path, keys + [k])
         == Additions(source, target, path, keys)
            + if k in source.members then [] else [AddOp(path + "/" + Encode(k), target.members[k])]
  {
    assert Parent(keys + [k]) == keys;
  }
}
