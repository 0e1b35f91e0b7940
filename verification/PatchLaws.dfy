/** Laws that relate the operations of JSON Patch to each other. */
module PatchLaws {
  import opened Outcomes
  import opened JsonValue
  import opened JsonPointer
  import opened PointerResolution
  import opened JsonPatch

  // ----- Add and remove undo each other -------------------------------------------------------

  lemma RemoveAddedChild(p: Json, t: string, val: Json)
    requires AddChild(p, t, val).Ok?
    ensures RemoveChild(AddChild(p, t, val).value, t) == Ok(p)
        <==> (p.Obj? && t !in p.members) || (p.Arr? && t != "-")
  {
    var q := AddChild(p, t, val).value;
    if p.Obj? && t !in p.members {
      assert p.members[t := val] - {t} == p.members;
    } else if p.Arr? && t != "-" {
      var i := ArrayIndex(t).value;
      assert q.elems[..i] == p.elems[..i] && q.elems[i + 1..] == p.elems[i..];
      assert p.elems[..i] + p.elems[i..] == p.elems;
    } else if p.Arr? {
      assert !IsDigit("-"[0]);
    } else if p.Obj? {
      assert t !in p.members[t := val] - {t};
    }
  }

  lemma AddRemovedChild(p: Json, t: string)
    requires Child(p, t).Ok?
    ensures RemoveChild(p, t).Ok? && RemoveChild(p, t).value != p
    ensures AddChild(RemoveChild(p, t).value, t, Child(p, t).value) == Ok(p)
  {
    if p.Obj? {
      assert t !in p.members - {t};
      assert (p.members - {t})[t := p.members[t]] == p.members;
    } else {
      var i := ArrayIndex(t).value;
      var cut := p.elems[..i] + p.elems[i + 1..];
      assert |cut| == |p.elems| - 1;
      assert cut[..i] == p.elems[..i] && cut[i..] == p.elems[i + 1..];
      assert cut[..i] + [p.elems[i]] + cut[i..] == p.elems;
    }
  }

  /** Whenever an addition below the root succeeds, removing at the same pointer restores the document
      exactly when the addition neither overwrote a member, nor turned null into an object, nor used
      the append token. */
  lemma RemoveUndoesAdd(doc: Json, ts: seq<string>, t: string, val: Json)
    requires OperationAdd(doc, ts + [t], val).Ok?
    ensures At(doc, ts).Ok?
    ensures OperationRemove(OperationAdd(doc, ts + [t], val).value, ts + [t]) == Ok(doc)
        <==> (At(doc, ts).value.Obj? && t !in At(doc, ts).value.members)
             || (At(doc, ts).value.Arr? && t != "-")
  {
    assert Parent(ts + [t]) == ts;
    var p := At(doc, ts).value;
    AddAt(doc, ts, t, val);
    var q := AddChild(p, t, val).value;
    var added := SetAt(doc, ts, q);
    AtSetHere(doc, ts, q);
    RemoveAt(added, ts, t);
    RemoveAddedChild(p, t, val);
    SetSame(doc, ts);
    if RemoveChild(q, t).Ok? {
      var r := RemoveChild(q, t).value;
      SetOver(doc, ts, q, r);
      AtSetHere(doc, ts, r);
    }
  }

  /** Removing an existing value and adding it back at the same pointer restores the document. */
  lemma AddUndoesRemove(doc: Json, ts: seq<string>, t: string)
    requires At(doc, ts + [t]).Ok?
    ensures OperationRemove(doc, ts + [t]).Ok? && OperationRemove(doc, ts + [t]).value != doc
    ensures OperationAdd(OperationRemove(doc, ts + [t]).value, ts + [t], At(doc, ts + [t]).value) == Ok(doc)
  {
    AtSnoc(doc, ts, t);
    var p := At(doc, ts).value;
    AddRemovedChild(p, t);
    RemoveAt(doc, ts, t);
    var r := RemoveChild(p, t).value;
    var removed := SetAt(doc, ts, r);
    AtSetHere(doc, ts, r);
    AddAt(removed, ts, t, Child(p, t).value);
    SetOver(doc, ts, r, p);
    SetSame(doc, ts);
  }

  // ----- Add and its guard --------------------------------------------------------------------

  /** The printed form of an index up to `n` that `std::size_t` can hold. */
  ghost predicate IndexUpTo(t: string, n: nat) {
    exists i: nat :: i <= n && i < SIZE_MAX && t == Digits(i)
  }

  /** What the place to add below must be. */
  ghost predicate AdmitsChild(p: Json, t: string) {
    p.Null? || p.Obj? || (p.Arr? && (t == "-" || IndexUpTo(t, |p.elems|)))
  }

  /** The guard of an addition. */
  ghost predicate Admits(doc: Json, ptr: seq<string>) {
    ptr == [] || (At(doc, Parent(ptr)).Ok? && AdmitsChild(At(doc, Parent(ptr)).value, Last(ptr)))
  }

  lemma PrintedIndex(t: string, n: nat, i: nat)
    requires i <= n && i < SIZE_MAX && t == Digits(i)
    ensures ArrayIndex(t) == Ok(i)
  {
    IndexOfDigits(i);
  }

  lemma IndexBound(t: string)
    requires ArrayIndex(t).Ok?
    ensures ArrayIndex(t).value < SIZE_MAX
  {
  }

  lemma IndexUpToIff(t: string, n: nat)
    ensures IndexUpTo(t, n) <==> ArrayIndex(t).Ok? && ArrayIndex(t).value <= n
  {
    if ArrayIndex(t).Ok? {
      IndexBound(t);
      DigitsOfIndex(t);
    }
    if IndexUpTo(t, n) {
      var i: nat :| i <= n && i < SIZE_MAX && t == Digits(i);
      PrintedIndex(t, n, i);
    }
  }

  lemma AddChildSucceeds(p: Json, t: string, val: Json)
    ensures AddChild(p, t, val).Ok? <==> AdmitsChild(p, t)
    ensures AddChild(p, t, val) == Err(AssertionFailure) <==> IsPrimitive(p) && !p.Null?
  {
    if p.Arr? {
      IndexUpToIff(t, |p.elems|);
    }
  }

  lemma LastOf(ptr: seq<string>)
    requires ptr != []
    ensures Parent(ptr) + [Last(ptr)] == ptr
  {
  }

  /** An addition succeeds exactly when the parent exists and is null, an object, or an array with the append
      token or an index up to its size. It trips an assertion exactly below an existing boolean, number or
      string. */
  lemma AddSucceeds(doc: Json, ptr: seq<string>, val: Json)
    ensures OperationAdd(doc, ptr, val).Ok? <==> Admits(doc, ptr)
    ensures OperationAdd(doc, ptr, val) == Err(AssertionFailure)
        <==> ptr != [] && At(doc, Parent(ptr)).Ok?
             && IsPrimitive(At(doc, Parent(ptr)).value) && !At(doc, Parent(ptr)).value.Null?
  {
    if ptr != [] {
      var ts, t := Parent(ptr), Last(ptr);
      LastOf(ptr);
      if At(doc, ts).Ok? {
        AddAt(doc, ts, t, val);
        AddChildSucceeds(At(doc, ts).value, t, val);
      } else {
        ResolveError(doc, ts);
        ResolveError(doc, ptr[..1]);
      }
    }
  }

  /** Resolving never trips an assertion. */
  lemma {:induction false} ResolveError(doc: Json, ts: seq<string>)
    ensures At(doc, ts) != Err(AssertionFailure)
    decreases |ts|
  {
    if ts != [] && Child(doc, ts[0]).Ok? {
      ResolveError(Child(doc, ts[0]).value, ts[1..]);
    }
  }

  /** Adding "/a/b" to {"a": 1}. */
  lemma AddBelowNumber(val: Json)
    ensures PatchStep(Obj(map["a" := Num(1.0)]), AddOp(ToString(["a", "b"]), val))
         == Failed(Obj(map["a" := Num(1.0)]), AssertionFailure)
  {
    var doc := Obj(map["a" := Num(1.0)]);
    ParsePrint(["a", "b"]);
    assert Parent(["a", "b"]) == ["a"];
    assert ["a"][1..] == [];
    assert At(doc, ["a"]) == Ok(Num(1.0));
    AddSucceeds(doc, ["a", "b"], val);
  }

  // ----- Move ---------------------------------------------------------------------------------

  function MoveOp(from: seq<string>, to: seq<string>): Json {
    Obj(map["op" := Str("move"), "from" := Str(ToString(from)), "path" := Str(ToString(to))])
  }

  lemma MoveStep(doc: Json, from: seq<string>, to: seq<string>)
    ensures PatchStep(doc, MoveOp(from, to)) == Move(doc, to, MoveOp(from, to).members)
    ensures PointerMember(MoveOp(from, to).members, "from") == Ok(from)
  {
    ParsePrint(from);
    ParsePrint(to);
  }

  /** Moving a value onto its own path changes nothing, except that the root cannot be moved at all. */
  lemma MoveOntoItself(doc: Json, ptr: seq<string>)
    requires At(doc, ptr).Ok?
    ensures PatchStep(doc, MoveOp(ptr, ptr))
         == if ptr == [] then Failed(doc, OutOfRange(405)) else Done(doc)
  {
    MoveStep(doc, ptr, ptr);
    if ptr != [] {
      LastOf(ptr);
      AddUndoesRemove(doc, Parent(ptr), Last(ptr));
    }
  }

  /** A move throws and leaves a changed document behind, without the value, exactly when there is a value to
      take and the document without it does not admit an addition at the destination. */
  lemma MoveLosesValue(doc: Json, from: seq<string>, to: seq<string>)
    ensures var s := PatchStep(doc, MoveOp(from, to));
            s.Failed? && s.doc != doc
            <==> from != [] && At(doc, from).Ok? && OperationRemove(doc, from).Ok?
                 && !Admits(OperationRemove(doc, from).value, to)
  {
    MoveStep(doc, from, to);
    if from != [] && At(doc, from).Ok? {
      LastOf(from);
      AddUndoesRemove(doc, Parent(from), Last(from));
      AddSucceeds(OperationRemove(doc, from).value, to, At(doc, from).value);
    }
  }

  /** Moving "/a" to "/x/y" throws and leaves an empty object. */
  lemma MoveLoses()
    ensures var s := PatchStep(Obj(map["a" := Num(1.0)]), MoveOp(["a"], ["x", "y"]));
            s.Failed? && s.doc == Obj(map[])
  {
    var doc := Obj(map["a" := Num(1.0)]);
    MoveStep(doc, ["a"], ["x", "y"]);
    assert ["a"][1..] == [];
    assert At(doc, ["a"]) == Ok(Num(1.0));
    assert map["a" := Num(1.0)] - {"a"} == map[];
    assert Parent(["a"]) == [];
    assert OperationRemove(doc, ["a"]) == Ok(Obj(map[]));
    assert ["x", "y"][..1] == ["x"];
    assert At(Obj(map[]), ["x"]).Err?;
  }

  // ----- Remove and existence -----------------------------------------------------------------

  /** Section 4.2 of RFC 6902 lets a removal succeed only where the target exists. The code agrees except
      below a value that is neither object nor array, where it succeeds and changes nothing. */
  lemma RemoveSucceeds(doc: Json, ts: seq<string>, t: string)
    requires At(doc, ts).Ok?
    ensures OperationRemove(doc, ts + [t]).Ok? <==> At(doc, ts + [t]).Ok? || IsPrimitive(At(doc, ts).value)
    ensures IsPrimitive(At(doc, ts).value) ==> OperationRemove(doc, ts + [t]) == Ok(doc)
  {
    AtSnoc(doc, ts, t);
    RemoveAt(doc, ts, t);
    SetSame(doc, ts);
    if At(doc, ts).value.Arr? {
      assert !IsDigit("-"[0]);
    }
  }

  lemma RemoveBelowNumber()
    ensures PatchStep(Obj(map["a" := Num(1.0)]), RemoveOp(ToString(["a", "b"])))
         == Done(Obj(map["a" := Num(1.0)]))
    ensures At(Obj(map["a" := Num(1.0)]), ["a", "b"]).Err?
  {
    var doc := Obj(map["a" := Num(1.0)]);
    ParsePrint(["a", "b"]);
    assert ["a", "b"] == ["a"] + ["b"];
    assert ["a"][1..] == [];
    assert At(doc, ["a"]) == Ok(Num(1.0));
    AtSnoc(doc, ["a"], "b");
    RemoveSucceeds(doc, ["a"], "b");
  }

  // ----- Add and test -------------------------------------------------------------------------

  /** After an addition, the pointer resolves to the added value, unless it was the append token. */
  lemma AddedIsThere(doc: Json, ts: seq<string>, t: string, val: Json)
    requires OperationAdd(doc, ts + [t], val).Ok?
    ensures At(doc, ts).Ok?
    ensures At(OperationAdd(doc, ts + [t], val).value, ts + [t]) == Ok(val)
        <==> At(doc, ts).value.Arr? ==> t != "-"
  {
    assert Parent(ts + [t]) == ts;
    AddAt(doc, ts, t, val);
    var q := AddChild(At(doc, ts).value, t, val).value;
    AtSetHere(doc, ts, q);
    AtSnoc(SetAt(doc, ts, q), ts, t);
  }

  function TestOp(ptr: seq<string>, val: Json): Json {
    Obj(map["op" := Str("test"), "path" := Str(ToString(ptr)), "value" := val])
  }

  /** A test succeeds exactly when the pointer resolves to an equal value, and never changes the document. */
  lemma TestIff(doc: Json, ptr: seq<string>, val: Json)
    ensures PatchStep(doc, TestOp(ptr, val)).Done? <==> At(doc, ptr) == Ok(val)
    ensures PatchStep(doc, TestOp(ptr, val)).doc == doc
  {
    ParsePrint(ptr);
  }

  // ----- What successful operations give ------------------------------------------------------

  /** `q` is `p`, an object or null, with the member `t` set to `val` and nothing else changed. */
  ghost predicate MemberSet(p: Json, t: string, val: Json, q: Json) {
    (p.Obj? || p.Null?) && q.Obj? && t in q.members && q.members[t] == val
    && (forall k :: k != t ==> (k in q.members <==> p.Obj? && k in p.members))
    && forall k :: k != t && k in q.members ==> q.members[k] == p.members[k]
  }

  /** `q` is `p`, an array, with `val` inserted before element `i` and nothing else changed. */
  ghost predicate Inserted(p: Json, i: nat, val: Json, q: Json) {
    p.Arr? && q.Arr? && i <= |p.elems| && |q.elems| == |p.elems| + 1 && q.elems[i] == val
    && (forall j :: 0 <= j < i ==> q.elems[j] == p.elems[j])
    && forall j :: i < j < |q.elems| ==> q.elems[j] == p.elems[j - 1]
  }

  /** `q` is the parent `p` after `val` has been added at `t`: at the end for "-", before element `i` for the
      numeral of `i`. */
  ghost predicate ChildAdded(p: Json, t: string, val: Json, q: Json) {
    if p.Arr? then
      (t == "-" && Inserted(p, |p.elems|, val, q)) || exists i: nat :: t == Digits(i) && Inserted(p, i, val, q)
    else
      MemberSet(p, t, val, q)
  }

  /** `result` is `doc` with `val` added at `ptr` and nothing else changed. */
  ghost predicate Added(doc: Json, ptr: seq<string>, val: Json, result: Json) {
    if ptr == [] then
      result == val
    else
      At(doc, Parent(ptr)).Ok?
      && exists q :: ChildAdded(At(doc, Parent(ptr)).value, Last(ptr), val, q) && result == SetAt(doc, Parent(ptr), q)
  }

  /** `q` is the parent `p` without its child `t`. */
  ghost predicate ChildRemoved(p: Json, t: string, q: Json) {
    (p.Obj? && q.Obj? && MemberGone(p.members, t, q.members))
    || (p.Arr? && q.Arr? && exists i: nat :: t == Digits(i) && ElementGone(p.elems, i, q.elems))
  }

  ghost predicate MemberGone(m: map<string, Json>, t: string, n: map<string, Json>) {
    t in m && t !in n && (forall k :: k != t ==> (k in n <==> k in m)) && forall k :: k in n ==> k in m && n[k] == m[k]
  }

  ghost predicate ElementGone(a: seq<Json>, i: nat, b: seq<Json>) {
    i < |a| && |b| == |a| - 1 && (forall j :: 0 <= j < i ==> b[j] == a[j])
    && forall j :: i <= j < |b| ==> b[j] == a[j + 1]
  }

  /** `result` is `doc` without the value at `ptr`. */
  ghost predicate Removed(doc: Json, ptr: seq<string>, result: Json) {
    ptr != [] && At(doc, Parent(ptr)).Ok?
    && exists q :: ChildRemoved(At(doc, Parent(ptr)).value, Last(ptr), q) && result == SetAt(doc, Parent(ptr), q)
  }

  lemma InsertedAt(p: Json, i: nat, val: Json)
    requires p.Arr? && i <= |p.elems|
    ensures Inserted(p, i, val, Arr(p.elems[..i] + [val] + p.elems[i..]))
  {
  }

  lemma AddChildAdds(p: Json, t: string, val: Json)
    requires AddChild(p, t, val).Ok?
    ensures ChildAdded(p, t, val, AddChild(p, t, val).value)
  {
    if p.Arr? && t == "-" {
      InsertedAt(p, |p.elems|, val);
      assert p.elems[..|p.elems|] == p.elems && p.elems[|p.elems|..] == [];
      assert p.elems + [val] + [] == p.elems + [val];
    } else if p.Arr? {
      DigitsOfIndex(t);
      InsertedAt(p, ArrayIndex(t).value, val);
    }
  }

  lemma AddAdds(doc: Json, ptr: seq<string>, val: Json)
    requires OperationAdd(doc, ptr, val).Ok?
    ensures Added(doc, ptr, val, OperationAdd(doc, ptr, val).value)
  {
    if ptr != [] {
      AddChildAdds(At(doc, Parent(ptr)).value, Last(ptr), val);
    }
  }

  lemma RemoveChildRemoves(p: Json, t: string)
    requires Child(p, t).Ok?
    ensures RemoveChild(p, t).Ok? && ChildRemoved(p, t, RemoveChild(p, t).value)
  {
    if p.Arr? {
      DigitsOfIndex(t);
      var i := ArrayIndex(t).value;
      assert ElementGone(p.elems, i, p.elems[..i] + p.elems[i + 1..]);
    }
  }

  lemma RemoveRemoves(doc: Json, ptr: seq<string>)
    requires ptr != [] && At(doc, ptr).Ok?
    ensures OperationRemove(doc, ptr).Ok? && Removed(doc, ptr, OperationRemove(doc, ptr).value)
  {
    LastOf(ptr);
    AtSnoc(doc, Parent(ptr), Last(ptr));
    RemoveChildRemoves(At(doc, Parent(ptr)).value, Last(ptr));
  }

  /** An "add" succeeds exactly where the document admits it, and then adds the value and changes nothing else. */
  lemma AddResult(doc: Json, ptr: seq<string>, val: Json)
    ensures var s := PatchStep(doc, AddOp(ToString(ptr), val));
            (s.Done? <==> Admits(doc, ptr)) && (s.Done? ==> Added(doc, ptr, val, s.doc))
  {
    ParsePrint(ptr);
    AddSucceeds(doc, ptr, val);
    if OperationAdd(doc, ptr, val).Ok? {
      AddAdds(doc, ptr, val);
    }
  }

  /** A "replace" succeeds exactly where there is a value, and then puts the new one in its place. */
  lemma ReplaceResult(doc: Json, ptr: seq<string>, val: Json)
    ensures var s := PatchStep(doc, ReplaceOp(ToString(ptr), val));
            (s.Done? <==> At(doc, ptr).Ok?) && (s.Done? ==> s.doc == SetAt(doc, ptr, val) && At(s.doc, ptr) == Ok(val))
  {
    ParsePrint(ptr);
    if At(doc, ptr).Ok? {
      AtSetHere(doc, ptr, val);
    }
  }

  function CopyOp(from: seq<string>, to: seq<string>): Json {
    Obj(map["op" := Str("copy"), "from" := Str(ToString(from)), "path" := Str(ToString(to))])
  }

  lemma CopyStep(doc: Json, from: seq<string>, to: seq<string>)
    ensures PatchStep(doc, CopyOp(from, to)) == Lift(doc, Copy(doc, to, CopyOp(from, to).members))
    ensures PointerMember(CopyOp(from, to).members, "from") == Ok(from)
  {
    ParsePrint(from);
    ParsePrint(to);
  }

  /** A "copy" succeeds exactly when there is a value at its source and the document admits one at its
      destination, and then adds that value there and changes nothing else. */
  lemma CopyResult(doc: Json, from: seq<string>, to: seq<string>)
    ensures var s := PatchStep(doc, CopyOp(from, to));
            (s.Done? <==> At(doc, from).Ok? && Admits(doc, to))
            && (s.Done? ==> Added(doc, to, At(doc, from).value, s.doc))
  {
    CopyStep(doc, from, to);
    if At(doc, from).Ok? {
      var v := At(doc, from).value;
      AddSucceeds(doc, to, v);
      if OperationAdd(doc, to, v).Ok? {
        AddAdds(doc, to, v);
      }
    }
  }

  /** A "move" succeeds exactly when there is a value below the root to take and the document without it admits one
      at the destination, and then is a removal followed by the addition of the removed value. */
  lemma MoveResult(doc: Json, from: seq<string>, to: seq<string>)
    ensures var s := PatchStep(doc, MoveOp(from, to));
            (s.Done? <==> from != [] && At(doc, from).Ok? && OperationRemove(doc, from).Ok?
                          && Admits(OperationRemove(doc, from).value, to))
            && (s.Done? ==> Removed(doc, from, OperationRemove(doc, from).value)
                            && Added(OperationRemove(doc, from).value, to, At(doc, from).value, s.doc))
  {
    MoveStep(doc, from, to);
    if from != [] && At(doc, from).Ok? {
      var v := At(doc, from).value;
      RemoveRemoves(doc, from);
      var mid := OperationRemove(doc, from).value;
      AddSucceeds(mid, to, v);
      if OperationAdd(mid, to, v).Ok? {
        AddAdds(mid, to, v);
      }
    }
  }

  /** After a copy the destination resolves to what the source held, unless the value was appended with "-". */
  lemma CopiedIsThere(doc: Json, from: seq<string>, ts: seq<string>, t: string)
    requires PatchStep(doc, CopyOp(from, ts + [t])).Done?
    ensures At(doc, from).Ok? && At(doc, ts).Ok?
    ensures At(PatchStep(doc, CopyOp(from, ts + [t])).doc, ts + [t]) == At(doc, from)
        <==> At(doc, ts).value.Arr? ==> t != "-"
  {
    CopyStep(doc, from, ts + [t]);
    AddedIsThere(doc, ts, t, At(doc, from).value);
  }

  /** After a move the destination resolves to what the source held, unless the value was appended with "-". */
  lemma MovedIsThere(doc: Json, from: seq<string>, ts: seq<string>, t: string)
    requires PatchStep(doc, MoveOp(from, ts + [t])).Done?
    ensures At(doc, from).Ok? && OperationRemove(doc, from).Ok? && At(OperationRemove(doc, from).value, ts).Ok?
    ensures At(PatchStep(doc, MoveOp(from, ts + [t])).doc, ts + [t]) == At(doc, from)
        <==> At(OperationRemove(doc, from).value, ts).value.Arr? ==> t != "-"
  {
    MoveStep(doc, from, ts + [t]);
    AddedIsThere(OperationRemove(doc, from).value, ts, t, At(doc, from).value);
  }

  // ----- Exceptions ---------------------------------------------------------------------------

  predicate HasString(m: map<string, Json>, name: string) {
    name in m && m[name].Str?
  }

  /** What a malformed operation throws, leaving the document as it was. */
  lemma MalformedOperation(doc: Json, val: Json)
    ensures !val.Obj? ==> PatchStep(doc, val) == Failed(doc, ParseError(104))
    ensures val.Obj? && (!HasString(val.members, "op") || !HasString(val.members, "path")) ==>
              PatchStep(doc, val) == Failed(doc, ParseError(105))
    ensures val.Obj? && HasString(val.members, "op") && HasString(val.members, "path")
            && Parse(val.members["path"].s).Err? ==>
              PatchStep(doc, val) == Failed(doc, Parse(val.members["path"].s).error)
    ensures val.Obj? && HasString(val.members, "op") && HasString(val.members, "path")
            && Parse(val.members["path"].s).Ok?
            && val.members["op"].s !in {"add", "remove", "replace", "move", "copy", "test"} ==>
              PatchStep(doc, val) == Failed(doc, ParseError(105))
  {
  }

  /** The operations that need a value or a source throw without it. */
  lemma MissingMember(doc: Json, m: map<string, Json>)
    requires HasString(m, "op") && HasString(m, "path") && Parse(m["path"].s).Ok?
    ensures m["op"].s in {"add", "replace"} && "value" !in m ==> PatchStep(doc, Obj(m)) == Failed(doc, ParseError(105))
    ensures m["op"].s in {"move", "copy"} && !HasString(m, "from") ==>
              PatchStep(doc, Obj(m)) == Failed(doc, ParseError(105))
  {
  }

  /** A patch that is no array changes nothing. */
  lemma MalformedPatch(doc: Json, patch: Json)
    requires !patch.Arr?
    ensures PatchSpec(doc, patch) == Failed(doc, ParseError(104))
  {
  }

  /** What a removal throws: 405 at the root, what resolving the parent throws, 403 for a missing member, 401 beyond
      the end of an array. */
  lemma RemoveErrors(doc: Json, ptr: seq<string>)
    ensures var s := PatchStep(doc, RemoveOp(ToString(ptr)));
            (ptr == [] ==> s == Failed(doc, OutOfRange(405)))
            && (ptr != [] && At(doc, Parent(ptr)).Err? ==> s == Failed(doc, At(doc, Parent(ptr)).error))
            && (ptr != [] && At(doc, Parent(ptr)).Ok? ==>
                  var p, t := At(doc, Parent(ptr)).value, Last(ptr);
                  (p.Obj? && t !in p.members ==> s == Failed(doc, OutOfRange(403)))
                  && (p.Arr? && ArrayIndex(t).Err? ==> s == Failed(doc, ArrayIndex(t).error))
                  && (p.Arr? && ArrayIndex(t).Ok? && ArrayIndex(t).value >= |p.elems| ==>
                        s == Failed(doc, OutOfRange(401))))
  {
    ParsePrint(ptr);
  }

  /** A test that does not hold throws 501, unless the pointer has a malformed index, whose error is passed on. */
  lemma TestFails(doc: Json, ptr: seq<string>, val: Json)
    requires At(doc, ptr) != Ok(val)
    ensures PatchStep(doc, TestOp(ptr, val))
         == Failed(doc, if At(doc, ptr).Err? && At(doc, ptr).error.ParseError? then At(doc, ptr).error
                        else OtherError(501))
  {
    ParsePrint(ptr);
    ResolveThrows(doc, ptr);
  }

  /** Resolving throws only parse errors of indices and range errors. */
  lemma {:induction false} ResolveThrows(doc: Json, ts: seq<string>)
    ensures At(doc, ts).Err? ==> At(doc, ts).error.ParseError? || At(doc, ts).error.OutOfRange?
    decreases |ts|
  {
    if ts != [] && Child(doc, ts[0]).Ok? {
      ResolveThrows(Child(doc, ts[0]).value, ts[1..]);
    }
  }
}
