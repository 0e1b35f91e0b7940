/** Applying a JSON Patch (RFC 6902) in place. */
module JsonPatch {
  import opened Outcomes
  import opened JsonValue
  import opened JsonPointer
  import opened PointerResolution

  // ----- Adding and removing ------------------------------------------------------------------

  /** The `switch` of `operation_add` on the parent of the added value. */
  function AddChild(parent: Json, token: string, val: Json): Result<Json> {
    match parent
    case Null => Ok(Obj(map[token := val]))
    case Obj(m) => Ok(Obj(m[token := val]))
    case Arr(a) =>
      if token == "-" then
        Ok(Arr(a + [val]))
      else
        var idx :- ArrayIndex(token);
        if idx > |a| then Err(OutOfRange(401)) else Ok(Arr(a[..idx] + [val] + a[idx..]))
    case _ => Err(AssertionFailure)
  }

  /** The branches of `operation_remove` on the parent of the removed value; a parent that is neither
      object nor array is left alone without an error. */
  function RemoveChild(parent: Json, token: string): Result<Json> {
    match parent
    case Obj(m) => if token in m then Ok(Obj(m - {token})) else Err(OutOfRange(403))
    case Arr(a) =>
      var idx :- ArrayIndex(token);
      if idx >= |a| then Err(OutOfRange(401)) else Ok(Arr(a[..idx] + a[idx + 1..]))
    case _ => Ok(parent)
  }

  function Parent(ptr: seq<string>): seq<string>
    requires ptr != []
  {
    ptr[..|ptr| - 1]
  }

  function Last(ptr: seq<string>): string
    requires ptr != []
  {
    ptr[|ptr| - 1]
  }

  function OperationAdd(doc: Json, ptr: seq<string>, val: Json): Result<Json> {
    if ptr == [] then
      Ok(val)
    else
      var top :- if |ptr| > 1 then At(doc, ptr[..1]) else Ok(doc);
      var parent :- At(doc, Parent(ptr));
      var changed :- AddChild(parent, Last(ptr), val);
      Ok(SetAt(doc, Parent(ptr), changed))
  }

  function OperationRemove(doc: Json, ptr: seq<string>): Result<Json> {
    if ptr == [] then
      Err(OutOfRange(405))
    else
      var parent :- At(doc, Parent(ptr));
      var changed :- RemoveChild(parent, Last(ptr));
      Ok(SetAt(doc, Parent(ptr), changed))
  }

  lemma AddAt(doc: Json, ts: seq<string>, t: string, val: Json)
    requires At(doc, ts).Ok?
    ensures OperationAdd(doc, ts + [t], val)
         == if AddChild(At(doc, ts).value, t, val).Ok?
            then Ok(SetAt(doc, ts, AddChild(At(doc, ts).value, t, val).value))
            else Err(AddChild(At(doc, ts).value, t, val).error)
  {
    var ptr := ts + [t];
    if ts != [] {
      TopExists(doc, ts);
      assert ptr[..1] == ts[..1];
    }
    AddBelow(doc, ptr, ts, t, val);
  }

  lemma AddBelow(doc: Json, ptr: seq<string>, ts: seq<string>, t: string, val: Json)
    requires ptr == ts + [t] && At(doc, ts).Ok? && (|ptr| > 1 ==> At(doc, ptr[..1]).Ok?)
    ensures OperationAdd(doc, ptr, val)
         == if AddChild(At(doc, ts).value, t, val).Ok?
            then Ok(SetAt(doc, ts, AddChild(At(doc, ts).value, t, val).value))
            else Err(AddChild(At(doc, ts).value, t, val).error)
  {
    assert Parent(ptr) == ts && Last(ptr) == t;
  }

  /** Above an existing place, the first place exists too. */
  lemma TopExists(doc: Json, ts: seq<string>)
    requires ts != [] && At(doc, ts).Ok?
    ensures At(doc, ts[..1]).Ok?
  {
    AtConcat(doc, ts[..1], ts[1..]);
    assert ts[..1] + ts[1..] == ts;
  }

  lemma RemoveAt(doc: Json, ts: seq<string>, t: string)
    requires At(doc, ts).Ok?
    ensures OperationRemove(doc, ts + [t])
         == if RemoveChild(At(doc, ts).value, t).Ok?
            then Ok(SetAt(doc, ts, RemoveChild(At(doc, ts).value, t).value))
            else Err(RemoveChild(At(doc, ts).value, t).error)
  {
    assert Parent(ts + [t]) == ts;
  }

  // ----- Operations as documents --------------------------------------------------------------

  function ReplaceOp(path: string, value: Json): Json {
    Obj(map["op" := Str("replace"), "path" := Str(path), "value" := value])
  }

  function RemoveOp(path: string): Json {
    Obj(map["op" := Str("remove"), "path" := Str(path)])
  }

  function AddOp(path: string, value: Json): Json {
    Obj(map["op" := Str("add"), "path" := Str(path), "value" := value])
  }

  // ----- One operation ------------------------------------------------------------------------

  /** The document after an operation or a whole patch; on an exception, `doc` is what is left behind. */
  datatype Step = Done(doc: Json) | Failed(doc: Json, error: Error)

  function Lift(doc: Json, r: Result<Json>): Step {
    if r.Ok? then Done(r.value) else Failed(doc, r.error)
  }

  /** The `get_value` wrapper. */
  function Member(op: map<string, Json>, name: string): Result<Json> {
    if name in op then Ok(op[name]) else Err(ParseError(105))
  }

  function StringMember(op: map<string, Json>, name: string): Result<string> {
    var v :- Member(op, name);
    if v.Str? then Ok(v.s) else Err(ParseError(105))
  }

  function PointerMember(op: map<string, Json>, name: string): Result<seq<string>> {
    var s :- StringMember(op, name);
    Parse(s)
  }

  function Replace(doc: Json, ptr: seq<string>, op: map<string, Json>): Result<Json> {
    var v :- Member(op, "value");
    var found :- At(doc, ptr);
    Ok(SetAt(doc, ptr, v))
  }

  function Add(doc: Json, ptr: seq<string>, op: map<string, Json>): Result<Json> {
    var v :- Member(op, "value");
    OperationAdd(doc, ptr, v)
  }

  function Copy(doc: Json, ptr: seq<string>, op: map<string, Json>): Result<Json> {
    var from :- PointerMember(op, "from");
    var v :- At(doc, from);
    OperationAdd(doc, ptr, v)
  }

  /** Removal, then addition: if the addition throws, the removal has already happened. */
  function Move(doc: Json, ptr: seq<string>, op: map<string, Json>): Step {
    var from := PointerMember(op, "from");
    if from.Err? then
      Failed(doc, from.error)
    else
      var v := At(doc, from.value);
      var removed := OperationRemove(doc, from.value);
      if v.Err? then
        Failed(doc, v.error)
      else if removed.Err? then
        Failed(doc, removed.error)
      else
        Lift(removed.value, OperationAdd(removed.value, ptr, v.value))
  }

  /** Only `out_of_range` exceptions are turned into an unsuccessful test. */
  function Test(doc: Json, ptr: seq<string>, op: map<string, Json>): Result<Json> {
    var found := At(doc, ptr);
    if found.Err? && !found.error.OutOfRange? then
      found
    else
      var v :- Member(op, "value");
      if found == Ok(v) then Ok(doc) else Err(OtherError(501))
  }

  function Dispatch(doc: Json, name: string, ptr: seq<string>, op: map<string, Json>): Step {
    if name == "add" then
      Lift(doc, Add(doc, ptr, op))
    else if name == "remove" then
      Lift(doc, OperationRemove(doc, ptr))
    else if name == "replace" then
      Lift(doc, Replace(doc, ptr, op))
    else if name == "move" then
      Move(doc, ptr, op)
    else if name == "copy" then
      Lift(doc, Copy(doc, ptr, op))
    else if name == "test" then
      Lift(doc, Test(doc, ptr, op))
    else
      Failed(doc, ParseError(105))
  }

  /** One iteration of `patch_inplace`. */
  function PatchStep(doc: Json, val: Json): Step {
    if !val.Obj? then
      Failed(doc, ParseError(104))
    else
      var name := StringMember(val.members, "op");
      if name.Err? then
        Failed(doc, name.error)
      else
        var ptr := PointerMember(val.members, "path");
        if ptr.Err? then Failed(doc, ptr.error) else Dispatch(doc, name.value, ptr.value, val.members)
  }

  // ----- A whole patch ------------------------------------------------------------------------

  /** The operations in order, stopping at the first exception. */
  function ApplyAll(doc: Json, ops: seq<Json>): Step
    decreases |ops|
  {
    if ops == [] then
      Done(doc)
    else
      var first := PatchStep(doc, ops[0]);
      if first.Failed? then first else ApplyAll(first.doc, ops[1..])
  }

  lemma {:induction false} ApplyConcat(doc: Json, a: seq<Json>, b: seq<Json>)
    ensures ApplyAll(doc, a + b)
         == var s := ApplyAll(doc, a); if s.Failed? then s else ApplyAll(s.doc, b)
    decreases |a|
  {
    if a == [] {
      assert a + b == b;
    } else {
      assert (a + b)[1..] == a[1..] + b;
      var first := PatchStep(doc, a[0]);
      if first.Done? {
        ApplyConcat(first.doc, a[1..], b);
      }
    }
  }

  lemma ApplyOne(doc: Json, op: Json)
    ensures ApplyAll(doc, [op]) == PatchStep(doc, op)
  {
    var s := PatchStep(doc, op);
    assert [op][1..] == [];
    assert ApplyAll(s.doc, []) == Done(s.doc);
  }

  function PatchSpec(doc: Json, patch: Json): Step {
    if patch.Arr? then ApplyAll(doc, patch.elems) else Failed(doc, ParseError(104))
  }

  datatype Thrown = Nothing | Exception(error: Error)

  /** What an operation throws when its result is `s`. */
  function ThrownBy(s: Step): Thrown {
    match s
    case Done(_) => Nothing
    case Failed(_, e) => Exception(e)
  }

  /** A document that is patched in place. The methods assign `root` where the code changes the document,
      so that what an exception leaves behind comes from their control flow. */
  class Document {
    var root: Json

    constructor (root: Json)
      ensures this.root == root
    {
      this.root := root;
    }

    /** The lambda `operation_add`: all its checks come before the one assignment. */
    method AddValue(ptr: seq<string>, val: Json) returns (thrown: Thrown)
      modifies this
      ensures thrown.Exception? ==> root == old(root)
      ensures thrown == ThrownBy(Lift(old(root), OperationAdd(old(root), ptr, val)))
      ensures thrown.Nothing? ==> OperationAdd(old(root), ptr, val) == Ok(root)
    {
      if ptr == [] {
        root := val;
        return Nothing;
      }
      if |ptr| > 1 {
        var top := GetChecked(root, ptr[..1]);
        if top.Err? {
          return Exception(top.error);
        }
      }
      var last, up := Last(ptr), Parent(ptr);
      var parent := GetChecked(root, up);
      if parent.Err? {
        return Exception(parent.error);
      }
      match parent.value {
        case Null =>
          root := SetAt(root, up, Obj(map[last := val]));
        case Obj(m) =>
          root := SetAt(root, up, Obj(m[last := val]));
        case Arr(a) =>
          if last == "-" {
            root := SetAt(root, up, Arr(a + [val]));
          } else {
            var idx := ArrayIndex(last);
            if idx.Err? {
              return Exception(idx.error);
            }
            if idx.value > |a| {
              return Exception(OutOfRange(401));
            }
            root := SetAt(root, up, Arr(a[..idx.value] + [val] + a[idx.value..]));
          }
        case _ =>
          return Exception(AssertionFailure);
      }
      return Nothing;
    }

    /** The lambda `operation_remove`. */
    method RemoveValue(ptr: seq<string>) returns (thrown: Thrown)
      modifies this
      ensures thrown.Exception? ==> root == old(root)
      ensures thrown == ThrownBy(Lift(old(root), OperationRemove(old(root), ptr)))
      ensures thrown.Nothing? ==> OperationRemove(old(root), ptr) == Ok(root)
    {
      if ptr == [] {
        return Exception(OutOfRange(405));
      }
      var last, up := Last(ptr), Parent(ptr);
      var parent := GetChecked(root, up);
      if parent.Err? {
        return Exception(parent.error);
      }
      match parent.value {
        case Obj(m) =>
          if last !in m {
            return Exception(OutOfRange(403));
          }
          root := SetAt(root, up, Obj(m - {last}));
        case Arr(a) =>
          var idx := ArrayIndex(last);
          if idx.Err? {
            return Exception(idx.error);
          }
          if idx.value >= |a| {
            return Exception(OutOfRange(401));
          }
          root := SetAt(root, up, Arr(a[..idx.value] + a[idx.value + 1..]));
        case _ =>
          SetSame(root, up);
      }
      return Nothing;
    }

    method ReplaceValue(ptr: seq<string>, op: map<string, Json>) returns (thrown: Thrown)
      modifies this
      ensures thrown.Exception? ==> root == old(root)
      ensures thrown == ThrownBy(Lift(old(root), Replace(old(root), ptr, op)))
      ensures thrown.Nothing? ==> Replace(old(root), ptr, op) == Ok(root)
    {
      var v := Member(op, "value");
      if v.Err? {
        return Exception(v.error);
      }
      var found := GetChecked(root, ptr);
      if found.Err? {
        return Exception(found.error);
      }
      root := SetAt(root, ptr, v.value);
      return Nothing;
    }

    /** Two changes, one after the other: if the second throws, the first stays. */
    method MoveValue(ptr: seq<string>, op: map<string, Json>) returns (thrown: Thrown)
      modifies this
      ensures root == Move(old(root), ptr, op).doc && thrown == ThrownBy(Move(old(root), ptr, op))
    {
      var from := PointerMember(op, "from");
      if from.Err? {
        return Exception(from.error);
      }
      var v := GetChecked(root, from.value);
      if v.Err? {
        return Exception(v.error);
      }
      thrown := RemoveValue(from.value);
      if thrown.Exception? {
        return;
      }
      thrown := AddValue(ptr, v.value);
    }

    method CopyValue(ptr: seq<string>, op: map<string, Json>) returns (thrown: Thrown)
      modifies this
      ensures thrown.Exception? ==> root == old(root)
      ensures thrown == ThrownBy(Lift(old(root), Copy(old(root), ptr, op)))
      ensures thrown.Nothing? ==> Copy(old(root), ptr, op) == Ok(root)
    {
      var from := PointerMember(op, "from");
      if from.Err? {
        return Exception(from.error);
      }
      var v := GetChecked(root, from.value);
      if v.Err? {
        return Exception(v.error);
      }
      thrown := AddValue(ptr, v.value);
    }

    method TestValue(ptr: seq<string>, op: map<string, Json>) returns (thrown: Thrown)
      ensures thrown == ThrownBy(Lift(root, Test(root, ptr, op)))
      ensures thrown.Nothing? ==> Test(root, ptr, op) == Ok(root)
    {
      var success := false;
      var found := GetChecked(root, ptr);
      if found.Err? && !found.error.OutOfRange? {
        return Exception(found.error);
      }
      var v := Member(op, "value");
      if v.Err? {
        return Exception(v.error);
      }
      success := found == Ok(v.value);
      if !success {
        return Exception(OtherError(501));
      }
      return Nothing;
    }

    /** One iteration of the loop: an exception leaves the document as it was, unless the operation is a
        move. */
    method Perform(val: Json) returns (thrown: Thrown)
      modifies this
      ensures root == PatchStep(old(root), val).doc && thrown == ThrownBy(PatchStep(old(root), val))
      ensures thrown.Exception? && root != old(root) ==>
                val.Obj? && "op" in val.members && val.members["op"] == Str("move")
    {
      if !val.Obj? {
        return Exception(ParseError(104));
      }
      var op := val.members;
      var name := StringMember(op, "op");
      if name.Err? {
        return Exception(name.error);
      }
      var ptr := PointerMember(op, "path");
      if ptr.Err? {
        return Exception(ptr.error);
      }
      thrown := Run(name.value, ptr.value, op);
    }

    method Run(name: string, ptr: seq<string>, op: map<string, Json>) returns (thrown: Thrown)
      modifies this
      ensures root == Dispatch(old(root), name, ptr, op).doc
      ensures thrown == ThrownBy(Dispatch(old(root), name, ptr, op))
      ensures thrown.Exception? && name != "move" ==> root == old(root)
    {
      if name == "add" {
        var v := Member(op, "value");
        if v.Err? {
          return Exception(v.error);
        }
        thrown := AddValue(ptr, v.value);
      } else if name == "remove" {
        thrown := RemoveValue(ptr);
      } else if name == "replace" {
        thrown := ReplaceValue(ptr, op);
      } else if name == "move" {
        thrown := MoveValue(ptr, op);
      } else if name == "copy" {
        thrown := CopyValue(ptr, op);
      } else if name == "test" {
        thrown := TestValue(ptr, op);
      } else {
        thrown := Exception(ParseError(105));
      }
    }

    /** `basic_json::patch_inplace`: when an operation throws, the earlier ones stay applied. */
    method PatchInPlace(patch: Json) returns (thrown: Thrown)
      modifies this
      ensures root == PatchSpec(old(root), patch).doc && thrown == ThrownBy(PatchSpec(old(root), patch))
    {
      if !patch.Arr? {
        return Exception(ParseError(104));
      }
      var ops := patch.elems;
      for n := 0 to |ops|
        invariant PatchSpec(old(root), patch) == ApplyAll(root, ops[n..])
      {
        assert ops[n..][1..] == ops[n + 1..];
        thrown := Perform(ops[n]);
        if thrown.Exception? {
          return;
        }
      }
      return Nothing;
    }
  }

  /** `basic_json::patch`: works on a copy, so an exception leaves no trace. */
  method Patch(doc: Json, patch: Json) returns (r: Result<Json>)
    ensures r == match PatchSpec(doc, patch)
                 case Done(d) => Ok(d)
                 case Failed(_, e) => Err(e)
  {
    var copy := new Document(doc);
    var thrown := copy.PatchInPlace(patch);
    match thrown
    case Nothing => return Ok(copy.root);
    case Exception(e) => return Err(e);
  }
}
