/** `unflatten`: creating values at pointers, in the order in which `std::map` visits the keys. */
module Unflattening {
  import opened Outcomes
  import opened JsonValue
  import opened JsonPointer
  import opened PointerResolution

  // ----- Creating a value at a pointer --------------------------------------------------------

  function Nulls(n: nat): seq<Json> {
    seq(n, _ => Null)
  }

  /** `operator[](idx)` fills a short array with nulls up to `idx`. */
  function Grown(a: seq<Json>, i: nat): seq<Json> {
    if i < |a| then a else a + Nulls(i + 1 - |a|)
  }

  /** `get_and_create` followed by the assignment of `val` to the returned reference. */
  function Create(j: Json, tokens: seq<string>, val: Json): Result<Json>
    decreases |tokens|
  {
    if tokens == [] then
      Ok(val)
    else
      var t, rest := tokens[0], tokens[1..];
      match j
      case Null =>
        var c :- Create(Null, rest, val);
        Ok(if t == "0" then Arr([c]) else Obj(map[t := c]))
      case Obj(m) =>
        var c :- Create(MemberOrNull(m, t), rest, val);
        Ok(Obj(m[t := c]))
      case Arr(a) =>
        var i :- ArrayIndex(t);
        var c :- Create(Grown(a, i)[i], rest, val);
        Ok(Arr(Grown(a, i)[i := c]))
      case _ => Err(TypeError(313))
  }

  /** What `operator[]` makes of the current value so that it has a child `t`; null where there was none. */
  function Opened(j: Json, t: string): Result<Json> {
    match j
    case Null => Ok(if t == "0" then Arr([Null]) else Obj(map[t := Null]))
    case Obj(m) => Ok(Obj(m[t := MemberOrNull(m, t)]))
    case Arr(a) =>
      var i :- ArrayIndex(t);
      Ok(Arr(Grown(a, i)))
    case _ => Err(TypeError(313))
  }

  lemma ZeroIndex()
    ensures ArrayIndex("0") == Ok(0)
  {
    IndexOfDigits(0);
    assert Digits(0) == "0";
  }

  /** Opening the way first does not change what is created. */
  lemma OpenedCreate(j: Json, t: string, rest: seq<string>, val: Json)
    requires Opened(j, t).Ok?
    ensures Create(Opened(j, t).value, [t] + rest, val) == Create(j, [t] + rest, val)
    ensures Child(Opened(j, t).value, t).Ok?
  {
    assert ([t] + rest)[1..] == rest;
    if j.Null? {
      var c := Create(Null, rest, val);
      ZeroIndex();
      assert c.Ok? ==> [Null][0 := c.value] == [c.value] && map[t := Null][t := c.value] == map[t := c.value];
    } else if j.Obj? {
      var m, c := j.members, Create(MemberOrNull(j.members, t), rest, val);
      assert c.Ok? ==> m[t := MemberOrNull(m, t)][t := c.value] == m[t := c.value];
    } else {
      DashIsNoIndex();
    }
  }

  lemma DashIsNoIndex()
    ensures ArrayIndex("-").Err?
  {
    assert !IsDigit("-"[0]);
  }

  lemma StuckCreate(j: Json, t: string, rest: seq<string>, val: Json)
    requires Opened(j, t).Err?
    ensures Create(j, [t] + rest, val) == Err(Opened(j, t).error)
  {
  }

  function WithinResult(doc: Json, ts: seq<string>, r: Result<Json>): Result<Json>
    requires At(doc, ts).Ok?
  {
    var v :- r;
    Ok(SetAt(doc, ts, v))
  }

  /** Along places that exist, creating is assigning. */
  lemma {:induction false} CreateBelow(doc: Json, ts: seq<string>, us: seq<string>, val: Json)
    requires At(doc, ts).Ok?
    ensures Create(doc, ts + us, val) == WithinResult(doc, ts, Create(At(doc, ts).value, us, val))
    decreases |ts|
  {
    if ts == [] {
      assert ts + us == us;
    } else {
      assert (ts + us)[1..] == ts[1..] + us;
      CreateBelow(Child(doc, ts[0]).value, ts[1..], us, val);
    }
  }

  lemma OpenStep(doc: Json, ts: seq<string>, t: string, rest: seq<string>, val: Json)
    requires At(doc, ts).Ok? && Opened(At(doc, ts).value, t).Ok?
    ensures var doc' := SetAt(doc, ts, Opened(At(doc, ts).value, t).value);
            At(doc', ts + [t]).Ok? && Create(doc', ts + ([t] + rest), val) == Create(doc, ts + ([t] + rest), val)
  {
    var p := At(doc, ts).value;
    var p' := Opened(p, t).value;
    var doc' := SetAt(doc, ts, p');
    OpenedCreate(p, t, rest, val);
    AtSetHere(doc, ts, p');
    AtSnoc(doc', ts, t);
    CreateBelow(doc, ts, [t] + rest, val);
    CreateBelow(doc', ts, [t] + rest, val);
    var c := Create(p, [t] + rest, val);
    if c.Ok? {
      SetOver(doc, ts, p', c.value);
    }
  }

  /** The moving pointer of `get_and_create`, and the assignment through it. */
  method GetAndCreate(j: Json, tokens: seq<string>, val: Json) returns (r: Result<Json>)
    ensures r == Create(j, tokens, val)
  {
    var doc := j;
    for n := 0 to |tokens|
      invariant At(doc, tokens[..n]).Ok? && Create(doc, tokens, val) == Create(j, tokens, val)
    {
      var t, path, rest := tokens[n], tokens[..n], tokens[n + 1..];
      assert tokens == path + ([t] + rest) && tokens[..n + 1] == path + [t];
      var current := At(doc, path).value;
      var way := Opened(current, t);
      if way.Err? {
        StuckCreate(current, t, rest, val);
        CreateBelow(doc, path, [t] + rest, val);
        return Err(way.error);
      }
      OpenStep(doc, path, t, rest, val);
      doc := SetAt(doc, path, way.value);
    }
    assert tokens[..|tokens|] == tokens && tokens + [] == tokens;
    CreateBelow(doc, tokens, [], val);
    return Ok(SetAt(doc, tokens, val));
  }

  datatype Entry = Entry(path: seq<string>, value: Json)

  /** Creating the entries one after the other. */
  function Build(j: Json, es: seq<Entry>): Result<Json>
    decreases |es|
  {
    if es == [] then
      Ok(j)
    else
      var next :- Create(j, es[0].path, es[0].value);
      Build(next, es[1..])
  }

  // ----- The loop of unflatten ----------------------------------------------------------------

  /** The rest of the loop from the member `keys[0]` on. */
  function UnflattenFrom(result: Json, m: map<string, Json>, keys: seq<string>): Result<Json>
    requires forall k :: k in keys ==> k in m
    decreases |keys|
  {
    if keys == [] then
      Ok(result)
    else if !IsPrimitive(m[keys[0]]) then
      Err(TypeError(315))
    else
      var tokens :- Parse(keys[0]);
      var next :- Create(result, tokens, m[keys[0]]);
      UnflattenFrom(next, m, keys[1..])
  }

  function UnflattenSpec(value: Json): Result<Json> {
    if value.Obj? then UnflattenFrom(Null, value.members, Keys(value.members)) else Err(TypeError(314))
  }

  /** `json_pointer::unflatten`: visits the members in key order. */
  method Unflatten(value: Json) returns (r: Result<Json>)
    ensures r == UnflattenSpec(value)
  {
    if !value.Obj? {
      return Err(TypeError(314));
    }
    var m := value.members;
    var keys := Keys(m);
    var result := Null;
    for i := 0 to |keys|
      invariant UnflattenSpec(value) == UnflattenFrom(result, m, keys[i..])
    {
      var k := keys[i];
      assert keys[i..][1..] == keys[i + 1..];
      if !IsPrimitive(m[k]) {
        return Err(TypeError(315));
      }
      var tokens := Split(k);
      if tokens.Err? {
        return Err(tokens.error);
      }
      var next := GetAndCreate(result, tokens.value, m[k]);
      if next.Err? {
        return next;
      }
      result := next.value;
    }
    return Ok(result);
  }

  // ----- Entries of one child -----------------------------------------------------------------

  /** The entries below the token `t`, in the same order. */
  function Sub(es: seq<Entry>, t: string): seq<Entry> {
    if es == [] then
      []
    else
      var e := es[0];
      (if e.path != [] && e.path[0] == t then [Entry(e.path[1..], e.value)] else []) + Sub(es[1..], t)
  }

  ghost predicate AllBelow(es: seq<Entry>) {
    forall i :: 0 <= i < |es| ==> es[i].path != []
  }

  lemma SubStep(es: seq<Entry>, t: string, j: Json)
    requires es != [] && es[0].path != []
    ensures es[0].path[0] != t ==> Sub(es, t) == Sub(es[1..], t)
    ensures es[0].path[0] == t ==>
      Build(j, Sub(es, t)) == var c := Create(j, es[0].path[1..], es[0].value);
                              if c.Ok? then Build(c.value, Sub(es[1..], t)) else c
  {
    if es[0].path[0] == t {
      var e := Entry(es[0].path[1..], es[0].value);
      assert Sub(es, t) == [e] + Sub(es[1..], t);
      assert ([e] + Sub(es[1..], t))[1..] == Sub(es[1..], t);
    }
  }

  ghost predicate Heads(es: seq<Entry>, k: string) {
    exists i :: 0 <= i < |es| && es[i].path != [] && es[i].path[0] == k
  }

  lemma HeadsStep(es: seq<Entry>, k: string)
    requires es != [] && es[0].path != []
    ensures Heads(es, k) <==> es[0].path[0] == k || Heads(es[1..], k)
  {
    if Heads(es[1..], k) {
      var i :| 0 <= i < |es[1..]| && es[1..][i].path != [] && es[1..][i].path[0] == k;
      assert es[i + 1].path[0] == k;
    }
    if Heads(es, k) {
      var i :| 0 <= i < |es| && es[i].path != [] && es[i].path[0] == k;
      assert i > 0 ==> es[1..][i - 1].path[0] == k;
    }
  }

  /** `r` has each member of an object built from the entries below its name, independently. */
  ghost predicate ObjectBuilt(m: map<string, Json>, es: seq<Entry>, r: Result<Json>) {
    (r.Ok? <==> forall k :: Build(MemberOrNull(m, k), Sub(es, k)).Ok?)
    && (r.Ok? ==>
          r.value.Obj? && (forall k :: k in r.value.members <==> k in m || Heads(es, k))
          && forall k :: k in r.value.members ==> Build(MemberOrNull(m, k), Sub(es, k)) == Ok(r.value.members[k]))
  }

  /** Building into an object builds each member from the entries below its name, independently. */
  lemma {:induction false} BuildObject(m: map<string, Json>, es: seq<Entry>)
    requires AllBelow(es)
    ensures ObjectBuilt(m, es, Build(Obj(m), es))
    decreases |es|
  {
    if es == [] {
      NothingBuilt(m);
    } else {
      var h := es[0].path[0];
      var c := Create(MemberOrNull(m, h), es[0].path[1..], es[0].value);
      if c.Ok? {
        BuildObject(m[h := c.value], es[1..]);
        BuildObjectStep(m, es, c.value, Build(Obj(m), es));
      } else {
        SubStep(es, h, MemberOrNull(m, h));
      }
    }
  }

  lemma NothingBuilt(m: map<string, Json>)
    ensures ObjectBuilt(m, [], Ok(Obj(m)))
  {
  }

  lemma BuildObjectStep(m: map<string, Json>, es: seq<Entry>, c: Json, r: Result<Json>)
    requires es != [] && es[0].path != []
    requires Create(MemberOrNull(m, es[0].path[0]), es[0].path[1..], es[0].value) == Ok(c)
    requires ObjectBuilt(m[es[0].path[0] := c], es[1..], r)
    ensures ObjectBuilt(m, es, r)
  {
    var m' := m[es[0].path[0] := c];
    forall k
      ensures Build(MemberOrNull(m', k), Sub(es[1..], k)) == Build(MemberOrNull(m, k), Sub(es, k))
      ensures Heads(es, k) <==> k == es[0].path[0] || Heads(es[1..], k)
    {
      HeadsStep(es, k);
      SubStep(es, k, MemberOrNull(m, k));
    }
  }

  lemma {:induction false} SubEmpty(es: seq<Entry>, k: string)
    requires AllBelow(es) && !Heads(es, k)
    ensures Sub(es, k) == []
    decreases |es|
  {
    if es != [] {
      HeadsStep(es, k);
      SubEmpty(es[1..], k);
    }
  }

  function ElemOrNull(a: seq<Json>, i: nat): Json {
    if i < |a| then a[i] else Null
  }

  ghost predicate IndexHeads(es: seq<Entry>) {
    AllBelow(es) && forall i :: 0 <= i < |es| ==> ArrayIndex(es[i].path[0]).Ok?
  }

  lemma DigitsInjective(i: nat, j: nat)
    requires Digits(i) == Digits(j)
    ensures i == j
  {
    DigitsCanonical(i);
    DigitsCanonical(j);
  }

  /** The length of the built array: room for every head, and no more than that or the old length. */
  ghost predicate Fits(a: seq<Json>, es: seq<Entry>, n: nat) {
    |a| <= n && forall i: nat :: Heads(es, Digits(i)) ==> i < n
  }

  /** Building into an array builds each element from the entries below its index, whatever the order
      in which the indices come and although gaps are filled with nulls on the way. */
  lemma {:induction false} BuildArray(a: seq<Json>, es: seq<Entry>)
    requires IndexHeads(es)
    ensures Build(Arr(a), es).Ok? <==> forall i: nat :: Build(ElemOrNull(a, i), Sub(es, Digits(i))).Ok?
    ensures Build(Arr(a), es).Ok? ==>
      var r := Build(Arr(a), es).value;
      r.Arr? && Fits(a, es, |r.elems|)
      && (forall n: nat :: Fits(a, es, n) ==> |r.elems| <= n)
      && forall i :: 0 <= i < |r.elems| ==> Build(ElemOrNull(a, i), Sub(es, Digits(i))) == Ok(r.elems[i])
    decreases |es|
  {
    if es != [] {
      var e := es[0];
      var x := ArrayIndex(e.path[0]).value;
      DigitsOfIndex(e.path[0]);
      var c := Create(ElemOrNull(a, x), e.path[1..], e.value);
      assert Grown(a, x)[x] == ElemOrNull(a, x);
      SubStep(es, Digits(x), ElemOrNull(a, x));
      if c.Ok? {
        var a' := Grown(a, x)[x := c.value];
        BuildArray(a', es[1..]);
        BuildArrayStep(a, a', es, x, c.value);
      }
    }
  }

  lemma BuildArrayStep(a: seq<Json>, a': seq<Json>, es: seq<Entry>, x: nat, c: Json)
    requires es != [] && es[0].path != [] && es[0].path[0] == Digits(x)
    requires a' == Grown(a, x)[x := c] && Create(ElemOrNull(a, x), es[0].path[1..], es[0].value) == Ok(c)
    ensures forall i: nat ::
              Build(ElemOrNull(a', i), Sub(es[1..], Digits(i))) == Build(ElemOrNull(a, i), Sub(es, Digits(i)))
    ensures forall n: nat :: Fits(a, es, n) <==> Fits(a', es[1..], n)
  {
    forall i: nat
      ensures Build(ElemOrNull(a', i), Sub(es[1..], Digits(i))) == Build(ElemOrNull(a, i), Sub(es, Digits(i)))
      ensures Heads(es, Digits(i)) <==> i == x || Heads(es[1..], Digits(i))
    {
      HeadsStep(es, Digits(i));
      SubStep(es, Digits(i), ElemOrNull(a, i));
      if Digits(i) == Digits(x) {
        DigitsInjective(i, x);
      }
    }
    assert |a'| == if x < |a| then |a| else x + 1;
  }

  lemma {:induction false} ArrayStays(a: seq<Json>, es: seq<Entry>)
    requires AllBelow(es) && Build(Arr(a), es).Ok?
    ensures Build(Arr(a), es).value.Arr?
    decreases |es|
  {
    if es != [] {
      ArrayStays(Create(Arr(a), es[0].path, es[0].value).value.elems, es[1..]);
    }
  }

  // ----- Exceptions ---------------------------------------------------------------------------

  /** What `unflatten` throws on a value that is no object, and at a member that is no primitive or whose key is no
      pointer, when it gets there. */
  lemma UnflattenErrors(result: Json, m: map<string, Json>, keys: seq<string>)
    requires keys != [] && forall k :: k in keys ==> k in m
    ensures forall v: Json :: !v.Obj? ==> UnflattenSpec(v) == Err(TypeError(314))
    ensures m[keys[0]].Arr? || m[keys[0]].Obj? ==> UnflattenFrom(result, m, keys) == Err(TypeError(315))
    ensures !m[keys[0]].Arr? && !m[keys[0]].Obj? && Parse(keys[0]).Err? ==>
              UnflattenFrom(result, m, keys) == Err(Parse(keys[0]).error)
  {
  }

  /** Creating a value below an existing boolean, number or string throws 313. */
  lemma CreateBelowPrimitive(doc: Json, ts: seq<string>, t: string, rest: seq<string>, val: Json)
    requires At(doc, ts).Ok? && !At(doc, ts).value.Null? && !At(doc, ts).value.Arr? && !At(doc, ts).value.Obj?
    ensures Create(doc, ts + ([t] + rest), val) == Err(TypeError(313))
  {
    CreateBelow(doc, ts, [t] + rest, val);
  }
}
