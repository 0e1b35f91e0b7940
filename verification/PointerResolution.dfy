/** Resolving a JSON Pointer in a document, and writing through the resolved reference. */
module PointerResolution {
  import opened Outcomes
  import opened JsonValue
  import opened JsonPointer

  /** One token of `get_checked`. */
  function Child(j: Json, token: string): Result<Json> {
    match j
    case Obj(m) => if token in m then Ok(m[token]) else Err(OutOfRange(403))
    case Arr(a) =>
      if token == "-" then
        Err(OutOfRange(402))
      else
        var i :- ArrayIndex(token);
        if i < |a| then Ok(a[i]) else Err(OutOfRange(401))
    case _ => Err(OutOfRange(404))
  }

  /** `basic_json::at(json_pointer)`. */
  function At(j: Json, tokens: seq<string>): Result<Json> {
    if tokens == [] then
      Ok(j)
    else
      var c :- Child(j, tokens[0]);
      At(c, tokens[1..])
  }

  function Then(r: Result<Json>, tokens: seq<string>): Result<Json> {
    var j :- r;
    At(j, tokens)
  }

  /** The document after `v` is assigned through the reference that `tokens` resolves to. */
  function SetAt(j: Json, tokens: seq<string>, v: Json): Json
    requires At(j, tokens).Ok?
  {
    if tokens == [] then
      v
    else if j.Obj? then
      Obj(j.members[tokens[0] := SetAt(j.members[tokens[0]], tokens[1..], v)])
    else
      var i := ArrayIndex(tokens[0]).value;
      Arr(j.elems[i := SetAt(j.elems[i], tokens[1..], v)])
  }

  // ----- Laws of resolution and assignment ----------------------------------------------------

  lemma {:induction false} AtConcat(j: Json, ts: seq<string>, us: seq<string>)
    ensures At(j, ts + us) == Then(At(j, ts), us)
    decreases |ts|
  {
    if ts == [] {
      assert ts + us == us;
    } else {
      assert (ts + us)[1..] == ts[1..] + us;
      var c := Child(j, ts[0]);
      if c.Ok? {
        AtConcat(c.value, ts[1..], us);
      }
    }
  }

  lemma AtSnoc(j: Json, ts: seq<string>, t: string)
    ensures At(j, ts + [t]) == if At(j, ts).Ok? then Child(At(j, ts).value, t) else At(j, ts)
  {
    AtConcat(j, ts, [t]);
    if At(j, ts).Ok? {
      var c := Child(At(j, ts).value, t);
      assert [t][1..] == [];
      assert c.Ok? ==> At(c.value, []) == c;
    }
  }

  /** Below the assigned place one sees the assigned value. */
  lemma {:induction false} AtSet(j: Json, ts: seq<string>, v: Json, us: seq<string>)
    requires At(j, ts).Ok?
    ensures At(SetAt(j, ts, v), ts + us) == At(v, us)
    decreases |ts|
  {
    if ts == [] {
      assert ts + us == us;
    } else {
      assert (ts + us)[1..] == ts[1..] + us;
      AtSet(Child(j, ts[0]).value, ts[1..], v, us);
    }
  }

  lemma AtSetHere(j: Json, ts: seq<string>, v: Json)
    requires At(j, ts).Ok?
    ensures At(SetAt(j, ts, v), ts) == Ok(v)
  {
    AtSet(j, ts, v, []);
    assert ts + [] == ts;
  }

  /** Assigning below a place assigns the updated subdocument at that place. */
  lemma {:induction false} SetConcat(j: Json, ts: seq<string>, us: seq<string>, w: Json)
    requires At(j, ts + us).Ok?
    ensures At(j, ts).Ok? && At(At(j, ts).value, us).Ok?
    ensures SetAt(j, ts + us, w) == SetAt(j, ts, SetAt(At(j, ts).value, us, w))
    decreases |ts|
  {
    AtConcat(j, ts, us);
    if ts == [] {
      assert ts + us == us;
    } else {
      assert (ts + us)[1..] == ts[1..] + us;
      SetConcat(Child(j, ts[0]).value, ts[1..], us, w);
    }
  }

  /** The document with its existing child `t` replaced. */
  function With(j: Json, t: string, c: Json): Json
    requires Child(j, t).Ok?
  {
    if j.Obj? then Obj(j.members[t := c]) else Arr(j.elems[ArrayIndex(t).value := c])
  }

  lemma SetStep(j: Json, ts: seq<string>, v: Json)
    requires ts != [] && At(j, ts).Ok?
    ensures SetAt(j, ts, v) == With(j, ts[0], SetAt(Child(j, ts[0]).value, ts[1..], v))
  {
  }

  lemma WithOver(j: Json, t: string, a: Json, b: Json)
    requires Child(j, t).Ok?
    ensures Child(With(j, t, a), t) == Ok(a) && With(With(j, t, a), t, b) == With(j, t, b)
  {
    if j.Obj? {
      assert j.members[t := a][t := b] == j.members[t := b];
    }
  }

  lemma {:induction false} SetOver(j: Json, ts: seq<string>, v: Json, w: Json)
    requires At(j, ts).Ok?
    ensures At(SetAt(j, ts, v), ts).Ok?
    ensures SetAt(SetAt(j, ts, v), ts, w) == SetAt(j, ts, w)
    decreases |ts|
  {
    AtSetHere(j, ts, v);
    if ts != [] {
      SetOver(Child(j, ts[0]).value, ts[1..], v, w);
      SetStep(j, ts, v);
      SetStep(j, ts, w);
      SetStep(SetAt(j, ts, v), ts, w);
      WithOver(j, ts[0], SetAt(Child(j, ts[0]).value, ts[1..], v), SetAt(Child(j, ts[0]).value, ts[1..], w));
    }
  }

  lemma {:induction false} SetSame(j: Json, ts: seq<string>)
    requires At(j, ts).Ok?
    ensures SetAt(j, ts, At(j, ts).value) == j
    decreases |ts|
  {
    if ts != [] {
      SetSame(Child(j, ts[0]).value, ts[1..]);
    }
  }

  /** Places that diverge from the assigned one are unaffected. */
  lemma {:induction false} SetFrame(j: Json, ts: seq<string>, v: Json, us: seq<string>, k: nat)
    requires At(j, ts).Ok?
    requires k < |ts| && k < |us| && ts[k] != us[k]
    ensures At(SetAt(j, ts, v), us) == At(j, us)
    decreases |ts|
  {
    if ts[0] == us[0] {
      SetFrame(Child(j, ts[0]).value, ts[1..], v, us[1..], k - 1);
    } else {
      ChildFrame(j, ts, v, us[0]);
    }
  }

  lemma ChildFrame(j: Json, ts: seq<string>, v: Json, u: string)
    requires ts != [] && At(j, ts).Ok? && ts[0] != u
    ensures Child(SetAt(j, ts, v), u) == Child(j, u)
  {
    if j.Arr? && ArrayIndex(u).Ok? {
      IndexInjective(ts[0], u);
    }
  }

  lemma IndexInjective(t: string, u: string)
    requires ArrayIndex(t).Ok? && ArrayIndex(u).Ok? && t != u
    ensures ArrayIndex(t).value != ArrayIndex(u).value
  {
    DigitsOfIndex(t);
    DigitsOfIndex(u);
  }

  // ----- The resolution loops -----------------------------------------------------------------

  /** `json_pointer::get_checked`. */
  method GetChecked(j: Json, tokens: seq<string>) returns (r: Result<Json>)
    ensures r == At(j, tokens)
  {
    var ptr := j;
    for n := 0 to |tokens|
      invariant At(j, tokens) == At(ptr, tokens[n..])
    {
      var token := tokens[n];
      assert tokens[n..][1..] == tokens[n + 1..];
      match ptr {
        case Obj(m) =>
          if token !in m {
            return Err(OutOfRange(403));
          }
          ptr := m[token];
        case Arr(a) =>
          if token == "-" {
            return Err(OutOfRange(402));
          }
          var idx := ArrayIndex(token);
          if idx.Err? {
            return Err(idx.error);
          }
          if idx.value >= |a| {
            return Err(OutOfRange(401));
          }
          ptr := a[idx.value];
        case _ =>
          return Err(OutOfRange(404));
      }
    }
    return Ok(ptr);
  }

  /** A token that `contains` lets through to `array_index`, which then throws on it. */
  predicate Unindexable(token: string) {
    token == [] || (ArrayIndex(token).Err? && AllDigits(token) && (|token| > 1 ==> token[0] != '0'))
  }

  /** Walking `tokens` reaches an array with an unindexable token to take. */
  ghost predicate Trips(j: Json, tokens: seq<string>) {
    exists k :: 0 <= k < |tokens| && TripsAt(j, tokens, k)
  }

  ghost predicate TripsAt(j: Json, tokens: seq<string>, k: nat)
    requires k < |tokens|
  {
    At(j, tokens[..k]).Ok? && At(j, tokens[..k]).value.Arr? && Unindexable(tokens[k])
  }

  predicate Plausible(token: string) {
    AllDigits(token) && (|token| > 1 ==> token[0] != '0')
  }

  lemma PlausibleIndex(token: string)
    ensures ArrayIndex(token).Ok? ==> Plausible(token)
    ensures Unindexable(token) <==> Plausible(token) && ArrayIndex(token).Err?
    ensures Unindexable(token) ==>
              ArrayIndex(token).error == OutOfRange(404) || ArrayIndex(token).error == OutOfRange(410)
  {
  }

  /** The checks of `contains` on the token of an array. */
  method LooksLikeIndex(token: string) returns (plausible: bool)
    ensures plausible <==> Plausible(token)
  {
    if token == "-" {
      assert !IsDigit(token[0]);
      return false;
    }
    if |token| == 1 && !IsDigit(token[0]) {
      return false;
    }
    if |token| > 1 {
      if !('1' <= token[0] <= '9') {
        return false;
      }
      for i := 1 to |token|
        invariant forall c :: 0 <= c < i ==> IsDigit(token[c])
      {
        if !IsDigit(token[i]) {
          return false;
        }
      }
    }
    return true;
  }

  /** `json_pointer::contains`: true exactly when `get_checked` succeeds, and an exception exactly when
      the walk meets an array with the empty token or with an index that `std::size_t` cannot hold. */
  method Contains(j: Json, tokens: seq<string>) returns (r: Result<bool>)
    ensures r == Ok(true) <==> At(j, tokens).Ok?
    ensures r.Err? <==> Trips(j, tokens)
    ensures r.Err? ==> r.error == OutOfRange(404) || r.error == OutOfRange(410)
  {
    var ptr := j;
    for n := 0 to |tokens|
      invariant At(j, tokens) == At(ptr, tokens[n..])
      invariant At(j, tokens[..n]) == Ok(ptr)
      invariant forall k :: 0 <= k < n ==> !TripsAt(j, tokens, k)
    {
      var token := tokens[n];
      assert tokens[n..][1..] == tokens[n + 1..];
      assert tokens[..n + 1] == tokens[..n] + [token];
      AtSnoc(j, tokens[..n], token);
      PlausibleIndex(token);
      if Child(ptr, token).Err? {
        StuckAfter(j, tokens, n);
      }
      match ptr {
        case Obj(m) =>
          if token !in m {
            return Ok(false);
          }
          ptr := m[token];
        case Arr(a) =>
          var plausible := LooksLikeIndex(token);
          if !plausible {
            return Ok(false);
          }
          var idx := ArrayIndex(token);
          if idx.Err? {
            assert TripsAt(j, tokens, n);
            return Err(idx.error);
          }
          if idx.value >= |a| {
            return Ok(false);
          }
          ptr := a[idx.value];
        case _ =>
          return Ok(false);
      }
    }
    return Ok(true);
  }

  lemma UnindexableTrips(a: seq<Json>, t: string)
    requires Unindexable(t)
    ensures Trips(Arr(a), [t])
  {
    var ts: seq<string> := [t];
    assert ts[..0] == [];
    assert TripsAt(Arr(a), ts, 0);
  }

  /** Below any array, empty or not, the empty token makes `contains` throw. */
  lemma EmptyTokenTrips(a: seq<Json>)
    ensures Trips(Arr(a), [""]) && ArrayIndex("") == Err(OutOfRange(404))
  {
    UnindexableTrips(a, "");
  }

  /** The numeral of the largest `std::size_t` makes it throw too. */
  lemma LargestTrips(a: seq<Json>, n: nat)
    requires n == 18446744073709551615
    ensures Trips(Arr(a), [Digits(n)]) && ArrayIndex(Digits(n)) == Err(OutOfRange(410))
  {
    DigitsCanonical(n);
    assert IsDigit(Digits(n)[0]);
    UnindexableTrips(a, Digits(n));
  }

  /** Once a token fails to resolve, no longer prefix resolves either. */
  lemma StuckAfter(j: Json, tokens: seq<string>, n: nat)
    requires n < |tokens| && At(j, tokens[..n]).Ok? && Child(At(j, tokens[..n]).value, tokens[n]).Err?
    ensures At(j, tokens).Err?
    ensures forall k :: n < k < |tokens| ==> !TripsAt(j, tokens, k)
  {
    var head := tokens[..n + 1];
    assert head == tokens[..n] + [tokens[n]];
    AtSnoc(j, tokens[..n], tokens[n]);
    AtConcat(j, head, tokens[n + 1..]);
    assert head + tokens[n + 1..] == tokens;
    forall k | n < k < |tokens|
      ensures !TripsAt(j, tokens, k)
    {
      AtConcat(j, head, tokens[n + 1..k]);
      assert head + tokens[n + 1..k] == tokens[..k];
    }
  }

  /** What resolution throws at the first place that is missing. */
  lemma ResolveErrors(doc: Json, ts: seq<string>, t: string, rest: seq<string>)
    requires At(doc, ts).Ok?
    ensures var p, r := At(doc, ts).value, At(doc, ts + [t] + rest);
            (p.Obj? && t !in p.members ==> r == Err(OutOfRange(403)))
            && (p.Arr? && t == "-" ==> r == Err(OutOfRange(402)))
            && (p.Arr? && t != "-" && ArrayIndex(t).Err? ==> r == Err(ArrayIndex(t).error))
            && (p.Arr? && t != "-" && ArrayIndex(t).Ok? && ArrayIndex(t).value >= |p.elems| ==>
                  r == Err(OutOfRange(401)))
            && (!p.Arr? && !p.Obj? ==> r == Err(OutOfRange(404)))
  {
    AtSnoc(doc, ts, t);
    AtConcat(doc, ts + [t], rest);
  }
}
