/** Flattening and unflattening a document: exactly when the round trip succeeds. */
module FlattenRoundTrip {
  import opened Outcomes
  import opened KeyOrder
  import opened JsonValue
  import opened Escaping
  import opened JsonPointer
  import opened PointerResolution
  import opened Flattening
  import opened Unflattening

  /** The document with every empty container replaced by null. */
  function Pruned(v: Json): Json {
    if IsLeaf(v) then
      Stored(v)
    else if v.Arr? then
      Arr(seq(|v.elems|, i requires 0 <= i < |v.elems| => Pruned(v.elems[i])))
    else
      Obj(map k | k in v.members :: Pruned(v.members[k]))
  }

  /** What decides when the entries of a member are visited: its escaped name, followed by a slash if the
      member is a non-empty container. */
  function VisitKey(m: map<string, Json>, k: string): string
    requires k in m
  {
    Encode(k) + if IsLeaf(m[k]) then "" else "/"
  }

  /** The member named "0" is visited before all others. */
  predicate ZeroFirst(m: map<string, Json>) {
    "0" in m && forall k :: k in m && k != "0" ==> Less(VisitKey(m, "0"), VisitKey(m, k))
  }

  /** No object at any depth has its member "0" visited first. */
  predicate NeverZeroFirst(v: Json) {
    match v
    case Arr(a) => forall i :: 0 <= i < |a| ==> NeverZeroFirst(a[i])
    case Obj(m) => !ZeroFirst(m) && forall k :: k in m ==> NeverZeroFirst(m[k])
    case _ => true
  }

  // ----- The entries of a document in visiting order ------------------------------------------

  ghost predicate Before(a: Entry, b: Entry) {
    Less(ToString(a.path), ToString(b.path))
  }

  ghost predicate Sorted(es: seq<Entry>) {
    forall i, j :: 0 <= i < j < |es| ==> Before(es[i], es[j])
  }

  ghost predicate Has(es: seq<Entry>, ts: seq<string>) {
    exists i :: 0 <= i < |es| && es[i].path == ts
  }

  /** `es` lists the leaves of `v`, each once, in the order of their printed pointers. */
  ghost predicate Visits(v: Json, es: seq<Entry>) {
    Sorted(es)
    && (forall i :: 0 <= i < |es| ==> LeafAt(v, es[i].path) && es[i].value == ValueAt(v, es[i].path))
    && forall ts :: LeafAt(v, ts) ==> Has(es, ts)
  }

  lemma BeforeIrreflexive(a: Entry, b: Entry)
    requires Before(a, b)
    ensures a.path != b.path && !Before(b, a)
  {
    LessIrreflexive(ToString(a.path));
    if Before(b, a) {
      LessTransitive(ToString(a.path), ToString(b.path), ToString(a.path));
    }
  }

  // ----- The entries of a child ---------------------------------------------------------------

  lemma {:induction false} SubOrigin(es: seq<Entry>, t: string, n: nat) returns (i: nat)
    requires n < |Sub(es, t)|
    ensures i < |es| && es[i].path == [t] + Sub(es, t)[n].path && es[i].value == Sub(es, t)[n].value
    decreases |es|
  {
    var e := es[0];
    if e.path != [] && e.path[0] == t {
      assert e.path == [t] + e.path[1..];
      if n == 0 {
        return 0;
      }
      i := SubOrigin(es[1..], t, n - 1);
    } else {
      i := SubOrigin(es[1..], t, n);
    }
    i := i + 1;
  }

  lemma {:induction false} SubHas(es: seq<Entry>, t: string, ts: seq<string>)
    requires Has(es, [t] + ts)
    ensures Has(Sub(es, t), ts)
    decreases |es|
  {
    var i :| 0 <= i < |es| && es[i].path == [t] + ts;
    assert ([t] + ts)[1..] == ts;
    if i == 0 {
      assert Sub(es, t)[0].path == ts;
    } else {
      assert es[1..][i - 1].path == [t] + ts;
      SubHas(es[1..], t, ts);
      var j :| 0 <= j < |Sub(es[1..], t)| && Sub(es[1..], t)[j].path == ts;
      var d := |Sub(es, t)| - |Sub(es[1..], t)|;
      assert Sub(es, t)[j + d] == Sub(es[1..], t)[j];
    }
  }

  lemma BeforeBelow(t: string, a: Entry, b: Entry, up_a: Entry, up_b: Entry)
    requires up_a.path == [t] + a.path && up_b.path == [t] + b.path && Before(up_a, up_b)
    ensures Before(a, b)
  {
    ToStringFront(t, a.path);
    ToStringFront(t, b.path);
    LessPrefix("/" + Encode(t), ToString(a.path), ToString(b.path));
  }

  lemma {:induction false} SubSorted(es: seq<Entry>, t: string)
    requires Sorted(es)
    ensures Sorted(Sub(es, t))
    decreases |es|
  {
    if es != [] {
      SubSorted(es[1..], t);
      var e, rest := es[0], Sub(es[1..], t);
      if e.path != [] && e.path[0] == t {
        var first := Entry(e.path[1..], e.value);
        assert e.path == [t] + e.path[1..];
        forall n | 0 <= n < |rest|
          ensures Before(first, rest[n])
        {
          var i := SubOrigin(es[1..], t, n);
          assert Before(es[0], es[i + 1]);
          BeforeBelow(t, first, rest[n], e, es[i + 1]);
        }
        assert Sub(es, t) == [first] + rest;
      }
    }
  }

  /** The entries below a child are that child's entries in their visiting order. */
  lemma SubVisits(v: Json, es: seq<Entry>, t: string)
    requires Visits(v, es) && Child(v, t).Ok?
    ensures Visits(Child(v, t).value, Sub(es, t))
  {
    var c, sub := Child(v, t).value, Sub(es, t);
    SubSorted(es, t);
    forall n | 0 <= n < |sub|
      ensures LeafAt(c, sub[n].path) && sub[n].value == ValueAt(c, sub[n].path)
    {
      var i := SubOrigin(es, t, n);
      LeafBelow(v, t, sub[n].path);
    }
    forall ts | LeafAt(c, ts)
      ensures Has(sub, ts)
    {
      LeafBelow(v, t, ts);
      SubHas(es, t, ts);
    }
  }

  // ----- Which child is visited first ---------------------------------------------------------

  /** Two names without slashes, each followed by nothing or by a slash and more: only the first
      character of what follows matters. */
  lemma {:induction false} NamesDecide(a: string, ra: string, b: string, rb: string)
    requires '/' !in a && '/' !in b && a != b
    requires ra == [] || ra[0] == '/'
    requires rb == [] || rb[0] == '/'
    ensures Less(a + ra, b + rb) <==> Less(a + ra[..if ra == [] then 0 else 1], b + rb[..if rb == [] then 0 else 1])
  {
    if a != [] && b != [] && a[0] == b[0] {
      var sa, sb := ra[..if ra == [] then 0 else 1], rb[..if rb == [] then 0 else 1];
      assert a == [a[0]] + a[1..] && b == [b[0]] + b[1..];
      NamesDecide(a[1..], ra, b[1..], rb);
      assert (a + ra)[1..] == a[1..] + ra && (b + rb)[1..] == b[1..] + rb;
      assert (a + sa)[1..] == a[1..] + sa && (b + sb)[1..] == b[1..] + sb;
    }
  }

  lemma PrintedStart(ts: seq<string>)
    ensures ts == [] ==> ToString(ts) == []
    ensures ts != [] ==> ToString(ts) != [] && ToString(ts)[0] == '/'
  {
    if ts != [] {
      PiecesOfPrinted(ts);
    }
  }

  lemma PrintedOrder(k: string, ts: seq<string>, l: string, us: seq<string>)
    ensures Less(ToString([k] + ts), ToString([l] + us))
        <==> Less(Encode(k) + ToString(ts), Encode(l) + ToString(us))
  {
    ToStringFront(k, ts);
    ToStringFront(l, us);
    Shift(Encode(k), ToString(ts));
    Shift(Encode(l), ToString(us));
    LessPrefix("/", Encode(k) + ToString(ts), Encode(l) + ToString(us));
  }

  lemma Shift(a: string, b: string)
    ensures "/" + a + b == "/" + (a + b)
  {
  }

  lemma VisitKeyDecides(m: map<string, Json>, k: string, ts: seq<string>, l: string, us: seq<string>)
    requires k in m && l in m && k != l && LeafAt(m[k], ts) && LeafAt(m[l], us)
    ensures Less(ToString([k] + ts), ToString([l] + us)) <==> Less(VisitKey(m, k), VisitKey(m, l))
  {
    SlashIffDeeper(m, k, ts);
    SlashIffDeeper(m, l, us);
    NamesDiffer(k, l);
    NamesDecide(Encode(k), ToString(ts), Encode(l), ToString(us));
    PrintedOrder(k, ts, l, us);
  }

  lemma NamesDiffer(k: string, l: string)
    requires k != l
    ensures Encode(k) != Encode(l) && '/' !in Encode(k) && '/' !in Encode(l)
  {
    EncodeIsWellEscaped(k);
    EncodeIsWellEscaped(l);
    DecodeEncode(k);
    DecodeEncode(l);
  }

  lemma SlashIffDeeper(m: map<string, Json>, k: string, ts: seq<string>)
    requires k in m && LeafAt(m[k], ts)
    ensures ToString(ts) == [] || ToString(ts)[0] == '/'
    ensures ToString(ts)[..if ToString(ts) == [] then 0 else 1] == if IsLeaf(m[k]) then "" else "/"
  {
    PrintedStart(ts);
    LeafHere(m[k]);
    if IsLeaf(m[k]) {
      LeafOnlyHere(m[k], ts);
    }
  }

  /** Some entry lies below each child. */
  lemma EntryBelow(v: Json, es: seq<Entry>, t: string) returns (i: nat, ts: seq<string>)
    requires Visits(v, es) && Child(v, t).Ok? && Representable(Child(v, t).value)
    ensures i < |es| && es[i].path == [t] + ts && LeafAt(Child(v, t).value, ts)
    ensures Heads(es, t)
  {
    ts := SomeLeaf(Child(v, t).value);
    LeafBelow(v, t, ts);
    i :| 0 <= i < |es| && es[i].path == [t] + ts;
    assert es[i].path[0] == t;
  }

  /** Every entry of a non-leaf lies below one of its children. */
  lemma EntriesBelow(v: Json, es: seq<Entry>)
    requires Visits(v, es) && !IsLeaf(v)
    ensures AllBelow(es)
    ensures forall i :: 0 <= i < |es| ==>
              Child(v, es[i].path[0]).Ok? && LeafAt(Child(v, es[i].path[0]).value, es[i].path[1..])
  {
    LeafHere(v);
    forall i | 0 <= i < |es|
      ensures es[i].path != []
      ensures Child(v, es[i].path[0]).Ok? && LeafAt(Child(v, es[i].path[0]).value, es[i].path[1..])
    {
      var ts := es[i].path;
      assert LeafAt(v, ts);
      assert ts != [];
      assert ts == [ts[0]] + ts[1..];
      LeafBelow(v, ts[0], ts[1..]);
    }
  }

  lemma ZeroHead(v: Json, es: seq<Entry>)
    requires Representable(v) && Visits(v, es) && v.Obj? && !IsLeaf(v)
    ensures es != [] && es[0].path != []
    ensures es[0].path[0] == "0" <==> ZeroFirst(v.members)
  {
    var m := v.members;
    EntriesBelow(v, es);
    var some :| some in m;
    var i0, ts0 := EntryBelow(v, es, some);
    var h, rest := es[0].path[0], es[0].path[1..];
    assert es[0].path == [h] + rest;
    if h == "0" {
      forall k | k in m && k != "0"
        ensures Less(VisitKey(m, "0"), VisitKey(m, k))
      {
        var i, ts := EntryBelow(v, es, k);
        assert es[i].path[0] == k;
        assert Before(es[0], es[i]);
        VisitKeyDecides(m, "0", rest, k, ts);
      }
    } else if "0" in m {
      var i, ts := EntryBelow(v, es, "0");
      assert es[i].path[0] == "0";
      assert Before(es[0], es[i]);
      VisitKeyDecides(m, h, rest, "0", ts);
      LessAsymmetric(VisitKey(m, h), VisitKey(m, "0"));
    }
  }

  lemma LessAsymmetric(a: string, b: string)
    requires Less(a, b)
    ensures !Less(b, a)
  {
    if Less(b, a) {
      LessTransitive(a, b, a);
      LessIrreflexive(a);
    }
  }

  lemma ZeroIndexHead(v: Json, es: seq<Entry>)
    requires Representable(v) && Visits(v, es) && v.Arr? && !IsLeaf(v)
    ensures es != [] && es[0].path != [] && es[0].path[0] == "0"
  {
    var a := v.elems;
    EntriesBelow(v, es);
    ElemChild(a, 0);
    var i, ts := EntryBelow(v, es, Digits(0));
    var h, rest := es[0].path[0], es[0].path[1..];
    assert es[0].path == [h] + rest;
    assert Digits(0) == "0";
    if h != "0" {
      assert es[i].path[0] == "0";
      assert Before(es[0], es[i]);
      var n := ElemToken(a, h);
      ZeroSmallest(n, rest, ts);
      BeforeIrreflexive(es[0], es[i]);
    }
  }

  lemma ZeroSmallest(n: nat, rest: seq<string>, ts: seq<string>)
    requires n > 0
    ensures Less(ToString(["0"] + ts), ToString([Digits(n)] + rest))
  {
    DigitsCanonical(n);
    EncodeDigits(n);
    EncodeDigits(0);
    assert Digits(0) == "0";
    assert IsDigit(Digits(n)[0]);
    FirstCharDecides("0", ToString(ts), Digits(n), ToString(rest));
    PrintedOrder("0", ts, Digits(n), rest);
  }

  lemma FirstCharDecides(a: string, ra: string, b: string, rb: string)
    requires a != [] && b != [] && a[0] < b[0]
    ensures Less(a + ra, b + rb)
  {
  }

  // ----- The round trip -----------------------------------------------------------------------

  /** From null, the first token decides between array and object. */
  lemma FirstTokenDecides(es: seq<Entry>)
    requires es != [] && es[0].path != []
    ensures Build(Null, es) == if es[0].path[0] == "0" then Build(Arr([]), es) else Build(Obj(map[]), es)
  {
    var ts := es[0].path;
    if ts[0] == "0" {
      DigitsCanonical(0);
      assert Digits(0) == "0";
      IndexOfDigits(0);
      assert Grown([], 0) == [Null];
      assert forall c: Json :: [Null][0 := c] == [c];
    } else {
      assert MemberOrNull(map[], ts[0]) == Null;
      var m: map<string, Json> := map[];
      assert forall c :: m[ts[0] := c] == map[ts[0] := c];
    }
  }

  lemma OneEntry(v: Json, es: seq<Entry>)
    requires Visits(v, es) && IsLeaf(v)
    ensures es == [Entry([], Stored(v))]
  {
    LeafHere(v);
    assert Has(es, []);
    forall i | 0 <= i < |es|
      ensures es[i] == Entry([], Stored(v))
    {
      LeafOnlyHere(v, es[i].path);
    }
    if |es| > 1 {
      BeforeIrreflexive(es[0], es[1]);
    }
  }

  /** Creating the leaves of a document in visiting order gives back the pruned document if and only if
      no object has its member "0" visited first. */
  lemma {:induction false} BuildVisits(v: Json, es: seq<Entry>)
    requires Representable(v) && Visits(v, es)
    ensures Build(Null, es) == Ok(Pruned(v)) <==> NeverZeroFirst(v)
    decreases v
  {
    if IsLeaf(v) {
      OneEntry(v, es);
      assert es[1..] == [];
      assert Build(Null, es) == Ok(Stored(v));
    } else if v.Arr? {
      forall i | 0 <= i < |v.elems|
        ensures Build(Null, Sub(es, Digits(i))) == Ok(Pruned(v.elems[i])) <==> NeverZeroFirst(v.elems[i])
      {
        ElemChild(v.elems, i);
        SubVisits(v, es, Digits(i));
        BuildVisits(v.elems[i], Sub(es, Digits(i)));
      }
      BuildElems(v, es);
    } else {
      forall k | k in v.members
        ensures Build(Null, Sub(es, k)) == Ok(Pruned(v.members[k])) <==> NeverZeroFirst(v.members[k])
      {
        SubVisits(v, es, k);
        BuildVisits(v.members[k], Sub(es, k));
      }
      BuildMembers(v, es);
    }
  }

  lemma BuildElems(v: Json, es: seq<Entry>)
    requires Representable(v) && Visits(v, es) && v.Arr? && !IsLeaf(v)
    requires forall i :: 0 <= i < |v.elems| ==>
      (Build(Null, Sub(es, Digits(i))) == Ok(Pruned(v.elems[i])) <==> NeverZeroFirst(v.elems[i]))
    ensures Build(Null, es) == Ok(Pruned(v)) <==> NeverZeroFirst(v)
  {
    var a := v.elems;
    ZeroIndexHead(v, es);
    FirstTokenDecides(es);
    ArrayHeads(v, es);
    BuildArray([], es);
    var r := Build(Arr([]), es);
    if r.Ok? {
      assert Fits([], es, |a|);
      assert Heads(es, Digits(|a| - 1));
      SameElems(v, r.value);
    } else {
      var i: nat :| Build(ElemOrNull([], i), Sub(es, Digits(i))).Err?;
      if i >= |a| {
        SubEmpty(es, Digits(i));
      }
      assert !NeverZeroFirst(a[i]);
    }
  }

  lemma SameElems(v: Json, w: Json)
    requires v.Arr? && !IsLeaf(v) && w.Arr? && |w.elems| == |v.elems|
    requires forall i :: 0 <= i < |v.elems| ==> (w.elems[i] == Pruned(v.elems[i]) <==> NeverZeroFirst(v.elems[i]))
    ensures w == Pruned(v) <==> NeverZeroFirst(v)
  {
    if NeverZeroFirst(v) {
      assert w.elems == Pruned(v).elems;
    }
    if w == Pruned(v) {
      assert forall i :: 0 <= i < |v.elems| ==> w.elems[i] == Pruned(v.elems[i]);
    }
  }

  lemma ArrayHeads(v: Json, es: seq<Entry>)
    requires Representable(v) && Visits(v, es) && v.Arr? && !IsLeaf(v)
    ensures IndexHeads(es)
    ensures forall i: nat :: Heads(es, Digits(i)) <==> i < |v.elems|
  {
    var a := v.elems;
    EntriesBelow(v, es);
    forall i: nat
      ensures Heads(es, Digits(i)) <==> i < |a|
    {
      if i < |a| {
        ElemChild(a, i);
        var j, ts := EntryBelow(v, es, Digits(i));
      } else if Heads(es, Digits(i)) {
        var j :| 0 <= j < |es| && es[j].path != [] && es[j].path[0] == Digits(i);
        var n := ElemToken(a, Digits(i));
        DigitsInjective(n, i);
      }
    }
  }

  lemma BuildMembers(v: Json, es: seq<Entry>)
    requires Representable(v) && Visits(v, es) && v.Obj? && !IsLeaf(v)
    requires forall k :: k in v.members ==>
      (Build(Null, Sub(es, k)) == Ok(Pruned(v.members[k])) <==> NeverZeroFirst(v.members[k]))
    ensures Build(Null, es) == Ok(Pruned(v)) <==> NeverZeroFirst(v)
  {
    var m := v.members;
    ZeroHead(v, es);
    FirstTokenDecides(es);
    ObjectHeads(v, es);
    if es[0].path[0] == "0" {
      if Build(Null, es).Ok? {
        ArrayStays([], es);
      }
    } else {
      BuildObject(map[], es);
      CompareMembers(v, es, Build(Obj(map[]), es));
    }
  }

  lemma CompareMembers(v: Json, es: seq<Entry>, r: Result<Json>)
    requires v.Obj? && !IsLeaf(v) && !ZeroFirst(v.members) && AllBelow(es)
    requires forall k :: Heads(es, k) <==> k in v.members
    requires forall k :: k in v.members ==>
      (Build(Null, Sub(es, k)) == Ok(Pruned(v.members[k])) <==> NeverZeroFirst(v.members[k]))
    requires r.Ok? <==> forall k :: Build(MemberOrNull(map[], k), Sub(es, k)).Ok?
    requires r.Ok? ==> r.value.Obj? && (forall k :: k in r.value.members <==> Heads(es, k))
    requires r.Ok? ==> forall k :: k in r.value.members ==>
      Build(MemberOrNull(map[], k), Sub(es, k)) == Ok(r.value.members[k])
    ensures r == Ok(Pruned(v)) <==> NeverZeroFirst(v)
  {
    var m := v.members;
    if r.Ok? {
      forall k | k in m
        ensures k in r.value.members && (r.value.members[k] == Pruned(m[k]) <==> NeverZeroFirst(m[k]))
      {
        assert MemberOrNull(map[], k) == Null;
      }
      SameMembers(v, r.value);
    } else {
      var k :| Build(MemberOrNull(map[], k), Sub(es, k)).Err?;
      if k !in m {
        SubEmpty(es, k);
      }
      assert MemberOrNull(map[], k) == Null;
      assert !NeverZeroFirst(m[k]);
    }
  }

  lemma SameMembers(v: Json, w: Json)
    requires v.Obj? && !IsLeaf(v) && !ZeroFirst(v.members) && w.Obj?
    requires forall k :: k in w.members <==> k in v.members
    requires forall k :: k in v.members ==> (w.members[k] == Pruned(v.members[k]) <==> NeverZeroFirst(v.members[k]))
    ensures w == Pruned(v) <==> NeverZeroFirst(v)
  {
    PrunedMembers(v);
    if NeverZeroFirst(v) {
      MembersAgree(w.members, Pruned(v).members);
    }
    if w == Pruned(v) {
      assert forall k :: k in v.members ==> w.members[k] == Pruned(v.members[k]);
    }
  }

  lemma PrunedMembers(v: Json)
    requires v.Obj? && !IsLeaf(v)
    ensures Pruned(v).Obj? && (forall k :: k in Pruned(v).members <==> k in v.members)
    ensures forall k :: k in v.members ==> Pruned(v).members[k] == Pruned(v.members[k])
  {
  }

  lemma MembersAgree(a: map<string, Json>, b: map<string, Json>)
    requires (forall k :: k in a <==> k in b) && forall k :: k in a ==> a[k] == b[k]
    ensures a == b
  {
  }

  lemma ObjectHeads(v: Json, es: seq<Entry>)
    requires Representable(v) && Visits(v, es) && v.Obj? && !IsLeaf(v)
    ensures AllBelow(es)
    ensures forall k :: Heads(es, k) <==> k in v.members
  {
    EntriesBelow(v, es);
    forall k
      ensures Heads(es, k) <==> k in v.members
    {
      if k in v.members {
        var j, ts := EntryBelow(v, es, k);
      }
    }
  }

  // ----- Main results -------------------------------------------------------------------------

  /** The entries `unflatten` creates when it visits the members `keys`. */
  ghost function EntriesOf(m: map<string, Json>, keys: seq<string>): seq<Entry>
    requires forall k :: k in keys ==> k in m && Parse(k).Ok?
  {
    seq(|keys|, i requires 0 <= i < |keys| => Entry(Parse(keys[i]).value, m[keys[i]]))
  }

  lemma {:induction false} UnflattenBuilds(j: Json, m: map<string, Json>, keys: seq<string>)
    requires forall k :: k in keys ==> k in m && Parse(k).Ok? && IsPrimitive(m[k])
    ensures UnflattenFrom(j, m, keys) == Build(j, EntriesOf(m, keys))
    decreases |keys|
  {
    if keys != [] {
      var es := EntriesOf(m, keys);
      assert es[1..] == EntriesOf(m, keys[1..]);
      var next := Create(j, es[0].path, es[0].value);
      if next.Ok? {
        UnflattenBuilds(next.value, m, keys[1..]);
      }
    }
  }

  lemma FlatEntry(v: Json, k: string)
    requires Representable(v) && k in Flat("", v)
    ensures Parse(k).Ok? && ToString(Parse(k).value) == k
    ensures LeafAt(v, Parse(k).value) && Flat("", v)[k] == ValueAt(v, Parse(k).value)
    ensures IsPrimitive(Flat("", v)[k])
  {
    FlatResolves(v, k);
    PrintParse(k);
  }

  lemma LeafEntry(v: Json, ts: seq<string>)
    requires Representable(v) && LeafAt(v, ts)
    ensures ToString(ts) in Flat("", v) && Parse(ToString(ts)) == Ok(ts)
  {
    ParsePrint(ts);
    FlatResolves(v, ToString(ts));
  }

  /** Visiting the flattened members in key order visits the leaves in the order of their pointers. */
  lemma FlatVisits(v: Json, m: map<string, Json>, keys: seq<string>)
    requires Representable(v) && m == Flat("", v) && Ascending(keys) && forall k :: k in keys <==> k in m
    ensures forall k :: k in keys ==> Parse(k).Ok? && IsPrimitive(m[k])
    ensures Visits(v, EntriesOf(m, keys))
  {
    forall k | k in keys
      ensures Parse(k).Ok? && IsPrimitive(m[k]) && ToString(Parse(k).value) == k
      ensures LeafAt(v, Parse(k).value) && m[k] == ValueAt(v, Parse(k).value)
    {
      FlatEntry(v, k);
    }
    var es := EntriesOf(m, keys);
    forall i, j | 0 <= i < j < |es|
      ensures Before(es[i], es[j])
    {
      assert keys[i] in keys && keys[j] in keys;
    }
    forall i | 0 <= i < |es|
      ensures LeafAt(v, es[i].path) && es[i].value == ValueAt(v, es[i].path)
    {
      assert keys[i] in keys;
    }
    forall ts | LeafAt(v, ts)
      ensures Has(es, ts)
    {
      LeafEntry(v, ts);
      var i :| 0 <= i < |keys| && keys[i] == ToString(ts);
      assert es[i].path == ts;
    }
  }

  /** `unflatten(flatten(v))` is `v` with its empty containers replaced by null, if and only if no object
      anywhere in `v` has its member "0" visited first. */
  lemma UnflattenFlatten(v: Json)
    requires Representable(v)
    ensures UnflattenSpec(Obj(Flat("", v))) == Ok(Pruned(v)) <==> NeverZeroFirst(v)
  {
    var m := Flat("", v);
    KeysInOrder(m);
    FlatVisits(v, m, Keys(m));
    UnflattenBuilds(Null, m, Keys(m));
    BuildVisits(v, EntriesOf(m, Keys(m)));
  }

  predicate NoZeroKey(v: Json) {
    match v
    case Arr(a) => forall i :: 0 <= i < |a| ==> NoZeroKey(a[i])
    case Obj(m) => "0" !in m && forall k :: k in m ==> NoZeroKey(m[k])
    case _ => true
  }

  lemma {:induction false} NoZeroNeverFirst(v: Json)
    requires NoZeroKey(v)
    ensures NeverZeroFirst(v)
  {
    match v
    case Arr(a) =>
      forall i | 0 <= i < |a| ensures NeverZeroFirst(a[i]) { NoZeroNeverFirst(a[i]); }
    case Obj(m) =>
      forall k | k in m ensures NeverZeroFirst(m[k]) { NoZeroNeverFirst(m[k]); }
    case _ =>
  }

  /** In particular the round trip succeeds when no object has a member named "0". */
  lemma UnflattenFlattenNoZero(v: Json)
    requires Representable(v) && NoZeroKey(v)
    ensures UnflattenSpec(Obj(Flat("", v))) == Ok(Pruned(v))
  {
    NoZeroNeverFirst(v);
    UnflattenFlatten(v);
  }

  /** The smallest failures: an object whose only member is "0", with a primitive value, comes back as an
      array. */
  lemma ZeroKeyFails(v: Json, p: Json)
    requires v == Obj(map["0" := p]) && IsPrimitive(p)
    ensures UnflattenSpec(Obj(Flat("", v))) == Ok(Arr([p]))
  {
    var m := Flat("", v);
    KeysInOrder(m);
    FlatVisits(v, m, Keys(m));
    UnflattenBuilds(Null, m, Keys(m));
    OnlyZero(v, p, EntriesOf(m, Keys(m)));
    BuildZero(p);
  }

  lemma OnlyZero(v: Json, p: Json, es: seq<Entry>)
    requires v == Obj(map["0" := p]) && IsPrimitive(p) && Visits(v, es)
    ensures es == [Entry(["0"], p)]
  {
    var i, ts := EntryBelow(v, es, "0");
    forall i | 0 <= i < |es|
      ensures es[i] == Entry(["0"], p)
    {
      ZeroEntry(v, p, es, i);
    }
    if |es| > 1 {
      BeforeIrreflexive(es[0], es[1]);
    }
  }

  lemma ZeroEntry(v: Json, p: Json, es: seq<Entry>, i: nat)
    requires v == Obj(map["0" := p]) && IsPrimitive(p) && Visits(v, es) && i < |es|
    ensures es[i] == Entry(["0"], p)
  {
    assert "0" in v.members;
    EntriesBelow(v, es);
    LeafOnlyHere(p, es[i].path[1..]);
    assert es[i].path == ["0"];
    assert ["0"][1..] == [];
  }

  lemma BuildZero(p: Json)
    ensures Build(Null, [Entry(["0"], p)]) == Ok(Arr([p]))
  {
    var e := Entry(["0"], p);
    assert [e][1..] == [] && ["0"][1..] == [];
    assert Create(Null, [], p) == Ok(p);
    assert Build(Arr([p]), []) == Ok(Arr([p]));
  }

  lemma PrunedChild(v: Json, t: string)
    ensures Child(Pruned(v), t).Ok? <==> Child(v, t).Ok?
    ensures Child(v, t).Ok? ==> Child(Pruned(v), t) == Ok(Pruned(Child(v, t).value))
  {
  }

  /** What pruning does at every place: it has the same places, with the same primitive values, null for each empty
      container, and containers with the same keys or the same length otherwise. */
  lemma {:induction false} PrunedAt(v: Json, ts: seq<string>)
    ensures At(Pruned(v), ts).Ok? <==> At(v, ts).Ok?
    ensures At(v, ts).Ok? ==>
              var x, y := At(v, ts).value, At(Pruned(v), ts).value;
              match x
              case Arr(a) => if a == [] then y == Null else y.Arr? && |y.elems| == |a|
              case Obj(m) => if m == map[] then y == Null else y.Obj? && y.members.Keys == m.Keys
              case _ => y == x
    decreases |ts|
  {
    if ts != [] {
      PrunedChild(v, ts[0]);
      if Child(v, ts[0]).Ok? {
        PrunedAt(Child(v, ts[0]).value, ts[1..]);
      }
    }
  }
}
