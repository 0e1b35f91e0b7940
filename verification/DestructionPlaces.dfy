/** The nodes that the destructor takes off its stack are the places of the document, one each. */
module DestructionPlaces {
  import opened Outcomes
  import opened KeyOrder
  import opened JsonValue
  import opened JsonPointer
  import opened PointerResolution
  import opened Destruction

  /** The token that leads to child `i`. */
  function Token(v: Json, i: nat): string
    requires i < |Children(v)|
  {
    if v.Obj? then Keys(v.members)[i] else Digits(i)
  }

  function Prefixed(t: string, ps: seq<seq<string>>): seq<seq<string>> {
    seq(|ps|, i requires 0 <= i < |ps| => [t] + ps[i])
  }

  /** The pointers of a document and everything below it, in the order of `Nodes`. */
  function Pointers(v: Json): seq<seq<string>>
    decreases v, 1, 0
  {
    [[]] + PointersBelow(v, |Children(v)|)
  }

  function PointersBelow(v: Json, n: nat): seq<seq<string>>
    requires n <= |Children(v)|
    decreases v, 0, n
  {
    if n == 0 then
      []
    else
      ChildSmaller(v, n - 1);
      Prefixed(Token(v, n - 1), Pointers(Children(v)[n - 1])) + PointersBelow(v, n - 1)
  }

  // ----- Each pointer leads to its node -------------------------------------------------------

  ghost predicate LeadTo(v: Json, ps: seq<seq<string>>, ns: seq<Json>) {
    |ps| == |ns| && forall i :: 0 <= i < |ps| ==> At(v, ps[i]) == Ok(ns[i])
  }

  lemma LeadConcat(v: Json, ps: seq<seq<string>>, ns: seq<Json>, qs: seq<seq<string>>, ms: seq<Json>)
    requires LeadTo(v, ps, ns) && LeadTo(v, qs, ms)
    ensures LeadTo(v, ps + qs, ns + ms)
  {
  }

  lemma LeadPrefixed(v: Json, t: string, ps: seq<seq<string>>, ns: seq<Json>)
    requires Child(v, t).Ok? && LeadTo(Child(v, t).value, ps, ns)
    ensures LeadTo(v, Prefixed(t, ps), ns)
  {
    forall i | 0 <= i < |ps|
      ensures At(v, [t] + ps[i]) == Ok(ns[i])
    {
      assert ([t] + ps[i])[1..] == ps[i];
    }
  }

  lemma ChildOfToken(v: Json, i: nat)
    requires Representable(v) && i < |Children(v)|
    ensures Child(v, Token(v, i)) == Ok(Children(v)[i]) && Representable(Children(v)[i])
  {
    if v.Obj? {
      assert Keys(v.members)[i] in v.members;
    } else {
      IndexOfDigits(i);
      DigitsCanonical(i);
      assert IsDigit(Digits(i)[0]) && !IsDigit("-"[0]);
    }
  }

  lemma {:induction false} PointersLead(v: Json)
    requires Representable(v)
    ensures LeadTo(v, Pointers(v), Nodes(v))
    decreases v, 1, 0
  {
    PointersBelowLead(v, |Children(v)|);
    assert LeadTo(v, [[]], [v]);
    LeadConcat(v, [[]], [v], PointersBelow(v, |Children(v)|), Below(v, |Children(v)|));
  }

  lemma {:induction false} PointersBelowLead(v: Json, n: nat)
    requires Representable(v) && n <= |Children(v)|
    ensures LeadTo(v, PointersBelow(v, n), Below(v, n))
    decreases v, 0, n
  {
    if n > 0 {
      var i := n - 1;
      ChildSmaller(v, i);
      ChildOfToken(v, i);
      PointersLead(Children(v)[i]);
      PointersBelowLead(v, i);
      LeadPrefixed(v, Token(v, i), Pointers(Children(v)[i]), Nodes(Children(v)[i]));
      LeadConcat(v, Prefixed(Token(v, i), Pointers(Children(v)[i])), Nodes(Children(v)[i]), PointersBelow(v, i),
                 Below(v, i));
    }
  }

  // ----- No pointer twice ---------------------------------------------------------------------

  ghost predicate Once(ps: seq<seq<string>>) {
    forall i, j :: 0 <= i < j < |ps| ==> ps[i] != ps[j]
  }

  /** All pointers go through one of the first `n` children. */
  ghost predicate Through(v: Json, ps: seq<seq<string>>, n: nat)
    requires n <= |Children(v)|
  {
    forall i :: 0 <= i < |ps| ==> GoesThrough(v, ps[i], n)
  }

  ghost predicate GoesThrough(v: Json, p: seq<string>, n: nat)
    requires n <= |Children(v)|
  {
    p != [] && exists k :: 0 <= k < n && Token(v, k) == p[0]
  }

  lemma TokensDiffer(v: Json, i: nat, j: nat)
    requires i < j < |Children(v)|
    ensures Token(v, i) != Token(v, j)
  {
    if v.Obj? {
      KeysInOrder(v.members);
      LessIrreflexive(Keys(v.members)[i]);
    } else {
      DigitsCanonical(i);
      DigitsCanonical(j);
    }
  }

  lemma PrefixedOnce(v: Json, k: nat, ps: seq<seq<string>>)
    requires k < |Children(v)| && Once(ps)
    ensures Once(Prefixed(Token(v, k), ps)) && Through(v, Prefixed(Token(v, k), ps), k + 1)
  {
    var t := Token(v, k);
    forall i, j | 0 <= i < j < |ps|
      ensures [t] + ps[i] != [t] + ps[j]
    {
      assert ([t] + ps[i])[1..] == ps[i] && ([t] + ps[j])[1..] == ps[j];
    }
  }

  lemma ThroughDiffer(v: Json, k: nat, p: seq<string>, qs: seq<seq<string>>, j: nat)
    requires k < |Children(v)| && Through(v, qs, k) && j < |qs|
    ensures [Token(v, k)] + p != qs[j]
  {
    assert GoesThrough(v, qs[j], k);
    var m :| 0 <= m < k && Token(v, m) == qs[j][0];
    TokensDiffer(v, m, k);
    assert ([Token(v, k)] + p)[0] == Token(v, k);
  }

  lemma JoinOnce(v: Json, k: nat, ps: seq<seq<string>>, qs: seq<seq<string>>)
    requires k < |Children(v)| && Once(ps) && Once(qs) && Through(v, qs, k)
    ensures Once(Prefixed(Token(v, k), ps) + qs) && Through(v, Prefixed(Token(v, k), ps) + qs, k + 1)
  {
    PrefixedOnce(v, k, ps);
    forall i, j | 0 <= i < |ps| && 0 <= j < |qs|
      ensures [Token(v, k)] + ps[i] != qs[j]
    {
      ThroughDiffer(v, k, ps[i], qs, j);
    }
  }

  lemma {:induction false} PointersOnce(v: Json)
    ensures Once(Pointers(v))
    decreases v, 1, 0
  {
    PointersBelowOnce(v, |Children(v)|);
  }

  lemma {:induction false} PointersBelowOnce(v: Json, n: nat)
    requires n <= |Children(v)|
    ensures Once(PointersBelow(v, n)) && Through(v, PointersBelow(v, n), n)
    decreases v, 0, n
  {
    if n > 0 {
      ChildSmaller(v, n - 1);
      PointersOnce(Children(v)[n - 1]);
      PointersBelowOnce(v, n - 1);
      OnceNext(v, n - 1);
    }
  }

  lemma OnceNext(v: Json, n: nat)
    requires n < |Children(v)| && Once(Pointers(Children(v)[n]))
    requires Once(PointersBelow(v, n)) && Through(v, PointersBelow(v, n), n)
    ensures Once(PointersBelow(v, n + 1)) && Through(v, PointersBelow(v, n + 1), n + 1)
  {
    JoinOnce(v, n, Pointers(Children(v)[n]), PointersBelow(v, n));
    PointersStep(v, n);
  }

  lemma PointersStep(v: Json, n: nat)
    requires n < |Children(v)|
    ensures PointersBelow(v, n + 1) == Prefixed(Token(v, n), Pointers(Children(v)[n])) + PointersBelow(v, n)
  {
  }

  // ----- No pointer missing -------------------------------------------------------------------

  ghost predicate Listed(ps: seq<seq<string>>, ts: seq<string>) {
    exists i :: 0 <= i < |ps| && ps[i] == ts
  }

  lemma ListedIn(a: seq<seq<string>>, b: seq<seq<string>>, ts: seq<string>)
    requires Listed(a, ts) || Listed(b, ts)
    ensures Listed(a + b, ts)
  {
    if Listed(a, ts) {
      var i :| 0 <= i < |a| && a[i] == ts;
      assert (a + b)[i] == ts;
    } else {
      var i :| 0 <= i < |b| && b[i] == ts;
      assert (a + b)[|a| + i] == ts;
    }
  }

  lemma ListedPrefixed(t: string, ps: seq<seq<string>>, ts: seq<string>)
    requires Listed(ps, ts)
    ensures Listed(Prefixed(t, ps), [t] + ts)
  {
    var i :| 0 <= i < |ps| && ps[i] == ts;
    assert Prefixed(t, ps)[i] == [t] + ts;
  }

  lemma {:induction false} ListedBelow(v: Json, n: nat, i: nat, ts: seq<string>)
    requires i < n <= |Children(v)| && Listed(Pointers(Children(v)[i]), ts)
    ensures Listed(PointersBelow(v, n), [Token(v, i)] + ts)
    decreases n
  {
    if i == n - 1 {
      ListedPrefixed(Token(v, i), Pointers(Children(v)[i]), ts);
    } else {
      ListedBelow(v, n - 1, i, ts);
    }
    ListedIn(Prefixed(Token(v, n - 1), Pointers(Children(v)[n - 1])), PointersBelow(v, n - 1), [Token(v, i)] + ts);
  }

  lemma TokenIndex(v: Json, t: string) returns (i: nat)
    requires Child(v, t).Ok?
    ensures i < |Children(v)| && Children(v)[i] == Child(v, t).value && Token(v, i) == t
  {
    if v.Obj? {
      i :| 0 <= i < |Keys(v.members)| && Keys(v.members)[i] == t;
    } else {
      i := ArrayIndex(t).value;
      DigitsOfIndex(t);
    }
  }

  lemma {:induction false} AllListed(v: Json, ts: seq<string>)
    requires At(v, ts).Ok?
    ensures Listed(Pointers(v), ts)
    decreases |ts|
  {
    if ts == [] {
      assert Pointers(v)[0] == [];
    } else {
      var i := TokenIndex(v, ts[0]);
      AllListed(Children(v)[i], ts[1..]);
      ListedThrough(v, i, ts[0], ts[1..]);
      assert ts == [ts[0]] + ts[1..];
    }
  }

  lemma ListedThrough(v: Json, i: nat, t: string, rest: seq<string>)
    requires i < |Children(v)| && Token(v, i) == t && Listed(Pointers(Children(v)[i]), rest)
    ensures Listed(Pointers(v), [t] + rest)
  {
    ListedBelow(v, |Children(v)|, i, rest);
    ListedIn([[]], PointersBelow(v, |Children(v)|), [t] + rest);
  }

  /** There is one pointer for each node of the listing, in the same order: they are all different, each leads to its
      node, and every pointer that resolves is among them. So the destructor, which takes the nodes below the root
      off its stack in this order, meets every place of the document exactly once. */
  lemma OnePointerEach(v: Json)
    requires Representable(v)
    ensures |Pointers(v)| == |Nodes(v)| && Pointers(v)[0] == []
    ensures forall i :: 0 <= i < |Nodes(v)| ==> At(v, Pointers(v)[i]) == Ok(Nodes(v)[i])
    ensures forall i, j :: 0 <= i < j < |Nodes(v)| ==> Pointers(v)[i] != Pointers(v)[j]
    ensures forall ts :: At(v, ts).Ok? ==> Listed(Pointers(v), ts)
  {
    PointersLead(v);
    PointersOnce(v);
    forall ts | At(v, ts).Ok?
      ensures Listed(Pointers(v), ts)
    {
      AllListed(v, ts);
    }
  }
}
