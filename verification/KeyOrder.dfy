/** The lexicographic order in which `std::map<std::string, ...>` visits its keys. */
module KeyOrder {

  predicate Less(a: string, b: string) {
    b != [] && (a == [] || a[0] < b[0] || (a[0] == b[0] && Less(a[1..], b[1..])))
  }

  ghost predicate Ascending(keys: seq<string>) {
    forall i, j :: 0 <= i < j < |keys| ==> Less(keys[i], keys[j])
  }

  lemma LessIrreflexive(a: string)
    ensures !Less(a, a)
  {
    if a != [] {
      LessIrreflexive(a[1..]);
    }
  }

  lemma {:induction false} LessTransitive(a: string, b: string, c: string)
    requires Less(a, b) && Less(b, c)
    ensures Less(a, c)
  {
    if a != [] && a[0] == b[0] && b[0] == c[0] {
      LessTransitive(a[1..], b[1..], c[1..]);
    }
  }

  lemma {:induction false} LessTotal(a: string, b: string)
    ensures a == b || Less(a, b) || Less(b, a)
  {
    if a != [] && b != [] && a[0] == b[0] {
      LessTotal(a[1..], b[1..]);
      assert a == [a[0]] + a[1..] && b == [b[0]] + b[1..];
    }
  }

  /** A common prefix does not affect the order. */
  lemma {:induction false} LessPrefix(p: string, a: string, b: string)
    ensures Less(p + a, p + b) <==> Less(a, b)
  {
    if p == [] {
      assert p + a == a && p + b == b;
    } else {
      assert (p + a)[1..] == p[1..] + a && (p + b)[1..] == p[1..] + b;
      LessPrefix(p[1..], a, b);
    }
  }

  ghost predicate IsLeast(k: string, s: set<string>) {
    k in s && forall o :: o in s && o != k ==> Less(k, o)
  }

  lemma {:induction false} HasLeast(s: set<string>) returns (k: string)
    requires s != {}
    ensures IsLeast(k, s)
  {
    var x :| x in s;
    if s == {x} {
      return x;
    }
    k := HasLeast(s - {x});
    LessTotal(x, k);
    if Less(x, k) {
      forall o | o in s && o != x && o != k
        ensures Less(x, o)
      {
        LessTransitive(x, k, o);
      }
      k := x;
    }
  }

  lemma LeastUnique(s: set<string>)
    requires s != {}
    ensures exists k :: IsLeast(k, s)
    ensures forall a, b :: IsLeast(a, s) && IsLeast(b, s) ==> a == b
  {
    var k := HasLeast(s);
    forall a, b | IsLeast(a, s) && IsLeast(b, s)
      ensures a == b
    {
      if a != b {
        LessTransitive(a, b, a);
        LessIrreflexive(a);
      }
    }
  }

  function Least(s: set<string>): (k: string)
    requires s != {}
    ensures IsLeast(k, s)
  {
    LeastUnique(s);
    assert forall k :: IsLeast(k, s) <==> k in s && forall o :: o in s && o != k ==> Less(k, o);
    var k :| k in s && forall o :: o in s && o != k ==> Less(k, o);
    k
  }

  /** The visiting order of a `std::map` whose key set is `s`. */
  function SortedKeys(s: set<string>): (keys: seq<string>)
    ensures forall k :: k in keys <==> k in s
  {
    if s == {} then
      []
    else
      var k := Least(s);
      [k] + SortedKeys(s - {k})
  }

  lemma {:induction false} KeysAscend(s: set<string>)
    ensures Ascending(SortedKeys(s))
    decreases s
  {
    if s != {} {
      KeysAscend(s - {Least(s)});
      AscendingFront(Least(s), SortedKeys(s - {Least(s)}));
    }
  }

  lemma AscendingFront(k: string, keys: seq<string>)
    requires Ascending(keys) && forall o :: o in keys ==> Less(k, o)
    ensures Ascending([k] + keys)
  {
  }
}
