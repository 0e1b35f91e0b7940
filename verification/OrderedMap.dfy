/** The insertion-ordered map: a vector of pairs searched linearly and shifted in place. */
module OrderedMap {

  // ----- Pairs, their order and their map -----------------------------------------------------

  function KeysOf<K, V>(items: seq<(K, V)>): seq<K> {
    seq(|items|, i requires 0 <= i < |items| => items[i].0)
  }

  ghost predicate UniqueKeys<K, V>(items: seq<(K, V)>) {
    forall i, j :: 0 <= i < j < |items| ==> items[i].0 != items[j].0
  }

  /** The position of the first pair with key `k`, or the end. */
  function Position<K(==), V>(items: seq<(K, V)>, k: K): (p: nat)
    ensures p <= |items| && (p < |items| ==> items[p].0 == k)
    ensures forall i :: 0 <= i < p ==> items[i].0 != k
  {
    if items == [] || items[0].0 == k then 0 else 1 + Position(items[1..], k)
  }

  /** The map the pairs stand for. */
  function Contents<K(==), V>(items: seq<(K, V)>): (m: map<K, V>)
    ensures forall i :: 0 <= i < |items| ==> items[i].0 in m
    ensures forall k :: k in m ==> exists i :: 0 <= i < |items| && items[i].0 == k
  {
    if items == [] then map[] else Contents(items[..|items| - 1])[items[|items| - 1].0 := items[|items| - 1].1]
  }

  lemma {:induction false} ContentsAt<K, V>(items: seq<(K, V)>, i: nat)
    requires UniqueKeys(items) && i < |items|
    ensures items[i].0 in Contents(items) && Contents(items)[items[i].0] == items[i].1
    decreases |items|
  {
    if i < |items| - 1 {
      ContentsAt(items[..|items| - 1], i);
    }
  }

  /** With unique keys, a map is the contents exactly when it has the pairs and nothing else. */
  lemma ContentsUnique<K, V>(items: seq<(K, V)>, m: map<K, V>)
    requires UniqueKeys(items)
    requires forall i :: 0 <= i < |items| ==> items[i].0 in m && m[items[i].0] == items[i].1
    requires forall k :: k in m ==> exists i :: 0 <= i < |items| && items[i].0 == k
    ensures Contents(items) == m
  {
    forall k | k in m
      ensures k in Contents(items) && Contents(items)[k] == m[k]
    {
      var i :| 0 <= i < |items| && items[i].0 == k;
      ContentsAt(items, i);
    }
  }

  function Cut<T>(s: seq<T>, first: nat, last: nat): seq<T>
    requires first <= last <= |s|
  {
    s[..first] + s[last..]
  }

  /** Moving the later elements down by `n` and dropping the last `n` slots cuts a slice out. */
  lemma Shifted<T>(was: seq<T>, s: seq<T>, first: nat, n: nat)
    requires |s| == |was| && first + n <= |s| && s[..first] == was[..first]
    requires forall i :: first <= i < |s| - n ==> s[i] == was[i + n]
    ensures s[..|s| - n] == Cut(was, first, first + n)
  {
  }

  lemma ErasedUnique<K, V>(items: seq<(K, V)>, first: nat, last: nat)
    requires first <= last <= |items|
    ensures UniqueKeys(items) ==> UniqueKeys(Cut(items, first, last))
  {
  }

  // ----- The container ------------------------------------------------------------------------

  class OrderedMap<K(==), V> {
    var items: seq<(K, V)>

    ghost predicate Valid()
      reads this
    {
      UniqueKeys(items)
    }

    constructor ()
      ensures Valid() && items == []
    {
      items := [];
    }

    method Find(key: K) returns (pos: nat)
      ensures pos == Position(items, key)
    {
      pos := 0;
      while pos < |items|
        invariant pos <= |items| && forall i :: 0 <= i < pos ==> items[i].0 != key
      {
        if items[pos].0 == key {
          return;
        }
        pos := pos + 1;
      }
    }

    /** Also `insert`, and `operator[]` with a default value: nothing changes if the key is there. */
    method Emplace(key: K, value: V) returns (pos: nat, inserted: bool)
      modifies this
      ensures pos == Position(old(items), key) && inserted == (pos == |old(items)|)
      ensures items == Apply(old(items), Op.Emplace(key, value))
      ensures pos < |items| && items[pos].0 == key
      ensures old(Valid()) ==> Valid()
    {
      pos := Find(key);
      inserted := pos == |items|;
      if inserted {
        items := items + [(key, value)];
      }
    }

    /** Assignment through the reference that `operator[]` returns. */
    method Assign(key: K, value: V, initial: V)
      modifies this
      ensures items == Apply(old(items), Op.Assign(key, value))
      ensures old(Valid()) ==> Valid()
    {
      var pos, inserted := Emplace(key, initial);
      items := items[pos := (key, value)];
    }

    /** `erase(key)`: the gap that the pair leaves is closed. */
    method EraseKey(key: K) returns (count: nat)
      modifies this
      ensures count == if Position(old(items), key) < |old(items)| then 1 else 0
      ensures items == Apply(old(items), Op.EraseKey(key))
      ensures old(Valid()) ==> Valid()
    {
      var it := Find(key);
      if it == |items| {
        return 0;
      }
      ErasedUnique(items, it, it + 1);
      CloseGap(it);
      return 1;
    }

    /** The later pairs are moved down one by one and the last slot is dropped. */
    method CloseGap(start: nat)
      requires start < |items|
      modifies this
      ensures items == Cut(old(items), start, start + 1)
    {
      ghost var was := items;
      var it, next := start, start + 1;
      while next != |items|
        invariant it + 1 == next && start < next <= |items| == |was|
        invariant items[..start] == was[..start]
        invariant forall i {:trigger items[i]} :: start <= i < it ==> items[i] == was[i + 1]
        invariant items[it..] == was[it..]
        decreases |items| - next
      {
        assert items[next] == items[it..][1] == was[next];
        assert items[next..] == items[it..][1..] == was[next..];
        items := items[it := items[next]];
        it := it + 1;
        next := next + 1;
      }
      Shifted(was, items, start, 1);
      items := items[..|items| - 1];
    }

    /** `erase(first, last)`: returns the position after the cut. */
    method EraseRange(first: nat, last: nat) returns (pos: nat)
      requires first <= last <= |items|
      modifies this
      ensures items == Apply(old(items), Op.EraseRange(first, last)) == Cut(old(items), first, last) && pos == first
      ensures pos < |items| ==> items[pos] == old(items)[last]
      ensures old(Valid()) ==> Valid()
    {
      if first == last {
        return first;
      }
      var affected := last - first;
      ghost var was := items;
      var it := first;
      while it + affected != |items|
        invariant first <= it && it + affected <= |items| == |was|
        invariant forall i {:trigger items[i]} :: 0 <= i < first ==> items[i] == was[i]
        invariant forall i {:trigger items[i]} :: first <= i < it ==> items[i] == was[i + affected]
        invariant forall i {:trigger items[i]} :: it <= i < |was| ==> items[i] == was[i]
        decreases |items| - it
      {
        items := items[it := items[it + affected]];
        it := it + 1;
      }
      Shifted(was, items, first, affected);
      items := items[..|items| - affected];
      ErasedUnique(was, first, last);
      return first;
    }
  }

  // ----- Runs of operations refine a map with an insertion sequence ---------------------------

  datatype Op<K, V> =
    | Emplace(key: K, value: V)
    | Assign(key: K, value: V)
    | EraseKey(key: K)
    | EraseRange(first: nat, last: nat)

  /** What the methods do to the vector. */
  function Apply<K(==), V>(items: seq<(K, V)>, op: Op<K, V>): seq<(K, V)> {
    match op
    case Emplace(k, v) => if Position(items, k) == |items| then items + [(k, v)] else items
    case Assign(k, v) =>
      var p := Position(items, k);
      if p == |items| then items + [(k, v)] else items[p := (k, v)]
    case EraseKey(k) =>
      var p := Position(items, k);
      if p < |items| then Cut(items, p, p + 1) else items
    case EraseRange(first, last) => if first <= last <= |items| then Cut(items, first, last) else items
  }

  datatype Abstract<K, V> = Abstract(order: seq<K>, contents: map<K, V>)

  function WithoutKey<K(==)>(order: seq<K>, k: K): seq<K> {
    if order == [] then
      []
    else
      (if order[0] == k then [] else [order[0]]) + WithoutKey(order[1..], k)
  }

  function Elements<K(==)>(order: seq<K>): set<K> {
    set k | k in order
  }

  /** The same operations on a map and the sequence in which its keys were inserted. */
  function ApplyAbstract<K(==), V>(a: Abstract<K, V>, op: Op<K, V>): Abstract<K, V> {
    match op
    case Emplace(k, v) => if k in a.contents then a else Abstract(a.order + [k], a.contents[k := v])
    case Assign(k, v) => Abstract(if k in a.contents then a.order else a.order + [k], a.contents[k := v])
    case EraseKey(k) => Abstract(WithoutKey(a.order, k), a.contents - {k})
    case EraseRange(first, last) =>
      if first <= last <= |a.order| then
        Abstract(Cut(a.order, first, last), a.contents - Elements(a.order[first..last]))
      else
        a
  }

  function Abstraction<K(==), V>(items: seq<(K, V)>): Abstract<K, V> {
    Abstract(KeysOf(items), Contents(items))
  }

  lemma CutKeys<K, V>(items: seq<(K, V)>, first: nat, last: nat)
    requires UniqueKeys(items) && first <= last <= |items|
    ensures UniqueKeys(Cut(items, first, last))
    ensures KeysOf(Cut(items, first, last)) == Cut(KeysOf(items), first, last)
  {
  }

  lemma KeysIn<K, V>(items: seq<(K, V)>, first: nat, last: nat, k: K)
    requires first <= last <= |items|
    ensures k in KeysOf(items)[first..last] <==> exists n :: first <= n < last && items[n].0 == k
  {
    var gone := KeysOf(items)[first..last];
    if k in gone {
      var n :| 0 <= n < |gone| && gone[n] == k;
      assert items[first + n].0 == k;
    }
    if n :| first <= n < last && items[n].0 == k {
      assert gone[n - first] == k;
    }
  }

  /** Where a pair of the cut vector comes from. */
  lemma CutOrigin<K, V>(items: seq<(K, V)>, first: nat, last: nat, i: nat)
    requires UniqueKeys(items) && first <= last <= |items| && i < |Cut(items, first, last)|
    ensures var m := Contents(items) - Elements(KeysOf(items)[first..last]);
            var pair := Cut(items, first, last)[i];
            pair.0 in m && m[pair.0] == pair.1
  {
    var j := if i < first then i else i + (last - first);
    assert Cut(items, first, last)[i] == items[j];
    ContentsAt(items, j);
    KeysIn(items, first, last, items[j].0);
  }

  lemma CutSurvivor<K, V>(items: seq<(K, V)>, first: nat, last: nat, k: K) returns (i: nat)
    requires first <= last <= |items| && k in Contents(items) && k !in KeysOf(items)[first..last]
    ensures i < |Cut(items, first, last)| && Cut(items, first, last)[i].0 == k
  {
    KeysIn(items, first, last, k);
    var j :| 0 <= j < |items| && items[j].0 == k;
    i := if j < first then j else j - (last - first);
  }

  lemma CutContents<K, V>(items: seq<(K, V)>, first: nat, last: nat)
    requires UniqueKeys(items) && first <= last <= |items|
    ensures Contents(Cut(items, first, last)) == Contents(items) - Elements(KeysOf(items)[first..last])
  {
    var cut, m := Cut(items, first, last), Contents(items) - Elements(KeysOf(items)[first..last]);
    CutKeys(items, first, last);
    forall i | 0 <= i < |cut|
      ensures cut[i].0 in m && m[cut[i].0] == cut[i].1
    {
      CutOrigin(items, first, last, i);
    }
    forall k | k in m
      ensures exists i :: 0 <= i < |cut| && cut[i].0 == k
    {
      var i := CutSurvivor(items, first, last, k);
    }
    ContentsUnique(cut, m);
  }

  lemma {:induction false} WithoutIsCut<K>(order: seq<K>, k: K, p: nat)
    requires p <= |order| && (p < |order| ==> order[p] == k)
    requires forall i :: 0 <= i < |order| && i != p ==> order[i] != k
    ensures WithoutKey(order, k) == if p < |order| then Cut(order, p, p + 1) else order
    decreases |order|
  {
    if order != [] {
      var rest := order[1..];
      assert order == [order[0]] + rest;
      if p == 0 {
        WithoutIsCut(rest, k, |rest|);
      } else {
        WithoutIsCut(rest, k, p - 1);
      }
    }
  }

  lemma EmplaceRefines<K, V>(items: seq<(K, V)>, k: K, v: V)
    requires UniqueKeys(items)
    ensures UniqueKeys(Apply(items, Op.Emplace(k, v)))
    ensures Abstraction(Apply(items, Op.Emplace(k, v))) == ApplyAbstract(Abstraction(items), Op.Emplace(k, v))
  {
    var p := Position(items, k);
    if p == |items| {
      assert (items + [(k, v)])[..|items|] == items;
      assert KeysOf(items + [(k, v)]) == KeysOf(items) + [k];
    } else {
      assert items[p].0 == k;
    }
  }

  lemma OverwriteContents<K, V>(items: seq<(K, V)>, p: nat, v: V)
    requires UniqueKeys(items) && p < |items|
    ensures UniqueKeys(items[p := (items[p].0, v)])
    ensures Contents(items[p := (items[p].0, v)]) == Contents(items)[items[p].0 := v]
  {
    var k := items[p].0;
    var after, m := items[p := (k, v)], Contents(items)[k := v];
    forall i | 0 <= i < |after|
      ensures after[i].0 in m && m[after[i].0] == after[i].1
    {
      ContentsAt(items, i);
    }
    forall o | o in m
      ensures exists i :: 0 <= i < |after| && after[i].0 == o
    {
      var i :| 0 <= i < |items| && items[i].0 == o;
      assert after[i].0 == o;
    }
    ContentsUnique(after, m);
  }

  lemma PresentIff<K, V>(items: seq<(K, V)>, k: K)
    ensures Position(items, k) < |items| <==> k in Contents(items)
  {
  }

  lemma OverwriteKeys<K, V>(items: seq<(K, V)>, p: nat, v: V)
    requires p < |items|
    ensures KeysOf(items[p := (items[p].0, v)]) == KeysOf(items)
  {
  }

  lemma AssignRefines<K, V>(items: seq<(K, V)>, k: K, v: V)
    requires UniqueKeys(items)
    ensures UniqueKeys(Apply(items, Op.Assign(k, v)))
    ensures Abstraction(Apply(items, Op.Assign(k, v))) == ApplyAbstract(Abstraction(items), Op.Assign(k, v))
  {
    var p := Position(items, k);
    PresentIff(items, k);
    if p == |items| {
      EmplaceRefines(items, k, v);
    } else {
      OverwriteKeys(items, p, v);
      OverwriteContents(items, p, v);
    }
  }

  lemma OnlyAt<K, V>(items: seq<(K, V)>, k: K)
    requires UniqueKeys(items)
    ensures var p, keys := Position(items, k), KeysOf(items);
            (p < |keys| ==> keys[p] == k) && forall i :: 0 <= i < |keys| && i != p ==> keys[i] != k
  {
    var p, keys := Position(items, k), KeysOf(items);
    forall i | 0 <= i < |keys| && i != p
      ensures keys[i] != k
    {
      assert keys[i] == items[i].0;
      if p < i {
        assert items[p].0 != items[i].0;
      }
    }
  }

  lemma EraseKeyOrder<K, V>(items: seq<(K, V)>, k: K)
    requires UniqueKeys(items)
    ensures KeysOf(Apply(items, Op.EraseKey(k))) == WithoutKey(KeysOf(items), k)
  {
    var p, keys := Position(items, k), KeysOf(items);
    OnlyAt(items, k);
    WithoutIsCut(keys, k, p);
    if p < |items| {
      CutKeys(items, p, p + 1);
    }
  }

  lemma EraseKeyContents<K, V>(items: seq<(K, V)>, k: K)
    requires UniqueKeys(items)
    ensures UniqueKeys(Apply(items, Op.EraseKey(k)))
    ensures Contents(Apply(items, Op.EraseKey(k))) == Contents(items) - {k}
  {
    var p := Position(items, k);
    if p < |items| {
      CutKeys(items, p, p + 1);
      CutContents(items, p, p + 1);
      assert KeysOf(items)[p] == k;
      OneElement(KeysOf(items), p);
    } else {
      assert k !in Contents(items);
      assert Contents(items) - {k} == Contents(items);
    }
  }

  lemma EraseKeyRefines<K, V>(items: seq<(K, V)>, k: K)
    requires UniqueKeys(items)
    ensures UniqueKeys(Apply(items, Op.EraseKey(k)))
    ensures Abstraction(Apply(items, Op.EraseKey(k))) == ApplyAbstract(Abstraction(items), Op.EraseKey(k))
  {
    EraseKeyOrder(items, k);
    EraseKeyContents(items, k);
  }

  lemma OneElement<K>(keys: seq<K>, p: nat)
    requires p < |keys|
    ensures Elements(keys[p..p + 1]) == {keys[p]}
  {
    assert keys[p..p + 1] == [keys[p]];
  }

  lemma ApplyRefines<K, V>(items: seq<(K, V)>, op: Op<K, V>)
    requires UniqueKeys(items)
    ensures UniqueKeys(Apply(items, op))
    ensures Abstraction(Apply(items, op)) == ApplyAbstract(Abstraction(items), op)
  {
    match op {
      case Emplace(k, v) => EmplaceRefines(items, k, v);
      case Assign(k, v) => AssignRefines(items, k, v);
      case EraseKey(k) => EraseKeyRefines(items, k);
      case EraseRange(first, last) =>
        if first <= last <= |items| {
          CutKeys(items, first, last);
          CutContents(items, first, last);
        }
    }
  }

  function Run<K(==), V>(ops: seq<Op<K, V>>): seq<(K, V)> {
    if ops == [] then [] else Apply(Run(ops[..|ops| - 1]), ops[|ops| - 1])
  }

  function RunAbstract<K(==), V>(ops: seq<Op<K, V>>): Abstract<K, V> {
    if ops == [] then Abstract([], map[]) else ApplyAbstract(RunAbstract(ops[..|ops| - 1]), ops[|ops| - 1])
  }

  /** After any run from empty, the keys are unique and the vector is the map together with the order in
      which its keys were inserted. */
  lemma {:induction false} RunRefines<K, V>(ops: seq<Op<K, V>>)
    ensures UniqueKeys(Run(ops)) && Abstraction(Run(ops)) == RunAbstract(ops)
    decreases |ops|
  {
    if ops != [] {
      var n := |ops| - 1;
      RunRefines(ops[..n]);
      ApplyRefines(Run(ops[..n]), ops[n]);
    }
  }
}
