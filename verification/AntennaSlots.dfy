/** For every accepted list of separated antenna entries, however small its steps: exactly when the cells of
    the grid are written once each. */
module AntennaSlots {
  import opened Outcomes
  import opened Rounding
  import opened AntennaGrid
  import opened AntennaCells

  // ----- Counting -----------------------------------------------------------------------------

  /** The numbers below `|f|`, each once. */
  ghost predicate Permutation(f: seq<int>) {
    (forall a :: 0 <= a < |f| ==> 0 <= f[a] < |f|) && forall a, b :: 0 <= a < b < |f| ==> f[a] != f[b]
  }

  ghost function LowPlaces(f: seq<int>, c: nat): set<int> {
    set k | 0 <= k < |f| && f[k] < c
  }

  /** Of a permutation, as many places hold numbers below `c` as there are such numbers. */
  lemma {:induction false} CountLow(f: seq<int>, c: nat)
    requires Permutation(f) && c <= |f|
    ensures |LowPlaces(f, c)| == c
    decreases c
  {
    if c == 0 {
      assert LowPlaces(f, 0) == {};
    } else {
      CountLow(f, c - 1);
      Pigeonhole(f, |f|, c - 1);
      var k :| 0 <= k < |f| && f[k] == c - 1;
      LowStep(f, c - 1, k);
    }
  }

  lemma LowStep(f: seq<int>, c: nat, k: nat)
    requires Permutation(f) && k < |f| && f[k] == c
    ensures LowPlaces(f, c + 1) == LowPlaces(f, c) + {k} && k !in LowPlaces(f, c)
  {
    forall m | m in LowPlaces(f, c + 1) && m != k
      ensures m in LowPlaces(f, c)
    {
      assert f[m] != f[k];
    }
  }

  lemma SmallerSet(a: set<int>, b: set<int>, k: int)
    requires a <= b && k in b && k !in a
    ensures |a| < |b|
  {
    assert a <= b - {k};
    SubsetAtMost(a, b - {k});
  }

  lemma {:induction false} SubsetAtMost(a: set<int>, b: set<int>)
    requires a <= b
    ensures |a| <= |b|
  {
    assert b == a + (b - a);
  }

  // ----- Two numberings of the cells ----------------------------------------------------------

  /** Places of pairs with rows of `cols`. */
  ghost function PairPlaces(rows: seq<int>, columns: seq<int>, cols: nat): seq<int>
    requires |rows| == |columns|
  {
    seq(|rows|, k requires 0 <= k < |rows| => Place(rows[k], columns[k], cols))
  }

  /** As many pairs as cells, all in range and no two alike. */
  ghost predicate FillsGrid(rows: seq<int>, columns: seq<int>, n: nat, cols: nat) {
    |rows| == |columns| == n * cols
    && (forall k :: 0 <= k < |rows| ==> 0 <= rows[k] < n && 0 <= columns[k] < cols)
    && forall a, b :: 0 <= a < b < |rows| ==> rows[a] != rows[b] || columns[a] != columns[b]
  }

  lemma PlacesPermute(rows: seq<int>, columns: seq<int>, n: nat, cols: nat)
    requires FillsGrid(rows, columns, n, cols)
    ensures Permutation(PairPlaces(rows, columns, cols))
  {
    var f := PairPlaces(rows, columns, cols);
    forall a | 0 <= a < |f|
      ensures 0 <= f[a] < |f|
    {
      PlaceInRange(rows[a], columns[a], n, cols);
    }
    forall a, b | 0 <= a < b < |f|
      ensures f[a] != f[b]
    {
      if f[a] == f[b] {
        PlaceUnique(rows[a], columns[a], rows[b], columns[b], cols);
      }
    }
  }

  ghost function LowRows(rows: seq<int>, s: int): set<int> {
    set k | 0 <= k < |rows| && rows[k] < s
  }

  /** The first `s` rows hold `s * cols` of the pairs. */
  lemma CountRows(rows: seq<int>, columns: seq<int>, n: nat, cols: nat, s: nat)
    requires FillsGrid(rows, columns, n, cols) && s <= n
    ensures |LowRows(rows, s)| == s * cols
  {
    var f := PairPlaces(rows, columns, cols);
    PlacesPermute(rows, columns, n, cols);
    RowsAtMost(s, n, cols);
    CountLow(f, s * cols);
    forall k | 0 <= k < |rows|
      ensures rows[k] < s <==> f[k] < s * cols
    {
      RowOfPlace(rows[k], columns[k], s, cols);
    }
    assert LowRows(rows, s) == LowPlaces(f, s * cols);
  }

  lemma RowsAtMost(s: nat, n: nat, cols: nat)
    requires s <= n
    ensures s * cols <= n * cols
  {
    if s < n {
      RowBelow(s, n, cols);
    }
  }

  lemma RowOfPlace(j: nat, i: nat, s: nat, cols: nat)
    requires i < cols
    ensures j < s <==> Place(j, i, cols) < s * cols
  {
    if j < s {
      RowBelow(j, s, cols);
    } else {
      RowsAtMost(s, j, cols);
    }
  }

  /** Two numberings of the same pairs by rows agree if one ascends with the other: a pair that went to a
      higher row would leave too few for the rows below. */
  lemma RowsAgree(p: seq<int>, q: seq<int>, u: seq<int>, v: seq<int>, n: nat, cols: nat, k: nat)
    requires FillsGrid(p, q, n, cols) && FillsGrid(u, v, n, cols) && k < |p|
    requires forall a, b :: 0 <= a < |u| && 0 <= b < |u| && u[a] < u[b] ==> p[a] <= p[b]
    ensures p[k] == u[k]
  {
    if p[k] > u[k] {
      var s := u[k] + 1;
      CountRows(p, q, n, cols, s);
      CountRows(u, v, n, cols, s);
      assert LowRows(p, s) <= LowRows(u, s);
      SmallerSet(LowRows(p, s), LowRows(u, s), k);
    } else if p[k] < u[k] {
      var s := u[k];
      CountRows(p, q, n, cols, s);
      CountRows(u, v, n, cols, s);
      assert LowRows(u, s) <= LowRows(p, s);
      SmallerSet(LowRows(u, s), LowRows(p, s), k);
    }
  }

  // ----- Indices and slots --------------------------------------------------------------------

  lemma RoundAscends(x: real, y: real)
    requires x <= y
    ensures RoundEven(x) <= RoundEven(y)
  {
  }

  lemma QuotientAscends(x: real, y: real, step: real)
    requires x <= y && step > 0.0
    ensures x / step <= y / step
  {
    var q, r := x / step, y / step;
    assert q * step == x && r * step == y;
    Below(q, r, step);
  }

  lemma IndexAscends(axis: Axis, x: real, y: real)
    requires axis.step > 0.0 && x <= y
    ensures IndexOn(axis, x) <= IndexOn(axis, y)
  {
    QuotientAscends(x - axis.min, y - axis.min, axis.step);
    RoundAscends((x - axis.min) / axis.step, (y - axis.min) / axis.step);
  }

  ghost predicate AreSlots(values: seq<real>, u: seq<int>) {
    |u| == |values| && forall k :: 0 <= k < |u| ==> InSlot(Merged(Sort(values)), values[k], u[k])
  }

  lemma {:induction false} SlotsUpTo(values: seq<real>, n: nat) returns (u: seq<int>)
    requires n <= |values|
    ensures |u| == n && forall k :: 0 <= k < n ==> InSlot(Merged(Sort(values)), values[k], u[k])
  {
    u := [];
    if n > 0 {
      u := SlotsUpTo(values, n - 1);
      var k := SlotOf(values, values[n - 1]);
      u := u + [k];
    }
  }

  lemma SlotUnique(d: seq<real>, v: real, k: int, m: int)
    requires Spread(d) && InSlot(d, v, k) && InSlot(d, v, m)
    ensures k == m
  {
  }

  lemma SlotAscends(d: seq<real>, v: real, k: int, w: real, m: int)
    requires Spread(d) && InSlot(d, v, k) && InSlot(d, w, m) && k < m
    ensures v <= w
  {
    assert d[m] - d[k] > TOL;
  }

  ghost function Indices(axis: Axis, values: seq<real>): seq<int>
    requires axis.step != 0.0
  {
    seq(|values|, k requires 0 <= k < |values| => IndexOn(axis, values[k]))
  }

  /** Every value rounds to the number of the distinct value that it was merged into. */
  ghost predicate RoundsHome(values: seq<real>)
    requires AxisOf(values).Some?
  {
    forall v, k :: v in values && InSlot(Merged(Sort(values)), v, k) ==> IndexOn(AxisOf(values).value, v) == k
  }

  lemma AxisAscends(values: seq<real>, u: seq<int>, a: nat, b: nat)
    requires AxisOf(values).Some? && AreSlots(values, u) && a < |u| && b < |u| && u[a] < u[b]
    ensures Indices(AxisOf(values).value, values)[a] <= Indices(AxisOf(values).value, values)[b]
  {
    var d := Merged(Sort(values));
    MergedSpread(values);
    StepNear(d, 0);
    SlotAscends(d, values[a], u[a], values[b], u[b]);
    IndexAscends(AxisOf(values).value, values[a], values[b]);
  }

  /** If indices and slots both number the cells, every value rounds home. */
  lemma HomeByCounting(values: seq<real>, u: seq<int>, q: seq<int>, v: seq<int>, n: nat, cols: nat)
    requires AxisOf(values).Some? && AreSlots(values, u)
    requires FillsGrid(Indices(AxisOf(values).value, values), q, n, cols) && FillsGrid(u, v, n, cols)
    ensures RoundsHome(values)
  {
    var p, d := Indices(AxisOf(values).value, values), Merged(Sort(values));
    MergedSpread(values);
    forall a, b | 0 <= a < |u| && 0 <= b < |u| && u[a] < u[b]
      ensures p[a] <= p[b]
    {
      AxisAscends(values, u, a, b);
    }
    forall x, k | x in values && InSlot(d, x, k)
      ensures IndexOn(AxisOf(values).value, x) == k
    {
      var m :| 0 <= m < |values| && values[m] == x;
      SlotUnique(d, x, k, u[m]);
      RowsAgree(p, q, u, v, n, cols, m);
    }
  }

  // ----- The exact condition ------------------------------------------------------------------

  ghost predicate EntriesRoundHome(entries: seq<Entry>)
    requires Build(entries).Some?
  {
    RoundsHome(Phis(entries)) && RoundsHome(Thetas(entries))
  }

  lemma SlotsFill(entries: seq<Entry>, i: seq<int>, j: seq<int>)
    requires Build(entries).Some? && Separated(entries)
    requires AreSlots(Phis(entries), i) && AreSlots(Thetas(entries), j)
    ensures var g := Build(entries).value;
            FillsGrid(i, j, g.phi.size, g.theta.size) && FillsGrid(j, i, g.theta.size, g.phi.size)
  {
    var phis, thetas := Merged(Sort(Phis(entries))), Merged(Sort(Thetas(entries)));
    forall k | 0 <= k < |entries|
      ensures InSlot(phis, entries[k].phi, i[k]) && InSlot(thetas, entries[k].theta, j[k])
    {
      assert Phis(entries)[k] == entries[k].phi && Thetas(entries)[k] == entries[k].theta;
    }
    forall a, b | 0 <= a < b < |entries|
      ensures i[a] != i[b] || j[a] != j[b]
    {
      assert InSlot(phis, entries[a].phi, i[a]) && InSlot(phis, entries[b].phi, i[b]);
      assert InSlot(thetas, entries[a].theta, j[a]) && InSlot(thetas, entries[b].theta, j[b]);
    }
  }

  lemma IndicesFill(entries: seq<Entry>)
    requires Build(entries).Some? && NoClash(entries, Build(entries).value.phi, Build(entries).value.theta)
    ensures var g := Build(entries).value;
            var p, q := Indices(g.phi, Phis(entries)), Indices(g.theta, Thetas(entries));
            FillsGrid(p, q, g.phi.size, g.theta.size) && FillsGrid(q, p, g.theta.size, g.phi.size)
  {
    var g := Build(entries).value;
    var p, q := Indices(g.phi, Phis(entries)), Indices(g.theta, Thetas(entries));
    forall k | 0 <= k < |entries|
      ensures 0 <= p[k] < g.phi.size && 0 <= q[k] < g.theta.size
    {
      Built(entries, k);
    }
    forall a, b | 0 <= a < b < |entries|
      ensures p[a] != p[b] || q[a] != q[b]
    {
      assert PlaceOf(entries[a], g.phi, g.theta) == Place(q[a], p[a], g.phi.size);
      assert PlaceOf(entries[b], g.phi, g.theta) == Place(q[b], p[b], g.phi.size);
    }
  }

  lemma HomeWithoutClash(entries: seq<Entry>)
    requires Build(entries).Some? && Separated(entries)
    requires NoClash(entries, Build(entries).value.phi, Build(entries).value.theta)
    ensures EntriesRoundHome(entries)
  {
    var g := Build(entries).value;
    var i := SlotsUpTo(Phis(entries), |entries|);
    var j := SlotsUpTo(Thetas(entries), |entries|);
    SlotsFill(entries, i, j);
    IndicesFill(entries);
    var p, q := Indices(g.phi, Phis(entries)), Indices(g.theta, Thetas(entries));
    HomeByCounting(Phis(entries), i, q, j, g.phi.size, g.theta.size);
    HomeByCounting(Thetas(entries), j, p, i, g.theta.size, g.phi.size);
  }

  lemma NoClashAtHome(entries: seq<Entry>, k: nat, m: nat)
    requires Build(entries).Some? && Separated(entries) && EntriesRoundHome(entries) && k < m < |entries|
    ensures var g := Build(entries).value;
            PlaceOf(entries[k], g.phi, g.theta) != PlaceOf(entries[m], g.phi, g.theta)
  {
    var phis, thetas := Phis(entries), Thetas(entries);
    assert phis[k] in phis && phis[m] in phis && thetas[k] in thetas && thetas[m] in thetas;
    var i := SlotOf(phis, phis[k]);
    var j := SlotOf(thetas, thetas[k]);
    var i' := SlotOf(phis, phis[m]);
    var j' := SlotOf(thetas, thetas[m]);
    SamePlace(entries, m, j, i);
  }

  /** For every accepted list of separated entries: each cell is written exactly once, and holds its entry's
      gain, if and only if every angle rounds to the number of the distinct value it was merged into. */
  lemma OnceIffRoundsHome(entries: seq<Entry>)
    requires Build(entries).Some? && Separated(entries)
    ensures EveryCellOnce(entries, Build(entries).value) <==> EntriesRoundHome(entries)
  {
    var g := Build(entries).value;
    OnceIffNoClash(entries);
    if NoClash(entries, g.phi, g.theta) {
      HomeWithoutClash(entries);
    }
    if EntriesRoundHome(entries) {
      forall k, m | 0 <= k < m < |entries|
        ensures PlaceOf(entries[k], g.phi, g.theta) != PlaceOf(entries[m], g.phi, g.theta)
      {
        NoClashAtHome(entries, k, m);
      }
    }
  }
}
