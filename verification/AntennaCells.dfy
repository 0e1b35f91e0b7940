/** Which entries are written to which cells of an accepted antenna grid. */
module AntennaCells {
  import opened Outcomes
  import opened AntennaGrid

  // ----- As many entries as cells -------------------------------------------------------------

  ghost predicate Hits(e: Entry, phi: Axis, theta: Axis, j: int, i: int)
    requires phi.step != 0.0 && theta.step != 0.0
  {
    IndexOn(theta, e.theta) == j && IndexOn(phi, e.phi) == i
  }

  /** A cell holds the gain of the last entry written to it. */
  lemma {:induction false} FillLast(entries: seq<Entry>, phi: Axis, theta: Axis, k: nat, j: nat, i: nat)
    requires phi.step != 0.0 && theta.step != 0.0 && Fill(entries, phi, theta).Some? && k < |entries|
    requires j < theta.size && i < phi.size && Hits(entries[k], phi, theta, j, i)
    requires forall m :: k < m < |entries| ==> !Hits(entries[m], phi, theta, j, i)
    ensures Fill(entries, phi, theta).value[j][i] == entries[k].gain
    decreases |entries|
  {
    var n := |entries| - 1;
    if k < n {
      FillLast(entries[..n], phi, theta, k, j, i);
    }
  }

  lemma {:induction false} FillInRange(entries: seq<Entry>, phi: Axis, theta: Axis, k: nat)
    requires phi.step != 0.0 && theta.step != 0.0 && Fill(entries, phi, theta).Some? && k < |entries|
    ensures InRange(entries[k], phi, theta)
    decreases |entries|
  {
    var n := |entries| - 1;
    if k < n {
      FillInRange(entries[..n], phi, theta, k);
    }
  }

  ghost function Range(n: nat): (s: set<int>)
    ensures |s| == n && forall x :: x in s <==> 0 <= x < n
  {
    if n == 0 then {} else Range(n - 1) + {n - 1}
  }

  lemma {:induction false} DistinctSize(f: seq<int>, s: set<int>)
    requires (forall a, b :: 0 <= a < b < |f| ==> f[a] != f[b]) && s == set x | x in f
    ensures |s| == |f|
    decreases |f|
  {
    if f == [] {
      assert s == {};
    } else {
      var n := |f| - 1;
      var rest := set x | x in f[..n];
      DistinctSize(f[..n], rest);
      assert f == f[..n] + [f[n]];
      assert s == rest + {f[n]};
    }
  }

  lemma {:induction false} SubsetSize(s: set<int>, t: set<int>)
    requires s <= t && |s| == |t|
    ensures s == t
  {
    assert |t - s| == |t| - |s|;
  }

  /** As many distinct numbers below `n` as there are: each of them occurs. */
  lemma Pigeonhole(f: seq<int>, n: nat, x: int)
    requires |f| == n && 0 <= x < n
    requires forall a :: 0 <= a < |f| ==> 0 <= f[a] < n
    requires forall a, b :: 0 <= a < b < |f| ==> f[a] != f[b]
    ensures x in f
  {
    var s := set y | y in f;
    DistinctSize(f, s);
    SubsetSize(s, Range(n));
    assert x in Range(n);
  }

  /** The place of row `j`, column `i` in row-major order. */
  function Place(j: int, i: int, cols: nat): int {
    j * cols + i
  }

  lemma {:induction false} RowBelow(j: int, k: int, cols: nat)
    requires j < k
    ensures j * cols + cols <= k * cols
    decreases k - j
  {
    assert (k - 1) * cols + cols == k * cols;
    if j < k - 1 {
      RowBelow(j, k - 1, cols);
    }
  }

  lemma PlaceInRange(j: int, i: int, rows: nat, cols: nat)
    requires 0 <= i < cols && 0 <= j < rows
    ensures 0 <= Place(j, i, cols) < rows * cols
  {
    RowBelow(j, rows, cols);
    assert 0 <= j * cols;
  }

  lemma PlaceUnique(j: int, i: int, k: int, l: int, cols: nat)
    requires 0 <= i < cols && 0 <= l < cols && Place(j, i, cols) == Place(k, l, cols)
    ensures j == k && i == l
  {
    if j < k {
      RowBelow(j, k, cols);
    } else if k < j {
      RowBelow(k, j, cols);
    }
  }

  /** Where entry `k` is written. */
  ghost function PlaceOf(e: Entry, phi: Axis, theta: Axis): int
    requires phi.step != 0.0 && theta.step != 0.0
  {
    Place(IndexOn(theta, e.theta), IndexOn(phi, e.phi), phi.size)
  }

  ghost function Places(entries: seq<Entry>, phi: Axis, theta: Axis): seq<int>
    requires phi.step != 0.0 && theta.step != 0.0
  {
    seq(|entries|, m requires 0 <= m < |entries| => PlaceOf(entries[m], phi, theta))
  }

  lemma PlaceBelowCount(entries: seq<Entry>, j: nat, i: nat)
    requires Build(entries).Some? && j < Build(entries).value.theta.size && i < Build(entries).value.phi.size
    ensures 0 <= Place(j, i, Build(entries).value.phi.size) < |entries|
  {
    var g := Build(entries).value;
    PlaceInRange(j, i, g.theta.size, g.phi.size);
    assert g.theta.size * g.phi.size == g.phi.size * g.theta.size;
  }

  /** No two entries are written to the same cell. */
  ghost predicate NoClash(entries: seq<Entry>, phi: Axis, theta: Axis)
    requires phi.step != 0.0 && theta.step != 0.0
  {
    forall k, m :: 0 <= k < m < |entries| ==> PlaceOf(entries[k], phi, theta) != PlaceOf(entries[m], phi, theta)
  }

  /** Entry `k`, and no other, is written to row `j`, column `i`, and its gain is there. */
  ghost predicate WrittenOnce(entries: seq<Entry>, g: Grid, j: int, i: int, k: int)
    requires g.phi.step != 0.0 && g.theta.step != 0.0 && Shaped(g.cells, g.theta.size, g.phi.size)
    requires 0 <= j < g.theta.size && 0 <= i < g.phi.size
  {
    0 <= k < |entries| && g.cells[j][i] == entries[k].gain
    && forall m :: 0 <= m < |entries| ==> (Hits(entries[m], g.phi, g.theta, j, i) <==> m == k)
  }

  ghost predicate CellOnce(entries: seq<Entry>, g: Grid, j: int, i: int)
    requires g.phi.step != 0.0 && g.theta.step != 0.0 && Shaped(g.cells, g.theta.size, g.phi.size)
    requires 0 <= j < g.theta.size && 0 <= i < g.phi.size
  {
    exists k :: WrittenOnce(entries, g, j, i, k)
  }

  ghost predicate EveryCellOnce(entries: seq<Entry>, g: Grid)
    requires g.phi.step != 0.0 && g.theta.step != 0.0 && Shaped(g.cells, g.theta.size, g.phi.size)
  {
    forall j, i :: 0 <= j < g.theta.size && 0 <= i < g.phi.size ==> CellOnce(entries, g, j, i)
  }

  lemma Built(entries: seq<Entry>, k: nat)
    requires Build(entries).Some? && k < |entries|
    ensures var g := Build(entries).value;
            Fill(entries, g.phi, g.theta) == Some(g.cells) && InRange(entries[k], g.phi, g.theta)
            && 0 <= PlaceOf(entries[k], g.phi, g.theta) < |entries|
  {
    var g := Build(entries).value;
    FillInRange(entries, g.phi, g.theta, k);
    PlaceBelowCount(entries, IndexOn(g.theta, entries[k].theta), IndexOn(g.phi, entries[k].phi));
  }

  lemma SamePlace(entries: seq<Entry>, k: nat, j: nat, i: nat)
    requires Build(entries).Some? && k < |entries| && i < Build(entries).value.phi.size
    ensures var g := Build(entries).value;
            PlaceOf(entries[k], g.phi, g.theta) == Place(j, i, g.phi.size)
            <==> Hits(entries[k], g.phi, g.theta, j, i)
  {
    var g, e := Build(entries).value, entries[k];
    Built(entries, k);
    if PlaceOf(e, g.phi, g.theta) == Place(j, i, g.phi.size) {
      PlaceUnique(IndexOn(g.theta, e.theta), IndexOn(g.phi, e.phi), j, i, g.phi.size);
    }
  }

  /** There are as many entries as cells, so without clashes every cell is hit. */
  lemma SomeEntryHits(entries: seq<Entry>, j: nat, i: nat) returns (k: nat)
    requires Build(entries).Some?
    requires NoClash(entries, Build(entries).value.phi, Build(entries).value.theta)
    requires j < Build(entries).value.theta.size && i < Build(entries).value.phi.size
    ensures k < |entries| && Hits(entries[k], Build(entries).value.phi, Build(entries).value.theta, j, i)
  {
    var g := Build(entries).value;
    var f := Places(entries, g.phi, g.theta);
    forall m | 0 <= m < |f|
      ensures 0 <= f[m] < |f|
    {
      Built(entries, m);
    }
    PlaceBelowCount(entries, j, i);
    Pigeonhole(f, |entries|, Place(j, i, g.phi.size));
    k :| 0 <= k < |f| && f[k] == Place(j, i, g.phi.size);
    SamePlace(entries, k, j, i);
  }

  lemma WrittenWithoutClash(entries: seq<Entry>, j: nat, i: nat) returns (k: nat)
    requires Build(entries).Some?
    requires NoClash(entries, Build(entries).value.phi, Build(entries).value.theta)
    requires j < Build(entries).value.theta.size && i < Build(entries).value.phi.size
    ensures WrittenOnce(entries, Build(entries).value, j, i, k)
  {
    var g := Build(entries).value;
    k := SomeEntryHits(entries, j, i);
    Built(entries, k);
    SamePlace(entries, k, j, i);
    forall m | 0 <= m < |entries| && m != k
      ensures !Hits(entries[m], g.phi, g.theta, j, i)
    {
      SamePlace(entries, m, j, i);
    }
    FillLast(entries, g.phi, g.theta, k, j, i);
  }

  /** For every accepted list of entries, whatever its angles: each cell is written exactly once, and holds
      its entry's gain, if and only if no two entries are written to the same cell. */
  lemma OnceIffNoClash(entries: seq<Entry>)
    requires Build(entries).Some?
    ensures var g := Build(entries).value;
            EveryCellOnce(entries, g) <==> NoClash(entries, g.phi, g.theta)
  {
    var g := Build(entries).value;
    if NoClash(entries, g.phi, g.theta) {
      forall j, i | 0 <= j < g.theta.size && 0 <= i < g.phi.size
        ensures CellOnce(entries, g, j, i)
      {
        var k := WrittenWithoutClash(entries, j, i);
      }
    }
    if EveryCellOnce(entries, g) {
      forall k, m | 0 <= k < m < |entries|
        ensures PlaceOf(entries[k], g.phi, g.theta) != PlaceOf(entries[m], g.phi, g.theta)
      {
        Built(entries, k);
        var j, i := IndexOn(g.theta, entries[k].theta), IndexOn(g.phi, entries[k].phi);
        assert CellOnce(entries, g, j, i);
        var only :| WrittenOnce(entries, g, j, i, only);
        SamePlace(entries, m, j, i);
        assert Hits(entries[k], g.phi, g.theta, j, i);
      }
    }
  }

  // ----- Values near their grid points --------------------------------------------------------

  /** `v` was merged into the distinct value number `k`. */
  ghost predicate InSlot(distinct: seq<real>, v: real, k: int) {
    0 <= k < |distinct| && 0.0 <= v - distinct[k] <= TOL
  }

  /** `v` is less than half a step away from grid point `k`. */
  ghost predicate Near(axis: Axis, v: real, k: int) {
    axis.step > 0.0 && 2.0 * Abs(v - axis.min - Times(k, axis.step)) < axis.step
  }

  /** Every value is near the grid point of the distinct value that it was merged into. */
  ghost predicate Settled(values: seq<real>) {
    AxisOf(values).Some? ==>
      forall v, k :: v in values && InSlot(Merged(Sort(values)), v, k) ==> Near(AxisOf(values).value, v, k)
  }

  lemma Grows(a: real, b: real, step: real)
    requires a <= b && step > 0.0
    ensures a * step <= b * step
  {
  }

  lemma Below(a: real, b: real, step: real)
    requires step > 0.0 && a * step <= b * step
    ensures a <= b
  {
    assert (b - a) * step >= 0.0;
  }

  lemma HalfStep(a: real, step: real, k: int)
    requires step > 0.0 && 2.0 * Abs(a - Times(k, step)) < step
    ensures k as real - 0.5 < a / step < k as real + 0.5
  {
    var q := a / step;
    assert q * step == a;
    Distribute(q, k as real, step);
    var d := q - k as real;
    assert d * step == a - Times(k, step);
    if d >= 0.5 {
      Grows(0.5, d, step);
    }
    if -d >= 0.5 {
      Grows(0.5, -d, step);
    }
  }

  lemma NearIndex(axis: Axis, v: real, k: int)
    requires Near(axis, v, k)
    ensures IndexOn(axis, v) == k
  {
    HalfStep(v - axis.min, axis.step, k);
  }

  lemma SlotOf(values: seq<real>, v: real) returns (k: nat)
    requires v in values
    ensures InSlot(Merged(Sort(values)), v, k) && v >= Merged(Sort(values))[0]
  {
    DistinctValues(values);
    var i :| 0 <= i < |values| && values[i] == v;
    k := CoverAt(Merged(Sort(values)), values, i);
  }

  ghost predicate SettledEntries(entries: seq<Entry>) {
    Settled(Phis(entries)) && Settled(Thetas(entries))
  }

  /** A settled entry is written where its angles were merged to. */
  lemma EntrySlot(entries: seq<Entry>, k: nat) returns (j: nat, i: nat)
    requires SettledEntries(entries) && Build(entries).Some? && k < |entries|
    ensures var g, e := Build(entries).value, entries[k];
            Hits(e, g.phi, g.theta, j, i) && i < g.phi.size && j < g.theta.size
            && Near(g.phi, e.phi, i) && Near(g.theta, e.theta, j)
            && InSlot(Merged(Sort(Phis(entries))), e.phi, i) && InSlot(Merged(Sort(Thetas(entries))), e.theta, j)
            && e.phi >= g.phi.min && e.theta >= g.theta.min
  {
    var g, e := Build(entries).value, entries[k];
    assert Phis(entries)[k] in Phis(entries) && Thetas(entries)[k] in Thetas(entries);
    i := SlotOf(Phis(entries), e.phi);
    j := SlotOf(Thetas(entries), e.theta);
    NearIndex(g.phi, e.phi, i);
    NearIndex(g.theta, e.theta, j);
  }

  /** Any two entries differ by more than the tolerance in one of their angles. */
  ghost predicate Separated(entries: seq<Entry>) {
    forall k, m :: 0 <= k < m < |entries| ==>
      Abs(entries[k].phi - entries[m].phi) > TOL || Abs(entries[k].theta - entries[m].theta) > TOL
  }

  lemma SettledNoClash(entries: seq<Entry>)
    requires SettledEntries(entries) && Separated(entries) && Build(entries).Some?
    ensures NoClash(entries, Build(entries).value.phi, Build(entries).value.theta)
  {
    var g := Build(entries).value;
    forall k, m | 0 <= k < m < |entries|
      ensures PlaceOf(entries[k], g.phi, g.theta) != PlaceOf(entries[m], g.phi, g.theta)
    {
      var j, i := EntrySlot(entries, k);
      var j', i' := EntrySlot(entries, m);
      SamePlace(entries, m, j, i);
    }
  }

  // ----- Steps well above the tolerance -------------------------------------------------------

  /** The step is so large that the tolerances along the axis do not add up to half of it. */
  predicate Fine(axis: Axis) {
    2.0 * Times(axis.size, TOL) < axis.step
  }

  ghost predicate FineGrid(entries: seq<Entry>) {
    Build(entries).Some? && Fine(Build(entries).value.phi) && Fine(Build(entries).value.theta)
  }

  /** Accepted values drift from the arithmetic progression by at most one tolerance per step. */
  lemma {:induction false} Drift(values: seq<real>, k: nat)
    requires Spread(values) && UniformStep(values).Some? && k < |values|
    ensures Abs(values[k] - values[0] - Times(k, UniformStep(values).value)) <= Times(k, TOL)
    decreases k
  {
    if k > 0 {
      StepNear(values, k - 1);
      Drift(values, k - 1);
      TimesOrder(k, k - 1, UniformStep(values).value);
      TimesOrder(k, k - 1, TOL);
    }
  }

  lemma MergedSpread(values: seq<real>)
    ensures Spread(Merged(Sort(values)))
  {
    DistinctValues(values);
  }

  lemma SlotNear(d: seq<real>, v: real, k: nat)
    requires Spread(d) && UniformStep(d).Some? && InSlot(d, v, k)
    requires 2.0 * Times(|d|, TOL) < UniformStep(d).value
    ensures 2.0 * Abs(v - d[0] - Times(k, UniformStep(d).value)) < UniformStep(d).value
  {
    Drift(d, k);
    TimesOrder(|d|, k, TOL);
  }

  lemma FineSettled(values: seq<real>)
    requires AxisOf(values).Some? && Fine(AxisOf(values).value)
    ensures Settled(values)
  {
    var d := Merged(Sort(values));
    MergedSpread(values);
    StepNear(d, 0);
    forall v, k | v in values && InSlot(d, v, k)
      ensures Near(AxisOf(values).value, v, k)
    {
      SlotNear(d, v, k);
    }
  }

  /** On a fine axis, values in different slots are more than the tolerance apart. */
  lemma SlotsApart(d: seq<real>, v: real, k: nat, w: real, m: nat)
    requires Spread(d) && UniformStep(d).Some? && 2.0 * Times(|d|, TOL) < UniformStep(d).value
    requires InSlot(d, v, k) && InSlot(d, w, m) && k < m
    ensures w - v > TOL
  {
    StepNear(d, k);
    if k + 1 < m {
      assert d[k + 1] < d[m];
    }
    TimesOrder(|d|, 1, TOL);
    assert Times(1, TOL) == TOL;
  }

  /** For every accepted list of entries with fine axes: each cell is written exactly once, and holds its
      entry's gain, if and only if any two entries differ by more than the tolerance in some angle. */
  lemma EachCellOnce(entries: seq<Entry>)
    requires FineGrid(entries)
    ensures EveryCellOnce(entries, Build(entries).value) <==> Separated(entries)
  {
    var g := Build(entries).value;
    FineSettled(Phis(entries));
    FineSettled(Thetas(entries));
    OnceIffNoClash(entries);
    if Separated(entries) {
      SettledNoClash(entries);
    }
    if NoClash(entries, g.phi, g.theta) {
      forall k, m | 0 <= k < m < |entries|
        ensures Abs(entries[k].phi - entries[m].phi) > TOL || Abs(entries[k].theta - entries[m].theta) > TOL
      {
        ApartWithoutClash(entries, k, m);
      }
    }
  }

  lemma ApartWithoutClash(entries: seq<Entry>, k: nat, m: nat)
    requires FineGrid(entries) && SettledEntries(entries) && k < m < |entries|
    requires NoClash(entries, Build(entries).value.phi, Build(entries).value.theta)
    ensures Abs(entries[k].phi - entries[m].phi) > TOL || Abs(entries[k].theta - entries[m].theta) > TOL
  {
    var a, b := entries[k], entries[m];
    var phis, thetas := Merged(Sort(Phis(entries))), Merged(Sort(Thetas(entries)));
    MergedSpread(Phis(entries));
    MergedSpread(Thetas(entries));
    var j, i := EntrySlot(entries, k);
    var j', i' := EntrySlot(entries, m);
    if i < i' {
      SlotsApart(phis, a.phi, i, b.phi, i');
    } else if i' < i {
      SlotsApart(phis, b.phi, i', a.phi, i);
    } else if j < j' {
      SlotsApart(thetas, a.theta, j, b.theta, j');
    } else if j' < j {
      SlotsApart(thetas, b.theta, j', a.theta, j);
    }
  }

  // ----- Angles on a lattice ------------------------------------------------------------------

  /** All values are at whole multiples of `pitch` from `origin`, and the pitch exceeds the tolerance. */
  ghost predicate OnLattice(values: seq<real>, origin: real, pitch: real) {
    pitch > TOL && forall k :: 0 <= k < |values| ==> IsMultiple(values[k], origin, pitch)
  }

  ghost predicate IsMultiple(v: real, origin: real, pitch: real) {
    exists i: int :: v == origin + Times(i, pitch)
  }

  /** Multiples of the pitch within the tolerance of each other are equal. */
  lemma CloseMultiples(i: int, j: int, pitch: real)
    requires pitch > TOL && Abs(Times(i, pitch) - Times(j, pitch)) <= TOL
    ensures i == j
  {
    TimesOrder(i, j, pitch);
    TimesOrder(j, i, pitch);
  }

  /** On a lattice, accepted values form an exact arithmetic progression. */
  lemma {:induction false} Progression(values: seq<real>, origin: real, pitch: real, k: nat)
    requires Spread(values) && OnLattice(values, origin, pitch) && UniformStep(values).Some? && k < |values|
    ensures values[k] == values[0] + Times(k, UniformStep(values).value)
    ensures UniformStep(values).value > TOL
    decreases k
  {
    StepNear(values, 0);
    var step := UniformStep(values).value;
    if k > 0 {
      Progression(values, origin, pitch, k - 1);
      SameStep(values, origin, pitch, k);
      TimesOrder(k, k - 1, step);
      assert Times(1, step) == step;
    }
  }

  lemma SameStep(values: seq<real>, origin: real, pitch: real, k: nat)
    requires Spread(values) && OnLattice(values, origin, pitch) && UniformStep(values).Some? && 0 < k < |values|
    ensures values[k] - values[k - 1] == UniformStep(values).value
  {
    StepNear(values, k - 1);
    assert IsMultiple(values[k], origin, pitch) && IsMultiple(values[k - 1], origin, pitch);
    assert IsMultiple(values[1], origin, pitch) && IsMultiple(values[0], origin, pitch);
    var a: int :| values[k] == origin + Times(a, pitch);
    var b: int :| values[k - 1] == origin + Times(b, pitch);
    var c: int :| values[1] == origin + Times(c, pitch);
    var d: int :| values[0] == origin + Times(d, pitch);
    TimesOrder(a, b, pitch);
    TimesOrder(c, d, pitch);
    CloseMultiples(a - b, c - d, pitch);
  }

  lemma SameMultiple(v: real, w: real, origin: real, pitch: real)
    requires IsMultiple(v, origin, pitch) && IsMultiple(w, origin, pitch) && pitch > TOL && Abs(v - w) <= TOL
    ensures v == w
  {
    var i: int :| v == origin + Times(i, pitch);
    var j: int :| w == origin + Times(j, pitch);
    CloseMultiples(i, j, pitch);
  }

  lemma WithinLattice(d: seq<real>, values: seq<real>, origin: real, pitch: real)
    requires OnLattice(values, origin, pitch) && Within(d, values)
    ensures OnLattice(d, origin, pitch)
  {
    forall k | 0 <= k < |d|
      ensures IsMultiple(d[k], origin, pitch)
    {
      var i := IndexIn(d, values, k);
      assert IsMultiple(values[i], origin, pitch);
    }
  }

  /** On a lattice a value is merged only with its equals, and its grid point is the value itself. */
  lemma OnGridPoint(values: seq<real>, origin: real, pitch: real, v: real, k: nat)
    requires OnLattice(values, origin, pitch) && AxisOf(values).Some? && v in values
    requires InSlot(Merged(Sort(values)), v, k)
    ensures var ax := AxisOf(values).value; ax.step > TOL && v == ax.min + Times(k, ax.step)
  {
    var d := Merged(Sort(values));
    DistinctValues(values);
    WithinLattice(d, values, origin, pitch);
    var i :| 0 <= i < |values| && values[i] == v;
    assert IsMultiple(values[i], origin, pitch) && IsMultiple(d[k], origin, pitch);
    SameMultiple(v, d[k], origin, pitch);
    Progression(d, origin, pitch, k);
  }

  /** However small the step, values on a lattice are settled. */
  lemma LatticeSettled(values: seq<real>, origin: real, pitch: real)
    requires OnLattice(values, origin, pitch)
    ensures Settled(values)
  {
    if AxisOf(values).Some? {
      forall v, k | v in values && InSlot(Merged(Sort(values)), v, k)
        ensures Near(AxisOf(values).value, v, k)
      {
        OnGridPoint(values, origin, pitch, v, k);
      }
    }
  }

  ghost predicate LatticeEntries(entries: seq<Entry>, o: Entry, p: Entry) {
    OnLattice(Phis(entries), o.phi, p.phi) && OnLattice(Thetas(entries), o.theta, p.theta)
  }

  ghost predicate DistinctAngles(entries: seq<Entry>) {
    forall k, m :: 0 <= k < m < |entries| ==> entries[k].phi != entries[m].phi || entries[k].theta != entries[m].theta
  }

  lemma LatticeSeparated(entries: seq<Entry>, o: Entry, p: Entry)
    requires LatticeEntries(entries, o, p) && DistinctAngles(entries)
    ensures Separated(entries)
  {
    var phis, thetas := Phis(entries), Thetas(entries);
    forall k, m | 0 <= k < m < |entries|
      ensures Abs(entries[k].phi - entries[m].phi) > TOL || Abs(entries[k].theta - entries[m].theta) > TOL
    {
      assert IsMultiple(phis[k], o.phi, p.phi) && IsMultiple(phis[m], o.phi, p.phi);
      assert IsMultiple(thetas[k], o.theta, p.theta) && IsMultiple(thetas[m], o.theta, p.theta);
      if Abs(phis[k] - phis[m]) <= TOL {
        SameMultiple(phis[k], phis[m], o.phi, p.phi);
      }
      if Abs(thetas[k] - thetas[m]) <= TOL {
        SameMultiple(thetas[k], thetas[m], o.theta, p.theta);
      }
    }
  }

  /** On an exact lattice no condition on the step is needed. */
  lemma EachCellOnceOnLattice(entries: seq<Entry>, o: Entry, p: Entry)
    requires LatticeEntries(entries, o, p) && DistinctAngles(entries) && Build(entries).Some?
    ensures EveryCellOnce(entries, Build(entries).value)
  {
    LatticeSettled(Phis(entries), o.phi, p.phi);
    LatticeSettled(Thetas(entries), o.theta, p.theta);
    LatticeSeparated(entries, o, p);
    SettledNoClash(entries);
    OnceIffNoClash(entries);
  }

  // ----- Axes of given values -----------------------------------------------------------------

  lemma {:induction false} SpreadUnique(s: seq<real>, t: seq<real>)
    requires Spread(s) && Spread(t) && Within(s, t) && Within(t, s)
    ensures s == t
    decreases |s|
  {
    if s == [] {
      if t != [] {
        var i := IndexIn(t, s, 0);
      }
    } else {
      var i := IndexIn(s, t, 0);
      var n, m := |s| - 1, |t| - 1;
      SameLast(s, t);
      WithinInit(s, t);
      WithinInit(t, s);
      SpreadUnique(s[..n], t[..m]);
      assert s == s[..n] + [s[n]] && t == t[..m] + [t[m]];
    }
  }

  lemma SameLast(s: seq<real>, t: seq<real>)
    requires Spread(s) && Spread(t) && s != [] && t != [] && Within(s, t) && Within(t, s)
    ensures s[|s| - 1] == t[|t| - 1]
  {
    var i := IndexIn(s, t, |s| - 1);
    var j := IndexIn(t, s, |t| - 1);
  }

  lemma WithinInit(s: seq<real>, t: seq<real>)
    requires Spread(s) && s != [] && t != [] && s[|s| - 1] == t[|t| - 1] && Within(s, t)
    ensures Within(s[..|s| - 1], t[..|t| - 1])
  {
    var n, m := |s| - 1, |t| - 1;
    forall i | 0 <= i < n
      ensures Has(t[..m], s[..n][i])
    {
      var j := IndexIn(s, t, i);
      assert j < m && t[..m][j] == s[i];
    }
  }

  lemma CoversBy(d: seq<real>, values: seq<real>, slots: seq<int>)
    requires |slots| == |values|
    requires forall i :: 0 <= i < |slots| ==> InSlot(d, values[i], slots[i])
    ensures Covers(d, values)
  {
    forall i | 0 <= i < |values|
      ensures Covered(values[i], d)
    {
      assert InSlot(d, values[i], slots[i]);
      assert d[slots[i]] in d;
    }
  }

  /** Of two spread selections that cover the same values, each value of one is in the other: below it the two
      would have to differ too. */
  lemma {:induction false} SelectedToo(s: seq<real>, t: seq<real>, values: seq<real>, i: nat) returns (j: nat)
    requires Spread(s) && Within(s, values) && Covers(s, values)
    requires Spread(t) && Within(t, values) && Covers(t, values) && i < |s|
    ensures j < |t| && t[j] == s[i]
    decreases i
  {
    var v := IndexIn(s, values, i);
    j := CoverAt(t, values, v);
    var w := IndexIn(t, values, j);
    var l := CoverAt(s, values, w);
    if l < i {
      var p := SelectedToo(s, t, values, l);
    }
  }

  lemma SelectedWithin(s: seq<real>, t: seq<real>, values: seq<real>)
    requires Spread(s) && Within(s, values) && Covers(s, values)
    requires Spread(t) && Within(t, values) && Covers(t, values)
    ensures Within(s, t)
  {
    forall i | 0 <= i < |s|
      ensures Has(t, s[i])
    {
      var j := SelectedToo(s, t, values, i);
    }
  }

  /** The distinct values are the only spread selection that covers all values. */
  lemma MergedGiven(values: seq<real>, d: seq<real>)
    requires Spread(d) && Within(d, values) && Covers(d, values)
    ensures Merged(Sort(values)) == d
  {
    DistinctValues(values);
    SelectedWithin(Merged(Sort(values)), d, values);
    SelectedWithin(d, Merged(Sort(values)), values);
    SpreadUnique(Merged(Sort(values)), d);
  }

  function StepAt(d: seq<real>, k: nat): real
    requires k + 1 < |d|
  {
    d[k + 1] - d[k]
  }

  /** No step is further than the tolerance from the first. */
  ghost predicate EvenSteps(d: seq<real>) {
    |d| >= 2 && forall k {:trigger StepAt(d, k)} :: 0 <= k < |d| - 1 ==> Abs(StepAt(d, k) - StepAt(d, 0)) <= TOL
  }

  lemma StepGiven(d: seq<real>)
    requires Spread(d) && EvenSteps(d)
    ensures UniformStep(d) == Some(StepAt(d, 0))
  {
    StepsOf(d);
    var steps := Steps(d);
    forall i | 0 <= i < |steps|
      ensures Abs(steps[i] - steps[0]) <= TOL && steps[0] == StepAt(d, 0)
    {
      assert steps[i] == StepAt(d, i) && steps[0] == StepAt(d, 0);
    }
    assert steps[0] == StepAt(d, 0);
  }

  /** The axis of values that merge to a sequence with steps within the tolerance. */
  lemma AxisGiven(values: seq<real>, d: seq<real>)
    requires Spread(d) && EvenSteps(d) && Within(d, values) && Covers(d, values)
    ensures AxisOf(values) == Some(Axis(d[0], StepAt(d, 0), |d|))
  {
    MergedGiven(values, d);
    StepGiven(d);
  }

  lemma {:induction false} FillAll(entries: seq<Entry>, phi: Axis, theta: Axis)
    requires phi.step != 0.0 && theta.step != 0.0
    requires forall k :: 0 <= k < |entries| ==> InRange(entries[k], phi, theta)
    ensures Fill(entries, phi, theta).Some?
    decreases |entries|
  {
    if entries != [] {
      FillAll(entries[..|entries| - 1], phi, theta);
    }
  }

  // ----- Which lists are accepted -------------------------------------------------------------

  lemma StepsEven(d: seq<real>)
    requires Spread(d) && UniformStep(d).Some?
    ensures EvenSteps(d)
  {
    forall k | 0 <= k < |d| - 1
      ensures Abs(StepAt(d, k) - StepAt(d, 0)) <= TOL
    {
      StepNear(d, k);
    }
  }

  /** There is an axis exactly for at least two distinct values with steps within the tolerance of the first, and
      it starts at the smallest value and has the first step. */
  lemma AxisIff(values: seq<real>)
    ensures var d := Merged(Sort(values));
            (AxisOf(values).Some? <==> EvenSteps(d))
            && (AxisOf(values).Some? ==> AxisOf(values).value == Axis(d[0], d[1] - d[0], |d|))
  {
    var d := Merged(Sort(values));
    MergedSpread(values);
    if UniformStep(d).Some? {
      StepsEven(d);
    }
    if EvenSteps(d) {
      StepGiven(d);
    }
  }

  /** A list is accepted exactly when both angles have an axis, there are as many entries as cells, and every angle
      is rounded to a place on its axis. */
  lemma AcceptedIff(entries: seq<Entry>)
    ensures var d, e := Merged(Sort(Phis(entries))), Merged(Sort(Thetas(entries)));
            Build(entries).Some?
            <==> EvenSteps(d) && EvenSteps(e) && d[0] < d[1] && e[0] < e[1] && |d| * |e| == |entries|
                 && forall k :: 0 <= k < |entries| ==>
                      InRange(entries[k], Axis(d[0], d[1] - d[0], |d|), Axis(e[0], e[1] - e[0], |e|))
  {
    AxisIff(Phis(entries));
    AxisIff(Thetas(entries));
    MergedSpread(Phis(entries));
    MergedSpread(Thetas(entries));
    var phi, theta := AxisOf(Phis(entries)), AxisOf(Thetas(entries));
    if phi.Some? && theta.Some? {
      FillIff(entries, phi.value, theta.value);
    }
  }

  lemma FillIff(entries: seq<Entry>, phi: Axis, theta: Axis)
    requires phi.step != 0.0 && theta.step != 0.0
    ensures Fill(entries, phi, theta).Some? <==> forall k :: 0 <= k < |entries| ==> InRange(entries[k], phi, theta)
  {
    if Fill(entries, phi, theta).Some? {
      forall k | 0 <= k < |entries|
        ensures InRange(entries[k], phi, theta)
      {
        FillInRange(entries, phi, theta, k);
      }
    } else if forall k :: 0 <= k < |entries| ==> InRange(entries[k], phi, theta) {
      FillAll(entries, phi, theta);
    }
  }

  /** With steps well above the tolerance the range checks never reject. */
  lemma FineAccepted(entries: seq<Entry>)
    requires var d, e := Merged(Sort(Phis(entries))), Merged(Sort(Thetas(entries)));
             EvenSteps(d) && EvenSteps(e) && |d| * |e| == |entries|
             && Fine(Axis(d[0], d[1] - d[0], |d|)) && Fine(Axis(e[0], e[1] - e[0], |e|))
    ensures FineGrid(entries)
  {
    AxisIff(Phis(entries));
    AxisIff(Thetas(entries));
    var phi, theta := AxisOf(Phis(entries)).value, AxisOf(Thetas(entries)).value;
    forall k | 0 <= k < |entries|
      ensures InRange(entries[k], phi, theta)
    {
      assert Phis(entries)[k] in Phis(entries) && Thetas(entries)[k] in Thetas(entries);
      FineInRange(Phis(entries), entries[k].phi);
      FineInRange(Thetas(entries), entries[k].theta);
    }
    FillIff(entries, phi, theta);
  }

  lemma FineInRange(values: seq<real>, v: real)
    requires AxisOf(values).Some? && Fine(AxisOf(values).value) && v in values
    ensures 0 <= IndexOn(AxisOf(values).value, v) < AxisOf(values).value.size
  {
    FineSettled(values);
    var k := SlotOf(values, v);
    NearIndex(AxisOf(values).value, v, k);
  }
}
