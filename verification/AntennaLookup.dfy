/** The lookup functions that the generator emits, on the tables that it builds. */
module AntennaLookup {
  import opened Outcomes
  import opened Rounding
  import opened AntennaGrid
  import opened AntennaCells

  /** The emitted constant `2.0f * 3.141592654f`. */
  const TWO_PI: real := 6.283185308

  /** `gains` is row-major, one row per theta. */
  datatype Table = Table(freq: real, phi: Axis, theta: Axis, gains: seq<real>)

  ghost predicate ValidTable(t: Table) {
    t.phi.step > 0.0 && t.theta.step > 0.0 && t.phi.size > 0 && t.theta.size > 0
    && |t.gains| == t.theta.size * t.phi.size
  }

  // ----- The lookup ---------------------------------------------------------------------------

  /** `std::fmod(x, two_pi)`: the result has the sign of `x`. */
  function FMod(x: real): real {
    x - Trunc(x / TWO_PI) as real * TWO_PI
  }

  function RelPhi(x: real): real {
    if FMod(x) < 0.0 then FMod(x) + TWO_PI else FMod(x)
  }

  function PhiIndex(axis: Axis, phi: real): int
    requires axis.step > 0.0 && axis.size > 0
  {
    Round(RelPhi(phi - axis.min) / axis.step) % axis.size
  }

  function Clamp(x: real, lo: real, hi: real): real {
    if x < lo then lo else if hi < x then hi else x
  }

  function ThetaIndex(axis: Axis, theta: real): int
    requires axis.step > 0.0 && axis.size > 0
  {
    var max := axis.min + Times(axis.size - 1, axis.step);
    Round((Clamp(theta, axis.min, max) - axis.min) / axis.step)
  }

  function FlatIndex(t: Table, theta: real, phi: real): int
    requires ValidTable(t)
  {
    Place(ThetaIndex(t.theta, theta), PhiIndex(t.phi, phi), t.phi.size)
  }

  /** `lookup_gain`; the index is in range for every angle. */
  function LookupGain(t: Table, theta: real, phi: real): real
    requires ValidTable(t)
  {
    FlatInBounds(t, theta, phi);
    t.gains[FlatIndex(t, theta, phi)]
  }

  // ----- Bounds -------------------------------------------------------------------------------

  lemma Quotient(a: real, step: real, n: int)
    requires step > 0.0 && 0.0 <= a <= Times(n, step)
    ensures 0.0 <= a / step <= n as real
  {
    var q := a / step;
    assert q * step == a;
  }

  lemma RoundBelow(x: real, n: int)
    requires 0.0 <= x <= n as real
    ensures 0 <= Round(x) <= n
  {
  }

  lemma ThetaInBounds(axis: Axis, theta: real)
    requires axis.step > 0.0 && axis.size > 0
    ensures 0 <= ThetaIndex(axis, theta) < axis.size
  {
    var n := axis.size - 1;
    var max := axis.min + Times(n, axis.step);
    assert Times(n, axis.step) >= 0.0;
    var a := Clamp(theta, axis.min, max) - axis.min;
    Quotient(a, axis.step, n);
    RoundBelow(a / axis.step, n);
  }

  /** For all real angles the table is read inside its bounds. */
  lemma FlatInBounds(t: Table, theta: real, phi: real)
    requires ValidTable(t)
    ensures 0 <= FlatIndex(t, theta, phi) < |t.gains|
  {
    ThetaInBounds(t.theta, theta);
    PlaceInRange(ThetaIndex(t.theta, theta), PhiIndex(t.phi, phi), t.theta.size, t.phi.size);
  }

  // ----- Period -------------------------------------------------------------------------------

  /** The reduced angle is the remainder in one turn. */
  lemma RelPhiRemainder(x: real) returns (k: int)
    ensures 0.0 <= RelPhi(x) < TWO_PI && x == RelPhi(x) + k as real * TWO_PI
  {
    k := Trunc(x / TWO_PI);
    if FMod(x) < 0.0 {
      k := k - 1;
    }
  }

  lemma RemainderUnique(r: real, s: real, k: int)
    requires 0.0 <= r < TWO_PI && 0.0 <= s < TWO_PI && r == s + k as real * TWO_PI
    ensures r == s && k == 0
  {
  }

  /** The lookup has period one turn in phi, in both directions and for any number of turns. */
  lemma LookupPeriodic(t: Table, theta: real, phi: real, turns: int)
    requires ValidTable(t)
    ensures LookupGain(t, theta, phi + turns as real * TWO_PI) == LookupGain(t, theta, phi)
  {
    var x := phi - t.phi.min;
    var y := phi + turns as real * TWO_PI - t.phi.min;
    var k := RelPhiRemainder(x);
    var l := RelPhiRemainder(y);
    RemainderUnique(RelPhi(y), RelPhi(x), k + turns - l);
  }

  // ----- Entries ------------------------------------------------------------------------------

  lemma RoundWhole(i: int, step: real)
    requires step > 0.0
    ensures Round(Times(i, step) / step) == i
  {
    assert Times(i, step) / step == i as real;
  }

  lemma SmallMod(i: int, n: nat)
    requires 0 <= i < n
    ensures i % n == i
  {
  }

  // ----- Two ways of rounding -----------------------------------------------------------------

  /** Halfway above an even number: Python's `round` goes down, `std::llround` goes up. */
  predicate EvenTie(x: real) {
    x - x.Floor as real == 0.5 && x.Floor % 2 == 0
  }

  predicate TieOn(axis: Axis, v: real)
    requires axis.step != 0.0
  {
    EvenTie((v - axis.min) / axis.step)
  }

  lemma RoundsDiffer(x: real)
    requires x >= 0.0
    ensures Round(x) == RoundEven(x) + if EvenTie(x) then 1 else 0
  {
  }

  lemma WholeIsNoTie(i: int)
    ensures !EvenTie(i as real) && RoundEven(i as real) == i
  {
  }

  lemma QuotientNonNegative(a: real, step: real)
    requires a >= 0.0 && step > 0.0
    ensures a / step >= 0.0
  {
    assert a / step * step == a;
    Below(0.0, a / step, step);
  }

  lemma MoreSteps(a: real, step: real, n: int)
    requires step > 0.0 && a >= Times(n, step)
    ensures a / step >= n as real && RoundEven(a / step) >= n
  {
    assert a / step * step == a;
    Below(n as real, a / step, step);
  }

  /** The last grid point. */
  function Last(axis: Axis): real {
    axis.min + Times(axis.size - 1, axis.step)
  }

  /** The lookup finds the row that the builder computes, exactly unless theta is an even tie below the last
      row. */
  lemma ThetaRoundIff(axis: Axis, theta: real)
    requires axis.step > 0.0 && axis.size > 0 && theta >= axis.min && IndexOn(axis, theta) < axis.size
    ensures ThetaIndex(axis, theta) == IndexOn(axis, theta) <==> !(TieOn(axis, theta) && theta < Last(axis))
  {
    var n, a := axis.size - 1, theta - axis.min;
    if theta >= Last(axis) {
      RoundWhole(n, axis.step);
      MoreSteps(a, axis.step, n);
    } else {
      QuotientNonNegative(a, axis.step);
      RoundsDiffer(a / axis.step);
    }
  }

  /** At an angle `a` above the first, the lookup stays in its own column: within one turn, or else, on an
      axis with a step of more than a turn, in column one with at least half a step left over. */
  predicate OwnTurn(axis: Axis, a: real) {
    a < TWO_PI || (axis.step > TWO_PI && axis.step <= 2.0 * RelPhi(a) && 2.0 * a < 3.0 * axis.step)
  }

  /** A turn later, on an axis with a step of at most a turn, the lookup rounds to an earlier column. */
  lemma EarlierColumn(rel: real, a: real, step: real)
    requires 0.0 < step <= TWO_PI && 0.0 <= rel <= a - TWO_PI && rel < TWO_PI
    ensures 0 <= Round(rel / step) < RoundEven(a / step)
  {
    assert a / step * step == a && rel / step * step == rel;
    EarlierQuotient(rel / step, a / step, rel, a, step);
    EarlierRound(rel / step, a / step);
  }

  lemma EarlierQuotient(r: real, q: real, rel: real, a: real, step: real)
    requires 0.0 < step <= TWO_PI && 0.0 <= rel <= a - TWO_PI && rel < TWO_PI
    requires q * step == a && r * step == rel
    ensures 0.0 <= r <= q - 1.0 && (r == q - 1.0 ==> r < 1.0)
  {
    Below(0.0, r, step);
    OneLess(q, step);
    assert rel <= a - step;
    BelowProducts(r, q - 1.0, step, rel, a - step);
    if r == q - 1.0 {
      assert step == TWO_PI;
      BelowProducts(r, 1.0, step, rel, step);
    }
  }

  lemma OneLess(q: real, step: real)
    ensures (q - 1.0) * step == q * step - step
  {
  }

  lemma BelowProducts(a: real, b: real, step: real, x: real, y: real)
    requires step > 0.0 && a * step == x && b * step == y && x <= y
    ensures a <= b && (x < y ==> a < b)
  {
    Below(a, b, step);
  }

  lemma EarlierRound(r: real, q: real)
    requires 0.0 <= r <= q - 1.0 && (r == q - 1.0 ==> r < 1.0)
    ensures 0 <= Round(r) < RoundEven(q)
  {
  }

  // ----- Emitted tables -----------------------------------------------------------------------

  /** `format_grid_flat`: the rows one after the other. */
  function FlatRows(cells: seq<seq<real>>): seq<real> {
    if cells == [] then [] else FlatRows(cells[..|cells| - 1]) + cells[|cells| - 1]
  }

  lemma {:induction false} FlatRowsAt(cells: seq<seq<real>>, rows: nat, cols: nat)
    requires Shaped(cells, rows, cols)
    ensures |FlatRows(cells)| == rows * cols
    ensures forall j, i :: 0 <= j < rows && 0 <= i < cols ==>
              0 <= Place(j, i, cols) < |FlatRows(cells)| && FlatRows(cells)[Place(j, i, cols)] == cells[j][i]
    decreases rows
  {
    if rows > 0 {
      var n := rows - 1;
      FlatRowsAt(cells[..n], n, cols);
      assert n * cols + cols == rows * cols;
      forall j, i | 0 <= j < rows && 0 <= i < cols
        ensures 0 <= Place(j, i, cols) < |FlatRows(cells)| && FlatRows(cells)[Place(j, i, cols)] == cells[j][i]
      {
        PlaceInRange(j, i, rows, cols);
        if j < n {
          assert cells[..n][j] == cells[j];
        }
      }
    }
  }

  function TableOf(freq: real, g: Grid): Table {
    Table(freq, g.phi, g.theta, FlatRows(g.cells))
  }

  lemma HalfWay(q: real, step: real, rel: real)
    requires step > 0.0 && q * step == rel
    ensures q >= 0.5 <==> 2.0 * rel >= step
  {
    if q >= 0.5 {
      Grows(0.5, q, step);
    }
    if 2.0 * rel >= step {
      Below(0.5, q, step);
    }
  }

  /** Less than one step rounds to the first or the second column. */
  lemma FirstColumns(rel: real, step: real)
    requires 0.0 <= rel < step
    ensures Round(rel / step) == if 2.0 * rel >= step then 1 else 0
  {
    var q := rel / step;
    assert q * step == rel;
    Below(0.0, q, step);
    Below(q, 1.0, step);
    HalfWay(q, step, rel);
    FirstRounds(q);
  }

  lemma FirstRounds(q: real)
    requires 0.0 <= q <= 1.0
    ensures Round(q) == if q >= 0.5 then 1 else 0
  {
  }

  lemma SecondPoint(a: real, step: real)
    requires step > 0.0 && RoundEven(a / step) > 0
    ensures RoundEven(a / step) == 1 <==> 2.0 * a < 3.0 * step
  {
    var q := a / step;
    assert q * step == a;
    if q < 1.5 {
      Grows(q, 1.5, step);
      assert q * step != 1.5 * step;
    }
    if 1.5 <= q {
      Grows(1.5, q, step);
    }
  }

  /** The lookup finds the column that the builder computes, exactly when the angle is in its own turn and no
      even tie. */
  lemma PhiRoundIff(axis: Axis, phi: real)
    requires axis.step > 0.0 && axis.size >= 2 && phi >= axis.min && IndexOn(axis, phi) < axis.size
    requires IndexOn(axis, phi) == 0 ==> phi - axis.min < TWO_PI
    ensures PhiIndex(axis, phi) == IndexOn(axis, phi) <==> OwnTurn(axis, phi - axis.min) && !TieOn(axis, phi)
  {
    var a, step := phi - axis.min, axis.step;
    var k := RelPhiRemainder(a);
    QuotientNonNegative(a, step);
    if a < TWO_PI {
      RemainderUnique(a, RelPhi(a), k);
      RoundsDiffer(a / step);
      NextColumn(RoundEven(a / step), axis.size);
    } else if step <= TWO_PI {
      assert k >= 1;
      EarlierColumn(RelPhi(a), a, step);
      SmallMod(Round(RelPhi(a) / step), axis.size);
    } else {
      FirstColumns(RelPhi(a), step);
      SecondPoint(a, step);
      SmallMod(Round(RelPhi(a) / step), axis.size);
    }
  }

  lemma NextColumn(i: int, n: nat)
    requires 0 <= i < n && n >= 2
    ensures i % n == i && (i + 1) % n != i
  {
    if i + 1 < n {
      SmallMod(i + 1, n);
    }
  }

  /** On the grid, the lookup finds the column of its own angle exactly when that angle is less than one
      turn above the first. */
  lemma PhiExactIff(axis: Axis, i: nat)
    requires axis.step > 0.0 && i < axis.size
    ensures PhiIndex(axis, axis.min + Times(i, axis.step)) == i <==> Times(i, axis.step) < TWO_PI
  {
    var a := Times(i, axis.step);
    assert axis.min + a - axis.min == a && a / axis.step == i as real;
    WholeIsNoTie(i);
    GridTurn(axis, i);
    if axis.size >= 2 {
      PhiRoundIff(axis, axis.min + a);
    }
  }

  /** A grid point is in its own turn exactly when it is less than one turn above the first. */
  lemma GridTurn(axis: Axis, i: nat)
    requires axis.step > 0.0
    ensures Times(i, axis.step) >= 0.0
    ensures OwnTurn(axis, Times(i, axis.step)) <==> Times(i, axis.step) < TWO_PI
  {
    var a := Times(i, axis.step);
    TimesOrder(i, 0, axis.step);
    if a >= TWO_PI && 2.0 * a < 3.0 * axis.step {
      assert Times(1, axis.step) == axis.step;
      if i > 1 {
        TimesOrder(i, 1, axis.step);
      }
      var k := RelPhiRemainder(a);
      assert k >= 1;
    }
  }

  // ----- What the lookup reads ----------------------------------------------------------------

  lemma FirstSteps(d: seq<real>, v: real, k: nat)
    requires Spread(d) && UniformStep(d).Some? && InSlot(d, v, k)
    ensures UniformStep(d).value > TOL && v >= d[0]
    ensures if k == 0 then v - d[0] <= TOL else v - d[0] >= UniformStep(d).value
  {
    StepNear(d, 0);
    if k > 1 {
      assert d[1] < d[k];
    }
  }

  /** An angle that is rounded to the first grid point is within a turn of it. */
  lemma EntryAngle(values: seq<real>, v: real)
    requires AxisOf(values).Some? && v in values
    ensures var ax := AxisOf(values).value;
            ax.step > TOL && v >= ax.min && (IndexOn(ax, v) == 0 ==> v - ax.min < TWO_PI)
  {
    var ax := AxisOf(values).value;
    MergedSpread(values);
    var k := SlotOf(values, v);
    FirstSteps(Merged(Sort(values)), v, k);
    if k > 0 {
      OneStep(v - ax.min, ax.step);
    }
  }

  lemma OneStep(a: real, step: real)
    requires a >= step > 0.0
    ensures RoundEven(a / step) >= 1
  {
    assert Times(1, step) == step;
    MoreSteps(a, step, 1);
  }

  lemma EntryAngles(entries: seq<Entry>, k: nat)
    requires Build(entries).Some? && k < |entries|
    ensures var g, e := Build(entries).value, entries[k];
            g.phi.step > TOL && g.theta.step > TOL && e.phi >= g.phi.min && e.theta >= g.theta.min
            && (IndexOn(g.phi, e.phi) == 0 ==> e.phi - g.phi.min < TWO_PI)
  {
    assert Phis(entries)[k] in Phis(entries) && Thetas(entries)[k] in Thetas(entries);
    EntryAngle(Phis(entries), entries[k].phi);
    EntryAngle(Thetas(entries), entries[k].theta);
  }

  lemma TableValid(entries: seq<Entry>, freq: real)
    requires Build(entries).Some?
    ensures ValidTable(TableOf(freq, Build(entries).value))
  {
    var g := Build(entries).value;
    EntryAngles(entries, 0);
    FlatRowsAt(g.cells, g.theta.size, g.phi.size);
  }

  /** What must hold of an entry for the lookup to find it: its phi is in its own turn, and neither angle is an
      even tie, except that theta may be one beyond the last row. */
  predicate Found(g: Grid, e: Entry)
    requires g.phi.step != 0.0 && g.theta.step != 0.0
  {
    OwnTurn(g.phi, e.phi - g.phi.min) && !TieOn(g.phi, e.phi) && !(TieOn(g.theta, e.theta) && e.theta < Last(g.theta))
  }

  /** For every entry of every accepted list, whatever its angles and steps: the emitted lookup at the entry's
      angles reads the place that the entry was written to, if and only if the entry is `Found`. */
  lemma LookupReadsIff(entries: seq<Entry>, freq: real, k: nat)
    requires Build(entries).Some? && k < |entries|
    ensures var g, e := Build(entries).value, entries[k];
            ValidTable(TableOf(freq, g))
            && (FlatIndex(TableOf(freq, g), e.theta, e.phi) == PlaceOf(e, g.phi, g.theta) <==> Found(g, e))
            && (g.phi.step <= TWO_PI ==> (OwnTurn(g.phi, e.phi - g.phi.min) <==> e.phi - g.phi.min < TWO_PI))
  {
    var g, e := Build(entries).value, entries[k];
    TableValid(entries, freq);
    EntryAngles(entries, k);
    Built(entries, k);
    PhiRoundIff(g.phi, e.phi);
    ThetaRoundIff(g.theta, e.theta);
    var j, i := ThetaIndex(g.theta, e.theta), PhiIndex(g.phi, e.phi);
    if Place(j, i, g.phi.size) == PlaceOf(e, g.phi, g.theta) {
      PlaceUnique(j, i, IndexOn(g.theta, e.theta), IndexOn(g.phi, e.phi), g.phi.size);
    }
  }

  /** If the cells are written once each, the lookup returns the gain of the entry whose place it reads. */
  lemma HitGain(entries: seq<Entry>, freq: real, theta: real, phi: real, k: nat)
    requires Build(entries).Some? && k < |entries| && EveryCellOnce(entries, Build(entries).value)
    requires ValidTable(TableOf(freq, Build(entries).value))
    requires Hits(entries[k], Build(entries).value.phi, Build(entries).value.theta,
                  ThetaIndex(Build(entries).value.theta, theta), PhiIndex(Build(entries).value.phi, phi))
    ensures LookupGain(TableOf(freq, Build(entries).value), theta, phi) == entries[k].gain
  {
    var g := Build(entries).value;
    Built(entries, k);
    var j, i := ThetaIndex(g.theta, theta), PhiIndex(g.phi, phi);
    assert CellOnce(entries, g, j, i);
    var m :| WrittenOnce(entries, g, j, i, m);
    CellOfPlace(g.cells, g.theta.size, g.phi.size, j, i);
  }

  /** If the cells are written once each, the lookup at the angles of a `Found` entry returns its gain. */
  lemma FoundGain(entries: seq<Entry>, freq: real, k: nat)
    requires Build(entries).Some? && k < |entries| && EveryCellOnce(entries, Build(entries).value)
    requires Found(Build(entries).value, entries[k])
    ensures ValidTable(TableOf(freq, Build(entries).value))
    ensures LookupGain(TableOf(freq, Build(entries).value), entries[k].theta, entries[k].phi) == entries[k].gain
  {
    var g, e := Build(entries).value, entries[k];
    TableValid(entries, freq);
    EntryAngles(entries, k);
    Built(entries, k);
    PhiRoundIff(g.phi, e.phi);
    ThetaRoundIff(g.theta, e.theta);
    HitGain(entries, freq, e.theta, e.phi, k);
  }

  lemma CellOfPlace(cells: seq<seq<real>>, rows: nat, cols: nat, j: nat, i: nat)
    requires Shaped(cells, rows, cols) && j < rows && i < cols
    ensures 0 <= Place(j, i, cols) < |FlatRows(cells)| && FlatRows(cells)[Place(j, i, cols)] == cells[j][i]
  {
    FlatRowsAt(cells, rows, cols);
  }

  lemma GrowsStrictly(a: real, b: real, step: real)
    requires a < b && step > 0.0
    ensures a * step < b * step
  {
  }

  /** `a` is within half a step of grid point `m`, halfway cases going up. */
  predicate NearestTo(a: real, step: real, m: int) {
    (m as real - 0.5) * step <= a < (m as real + 0.5) * step
  }

  lemma RoundNearest(a: real, step: real)
    requires a >= 0.0 && step > 0.0
    ensures Round(a / step) >= 0 && NearestTo(a, step, Round(a / step))
  {
    var x := a / step;
    QuotientNonNegative(a, step);
    RoundBounds(x);
    assert x * step == a;
    Grows(Round(x) as real - 0.5, x, step);
    GrowsStrictly(x, Round(x) as real + 0.5, step);
  }

  lemma RoundBounds(x: real)
    requires x >= 0.0
    ensures Round(x) >= 0 && Round(x) as real - 0.5 <= x < Round(x) as real + 0.5
  {
  }

  /** Reduced by whole turns above the first column, phi is nearest to the multiple of the step that is column
      `i`, after whole rounds of the axis. */
  predicate NearestColumn(axis: Axis, phi: real, i: int, turns: int, rounds: nat) {
    var rel := phi - axis.min - turns as real * TWO_PI;
    0 <= i < axis.size && 0.0 <= rel < TWO_PI && NearestTo(rel, axis.step, i + rounds * axis.size)
  }

  /** The first row below the axis, the last row above it, and the nearest in between. */
  predicate NearestRow(axis: Axis, theta: real, j: int) {
    0 <= j < axis.size
    && if theta <= axis.min then j == 0
       else if theta >= axis.min + (axis.size - 1) as real * axis.step then j == axis.size - 1
       else NearestTo(theta - axis.min, axis.step, j)
  }

  /** The lookup finds the nearest column for every phi and every axis. */
  lemma PhiNearest(axis: Axis, phi: real) returns (turns: int, rounds: nat)
    requires axis.step > 0.0 && axis.size > 0
    ensures NearestColumn(axis, phi, PhiIndex(axis, phi), turns, rounds)
  {
    turns := RelPhiRemainder(phi - axis.min);
    var rel := RelPhi(phi - axis.min);
    RoundNearest(rel, axis.step);
    var m := Round(rel / axis.step);
    rounds := m / axis.size;
    assert m == m % axis.size + rounds * axis.size;
  }

  /** The lookup finds the nearest row for every theta and every axis. */
  lemma ThetaNearest(axis: Axis, theta: real)
    requires axis.step > 0.0 && axis.size > 0
    ensures NearestRow(axis, theta, ThetaIndex(axis, theta))
  {
    var n := axis.size - 1;
    ThetaInBounds(axis, theta);
    TimesOrder(n, 0, axis.step);
    if theta <= axis.min {
      RoundWhole(0, axis.step);
      assert ThetaIndex(axis, theta) == Round(Times(0, axis.step) / axis.step);
    } else if theta >= Last(axis) {
      RoundWhole(n, axis.step);
      assert Clamp(theta, axis.min, Last(axis)) - axis.min == Times(n, axis.step);
    } else {
      RoundNearest(theta - axis.min, axis.step);
    }
  }

  /** For every pair of angles, the lookup in an emitted table returns the cell in the row nearest to theta and the
      column nearest to phi. */
  lemma LookupIsNearestCell(freq: real, g: Grid, theta: real, phi: real)
    returns (j: nat, i: nat, turns: int, rounds: nat)
    requires g.phi.step > 0.0 && g.theta.step > 0.0 && g.phi.size > 0 && g.theta.size > 0
    requires Shaped(g.cells, g.theta.size, g.phi.size)
    ensures TableOf(freq, g).freq == freq
    ensures NearestRow(g.theta, theta, j) && NearestColumn(g.phi, phi, i, turns, rounds)
    ensures ValidTable(TableOf(freq, g)) && LookupGain(TableOf(freq, g), theta, phi) == g.cells[j][i]
  {
    ThetaNearest(g.theta, theta);
    turns, rounds := PhiNearest(g.phi, phi);
    j, i := ThetaIndex(g.theta, theta), PhiIndex(g.phi, phi);
    ReadsCell(freq, g, theta, phi);
  }

  lemma ReadsCell(freq: real, g: Grid, theta: real, phi: real)
    requires g.phi.step > 0.0 && g.theta.step > 0.0 && g.phi.size > 0 && g.theta.size > 0
    requires Shaped(g.cells, g.theta.size, g.phi.size)
    ensures 0 <= ThetaIndex(g.theta, theta) < g.theta.size && ValidTable(TableOf(freq, g))
    ensures LookupGain(TableOf(freq, g), theta, phi)
         == g.cells[ThetaIndex(g.theta, theta)][PhiIndex(g.phi, phi)]
  {
    FlatRowsAt(g.cells, g.theta.size, g.phi.size);
    ThetaInBounds(g.theta, theta);
    CellOfPlace(g.cells, g.theta.size, g.phi.size, ThetaIndex(g.theta, theta), PhiIndex(g.phi, phi));
  }

  lemma NearIsNoTie(axis: Axis, v: real, k: int)
    requires Near(axis, v, k)
    ensures !TieOn(axis, v)
  {
    HalfStep(v - axis.min, axis.step, k);
    NoTieInside((v - axis.min) / axis.step, k);
  }

  lemma NoTieInside(x: real, k: int)
    requires k as real - 0.5 < x < k as real + 0.5
    ensures !EvenTie(x)
  {
    var f := x.Floor;
    if f >= k {
      assert f as real >= k as real;
    } else {
      assert f as real <= (k - 1) as real;
    }
  }

  /** Settled entries have no ties. */
  lemma SettledFound(entries: seq<Entry>, k: nat)
    requires SettledEntries(entries) && Build(entries).Some? && k < |entries|
    ensures var g, e := Build(entries).value, entries[k];
            Found(g, e) <==> OwnTurn(g.phi, e.phi - g.phi.min)
  {
    var g, e := Build(entries).value, entries[k];
    var j, i := EntrySlot(entries, k);
    NearIsNoTie(g.phi, e.phi, i);
    NearIsNoTie(g.theta, e.theta, j);
  }

  /** With fine axes there are no ties: the entry's own place exactly when its phi is in its own turn, and then
      its gain if the entries are separated. */
  lemma LookupAgrees(entries: seq<Entry>, freq: real, k: nat)
    requires FineGrid(entries) && k < |entries|
    ensures var g, e := Build(entries).value, entries[k];
            var t := TableOf(freq, g);
            ValidTable(t)
            && (FlatIndex(t, e.theta, e.phi) == PlaceOf(e, g.phi, g.theta) <==> OwnTurn(g.phi, e.phi - g.phi.min))
            && (g.phi.step <= TWO_PI ==> (OwnTurn(g.phi, e.phi - g.phi.min) <==> e.phi - g.phi.min < TWO_PI))
            && (Separated(entries) && OwnTurn(g.phi, e.phi - g.phi.min) ==>
                  LookupGain(t, e.theta, e.phi) == e.gain)
  {
    FineSettled(Phis(entries));
    FineSettled(Thetas(entries));
    EachCellOnce(entries);
    LookupReadsIff(entries, freq, k);
    SettledFound(entries, k);
    if Separated(entries) && Found(Build(entries).value, entries[k]) {
      FoundGain(entries, freq, k);
    }
  }

  /** On an exact lattice, whatever the step: the own cell exactly when phi is less than one turn above the
      smallest. */
  lemma LookupAgreesOnLattice(entries: seq<Entry>, o: Entry, p: Entry, freq: real, k: nat)
    requires LatticeEntries(entries, o, p) && DistinctAngles(entries) && Build(entries).Some? && k < |entries|
    ensures var g, e := Build(entries).value, entries[k];
            var t := TableOf(freq, g);
            ValidTable(t)
            && (FlatIndex(t, e.theta, e.phi) == PlaceOf(e, g.phi, g.theta) <==> e.phi - g.phi.min < TWO_PI)
            && (e.phi - g.phi.min < TWO_PI ==> LookupGain(t, e.theta, e.phi) == e.gain)
  {
    LatticeSettled(Phis(entries), o.phi, p.phi);
    LatticeSettled(Thetas(entries), o.theta, p.theta);
    EachCellOnceOnLattice(entries, o, p);
    LatticeTurn(entries, o, p, k);
    LookupReadsIff(entries, freq, k);
    SettledFound(entries, k);
    if Found(Build(entries).value, entries[k]) {
      FoundGain(entries, freq, k);
    }
  }

  lemma LatticeTurn(entries: seq<Entry>, o: Entry, p: Entry, k: nat)
    requires LatticeEntries(entries, o, p) && SettledEntries(entries) && Build(entries).Some? && k < |entries|
    ensures var g, e := Build(entries).value, entries[k];
            OwnTurn(g.phi, e.phi - g.phi.min) <==> e.phi - g.phi.min < TWO_PI
  {
    assert Phis(entries)[k] in Phis(entries);
    var j, i := EntrySlot(entries, k);
    OnGridPoint(Phis(entries), o.phi, p.phi, entries[k].phi, i);
    GridTurn(Build(entries).value.phi, i);
  }

  /** `nearest_table`: the first table whose frequency is closest. */
  method NearestTable(tables: seq<Table>, freq: real) returns (best: nat)
    requires tables != []
    ensures best < |tables|
    ensures forall i :: 0 <= i < |tables| ==> Abs(freq - tables[best].freq) <= Abs(freq - tables[i].freq)
    ensures forall i :: 0 <= i < best ==> Abs(freq - tables[best].freq) < Abs(freq - tables[i].freq)
  {
    best := 0;
    var bestDiff := Abs(freq - tables[0].freq);
    for i := 1 to |tables|
      invariant best < i && bestDiff == Abs(freq - tables[best].freq)
      invariant forall k :: 0 <= k < i ==> bestDiff <= Abs(freq - tables[k].freq)
      invariant forall k :: 0 <= k < best ==> bestDiff < Abs(freq - tables[k].freq)
    {
      var diff := Abs(freq - tables[i].freq);
      if diff < bestDiff {
        best := i;
        bestDiff := diff;
      }
    }
  }
}
