/** Accepted antenna patterns on which the grid or the emitted lookup goes wrong. All of them have two rows, at
    theta 0 and 1. */
module AntennaWitnesses {
  import opened Outcomes
  import opened AntennaGrid
  import opened AntennaCells
  import opened AntennaLookup

  // ----- Patterns of two rows -----------------------------------------------------------------

  /** Entries at the phis `d` of theta 0 and the phis `e` of theta 1. */
  function Rows(d: seq<real>, e: seq<real>, gains: seq<real>): (entries: seq<Entry>)
    requires |d| == |e| && |gains| == 2 * |d|
    ensures |entries| == 2 * |d|
  {
    seq(2 * |d|, k requires 0 <= k < 2 * |d| =>
      if k < |d| then Entry(d[k], 0.0, gains[k]) else Entry(e[k - |d|], 1.0, gains[k]))
  }

  const THETA: Axis := Axis(0.0, 1.0, 2)

  function PhiAxis(d: seq<real>): Axis
    requires |d| >= 2
  {
    Axis(d[0], d[1] - d[0], |d|)
  }

  /** The phis of the second row are merged into those of the first, whose steps are within the tolerance. */
  ghost predicate Mergeable(d: seq<real>, e: seq<real>) {
    |d| == |e| >= 2 && Spread(d) && Spread(e)
    && (forall k :: 0 <= k < |d| ==> 0.0 <= e[k] - d[k] <= TOL) && EvenSteps(d)
  }

  lemma FourSpread(d: seq<real>)
    requires |d| == 4 && d[1] - d[0] > TOL && d[2] - d[1] > TOL && d[3] - d[2] > TOL
    ensures Spread(d)
  {
  }

  lemma FourMergeable(d: seq<real>, e: seq<real>)
    requires |d| == |e| == 4 && d[1] - d[0] > TOL && d[2] - d[1] > TOL && d[3] - d[2] > TOL
    requires 0.0 <= e[0] - d[0] <= TOL && 0.0 <= e[1] - d[1] <= TOL
    requires 0.0 <= e[2] - d[2] <= TOL && 0.0 <= e[3] - d[3] <= TOL
    requires e[1] - e[0] > TOL && e[2] - e[1] > TOL && e[3] - e[2] > TOL
    requires Abs(d[2] - d[1] - (d[1] - d[0])) <= TOL && Abs(d[3] - d[2] - (d[1] - d[0])) <= TOL
    ensures Mergeable(d, e)
  {
    FourSpread(d);
    FourSpread(e);
  }

  /** The axis of two rows, where the second is merged into the first. */
  lemma AxisOfRows(d: seq<real>, e: seq<real>)
    requires Mergeable(d, e)
    ensures AxisOf(d + e) == Some(PhiAxis(d))
  {
    var values, n := d + e, |d|;
    var slots := seq(n + n, i requires 0 <= i < n + n => if i < n then i else i - n);
    forall i | 0 <= i < |values|
      ensures InSlot(d, values[i], slots[i])
    {
      assert i >= n ==> values[i] == e[i - n];
    }
    CoversBy(d, values, slots);
    forall i | 0 <= i < n
      ensures Has(values, d[i])
    {
      assert values[i] == d[i];
    }
    AxisGiven(values, d);
  }

  /** The theta axis of `n` zeros and `n` ones. */
  lemma AxisOfThetas(thetas: seq<real>, n: nat)
    requires |thetas| == 2 * n && n > 0
    requires forall k :: 0 <= k < |thetas| ==> thetas[k] == if k < n then 0.0 else 1.0
    ensures AxisOf(thetas) == Some(THETA)
  {
    var d := [0.0, 1.0];
    var slots := seq(2 * n, k requires 0 <= k < 2 * n => if k < n then 0 else 1);
    forall i | 0 <= i < |thetas|
      ensures InSlot(d, thetas[i], slots[i])
    {
    }
    CoversBy(d, thetas, slots);
    assert thetas[0] == d[0] && thetas[n] == d[1];
    AxisGiven(thetas, d);
  }

  lemma RowsAxes(d: seq<real>, e: seq<real>, gains: seq<real>)
    requires Mergeable(d, e) && |gains| == 2 * |d|
    ensures AxisOf(Phis(Rows(d, e, gains))) == Some(PhiAxis(d))
    ensures AxisOf(Thetas(Rows(d, e, gains))) == Some(THETA)
  {
    AxisOfRows(d, e);
    assert Phis(Rows(d, e, gains)) == d + e;
    AxisOfThetas(Thetas(Rows(d, e, gains)), |d|);
  }

  lemma RowsSeparated(d: seq<real>, e: seq<real>, gains: seq<real>)
    requires Mergeable(d, e) && |gains| == 2 * |d|
    ensures Separated(Rows(d, e, gains))
  {
  }

  /** Row and column that entry `k` is written to, if `p` and `q` are the columns of the two rows. */
  ghost predicate Columns(d: seq<real>, e: seq<real>, p: seq<int>, q: seq<int>)
    requires |d| >= 2 && d[1] != d[0]
  {
    |p| == |q| == |d| == |e|
    && forall k :: 0 <= k < |d| ==>
         0 <= p[k] < |d| && IndexOn(PhiAxis(d), d[k]) == p[k] && 0 <= q[k] < |d| && IndexOn(PhiAxis(d), e[k]) == q[k]
  }

  lemma RowHits(d: seq<real>, e: seq<real>, p: seq<int>, q: seq<int>, gains: seq<real>, k: nat)
    requires Mergeable(d, e) && Columns(d, e, p, q) && |gains| == 2 * |d| && k < 2 * |d|
    ensures var n := |d|;
            Hits(Rows(d, e, gains)[k], PhiAxis(d), THETA, if k < n then 0 else 1, if k < n then p[k] else q[k - n])
  {
  }

  lemma RowsBuilt(d: seq<real>, e: seq<real>, p: seq<int>, q: seq<int>, gains: seq<real>)
    requires Mergeable(d, e) && Columns(d, e, p, q) && |gains| == 2 * |d|
    ensures var g := Build(Rows(d, e, gains)); g.Some? && g.value.phi == PhiAxis(d) && g.value.theta == THETA
    ensures Separated(Rows(d, e, gains))
  {
    var entries := Rows(d, e, gains);
    RowsAxes(d, e, gains);
    RowsSeparated(d, e, gains);
    forall k | 0 <= k < |entries|
      ensures InRange(entries[k], PhiAxis(d), THETA)
    {
      RowHits(d, e, p, q, gains, k);
    }
    FillAll(entries, PhiAxis(d), THETA);
  }

  /** The cells are written once each, exactly when neither row repeats a column. */
  lemma RowsOnce(d: seq<real>, e: seq<real>, p: seq<int>, q: seq<int>, gains: seq<real>)
    requires Mergeable(d, e) && Columns(d, e, p, q) && |gains| == 2 * |d|
    ensures Build(Rows(d, e, gains)).Some?
    ensures EveryCellOnce(Rows(d, e, gains), Build(Rows(d, e, gains)).value)
        <==> forall a, b :: 0 <= a < b < |d| ==> p[a] != p[b] && q[a] != q[b]
  {
    RowsBuilt(d, e, p, q, gains);
    OnceIffNoClash(Rows(d, e, gains));
    RowsClash(d, e, p, q, gains);
  }

  lemma RowsClash(d: seq<real>, e: seq<real>, p: seq<int>, q: seq<int>, gains: seq<real>)
    requires Mergeable(d, e) && Columns(d, e, p, q) && |gains| == 2 * |d|
    ensures NoClash(Rows(d, e, gains), PhiAxis(d), THETA)
        <==> forall a, b :: 0 <= a < b < |d| ==> p[a] != p[b] && q[a] != q[b]
  {
    var entries, n := Rows(d, e, gains), |d|;
    forall k | 0 <= k < 2 * n
      ensures PlaceOf(entries[k], PhiAxis(d), THETA) == if k < n then p[k] else n + q[k - n]
    {
      RowHits(d, e, p, q, gains, k);
    }
    if NoClash(entries, PhiAxis(d), THETA) {
      forall a, b | 0 <= a < b < n
        ensures p[a] != p[b] && q[a] != q[b]
      {
        assert PlaceOf(entries[a], PhiAxis(d), THETA) != PlaceOf(entries[b], PhiAxis(d), THETA);
        assert PlaceOf(entries[n + a], PhiAxis(d), THETA) != PlaceOf(entries[n + b], PhiAxis(d), THETA);
      }
    }
  }

  /** What the lookup returns where it reads row 0 or 1 and a column to which a single entry was written. */
  lemma RowsRead(d: seq<real>, e: seq<real>, p: seq<int>, q: seq<int>, gains: seq<real>, freq: real, theta: real,
                 phi: real, k: nat)
    requires Mergeable(d, e) && Columns(d, e, p, q) && |gains| == 2 * |d| && k < 2 * |d|
    requires forall a, b :: 0 <= a < b < |d| ==> p[a] != p[b] && q[a] != q[b]
    requires ThetaIndex(THETA, theta) == if k < |d| then 0 else 1
    requires PhiIndex(PhiAxis(d), phi) == if k < |d| then p[k] else q[k - |d|]
    ensures Build(Rows(d, e, gains)).Some? && ValidTable(TableOf(freq, Build(Rows(d, e, gains)).value))
    ensures LookupGain(TableOf(freq, Build(Rows(d, e, gains)).value), theta, phi) == gains[k]
  {
    var entries := Rows(d, e, gains);
    RowsBuilt(d, e, p, q, gains);
    RowsOnce(d, e, p, q, gains);
    TableValid(entries, freq);
    RowHits(d, e, p, q, gains, k);
    HitGain(entries, freq, theta, phi, k);
  }

  // ----- Small steps --------------------------------------------------------------------------

  /** Steps that shrink within the tolerance after the first one. */
  const DRIFTING: seq<real> := [0.0, 0.000002, 0.0000031, 0.0000042]

  lemma DriftingMergeable()
    ensures Mergeable(DRIFTING, DRIFTING)
  {
    FourMergeable(DRIFTING, DRIFTING);
  }

  lemma DriftingColumns()
    ensures Columns(DRIFTING, DRIFTING, [0, 1, 2, 2], [0, 1, 2, 2])
  {
    forall k | 0 <= k < 4
      ensures IndexOn(PhiAxis(DRIFTING), DRIFTING[k]) == [0, 1, 2, 2][k]
    {
      DriftingIndex(k, DRIFTING[k]);
    }
  }

  lemma DriftingIndex(k: nat, phi: real)
    requires k < 4 && phi == DRIFTING[k]
    ensures IndexOn(Axis(0.0, 0.000002, 4), phi) == [0, 1, 2, 2][k]
  {
  }

  /** Without a fine axis the cells can go wrong: an accepted list of well separated entries in which two
      are written to the same cell, so that a gain is lost and a cell stays blank. */
  lemma DriftClashes(gains: seq<real>)
    requires |gains| == 8
    ensures var entries := Rows(DRIFTING, DRIFTING, gains);
            Build(entries).Some? && Separated(entries) && !Fine(Build(entries).value.phi)
            && !EveryCellOnce(entries, Build(entries).value)
  {
    var p := [0, 1, 2, 2];
    DriftingMergeable();
    DriftingColumns();
    RowsBuilt(DRIFTING, DRIFTING, p, p, gains);
    RowsOnce(DRIFTING, DRIFTING, p, p, gains);
    assert p[2] == p[3];
  }

  // ----- A full turn --------------------------------------------------------------------------

  const TURN: seq<real> := [0.0, TWO_PI]

  lemma TurnMergeable()
    ensures Mergeable(TURN, TURN) && Columns(TURN, TURN, [0, 1], [0, 1])
  {
  }

  lemma TurnFine()
    ensures Fine(PhiAxis(TURN)) && Fine(THETA)
  {
  }

  lemma TurnColumn()
    ensures PhiIndex(PhiAxis(TURN), TWO_PI) == 0 && ThetaIndex(THETA, 0.0) == 0
  {
    assert FMod(TWO_PI) == 0.0;
  }

  /** A pattern that lists both ends of a full turn is accepted, with fine axes and separated entries, but at
      the full turn the lookup returns the gain of phi 0. */
  lemma FullTurnMisses(gains: seq<real>, freq: real)
    requires |gains| == 4
    ensures var entries := Rows(TURN, TURN, gains);
            FineGrid(entries) && Separated(entries) && entries[1] == Entry(TWO_PI, 0.0, gains[1])
            && ValidTable(TableOf(freq, Build(entries).value))
            && LookupGain(TableOf(freq, Build(entries).value), 0.0, TWO_PI) == gains[0]
  {
    TurnMergeable();
    TurnFine();
    TurnColumn();
    RowsBuilt(TURN, TURN, [0, 1], [0, 1], gains);
    RowsRead(TURN, TURN, [0, 1], [0, 1], gains, freq, 0.0, TWO_PI, 0);
  }

  // ----- A tie --------------------------------------------------------------------------------

  /** Steps of four, five and four tolerances. */
  const COLUMNS: seq<real> := [0.0, 0.000004, 0.000009, 0.000013]

  /** The third phi is merged into the third column, but is halfway to the fourth. */
  const TIED: seq<real> := [0.0, 0.000004, 0.00001, 0.000013]

  lemma TiedMergeable()
    ensures Mergeable(COLUMNS, TIED)
  {
    FourMergeable(COLUMNS, TIED);
  }

  lemma TiedColumns()
    ensures Columns(COLUMNS, TIED, [0, 1, 2, 3], [0, 1, 2, 3])
  {
    forall k | 0 <= k < 4
      ensures IndexOn(PhiAxis(COLUMNS), COLUMNS[k]) == k && IndexOn(PhiAxis(COLUMNS), TIED[k]) == k
    {
      TiedIndex(k, COLUMNS[k], TIED[k]);
    }
  }

  lemma TiedIndex(k: nat, phi: real, tied: real)
    requires k < 4 && phi == COLUMNS[k] && tied == TIED[k]
    ensures IndexOn(Axis(0.0, 0.000004, 4), phi) == k && IndexOn(Axis(0.0, 0.000004, 4), tied) == k
  {
  }

  lemma TieColumn()
    ensures PhiIndex(PhiAxis(COLUMNS), 0.00001) == 3 && TieOn(PhiAxis(COLUMNS), 0.00001) && ThetaIndex(THETA, 1.0) == 1
  {
    assert RelPhi(0.00001) == 0.00001;
  }

  /** Accepted and separated entries, each cell written exactly once, no phi near a full turn; but at the angles
      of the seventh entry, an even tie, the lookup returns the gain of the eighth. */
  lemma TieMisses(gains: seq<real>, freq: real)
    requires |gains| == 8
    ensures var entries := Rows(COLUMNS, TIED, gains);
            Build(entries).Some? && Separated(entries) && EveryCellOnce(entries, Build(entries).value)
            && entries[6] == Entry(0.00001, 1.0, gains[6]) && ValidTable(TableOf(freq, Build(entries).value))
            && LookupGain(TableOf(freq, Build(entries).value), 1.0, 0.00001) == gains[7]
  {
    var own := [0, 1, 2, 3];
    TiedMergeable();
    TiedColumns();
    TieColumn();
    RowsBuilt(COLUMNS, TIED, own, own, gains);
    RowsOnce(COLUMNS, TIED, own, own, gains);
    RowsRead(COLUMNS, TIED, own, own, gains, freq, 1.0, 0.00001, 7);
  }
}
