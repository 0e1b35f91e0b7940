/** Building a gain grid from scattered antenna pattern entries. */
module AntennaGrid {
  import opened Outcomes
  import opened Rounding

  datatype Entry = Entry(phi: real, theta: real, gain: real)

  const TOL: real := 0.000001

  function Abs(x: real): real {
    if x < 0.0 then -x else x
  }

  // ----- Sorted distinct values ---------------------------------------------------------------

  function Insert(x: real, sorted: seq<real>): seq<real> {
    if sorted == [] || x <= sorted[0] then [x] + sorted else [sorted[0]] + Insert(x, sorted[1..])
  }

  /** Python's `sorted`. */
  function Sort(values: seq<real>): seq<real> {
    if values == [] then [] else Insert(values[0], Sort(values[1..]))
  }

  ghost predicate Ordered(s: seq<real>) {
    forall i, j :: 0 <= i < j < |s| ==> s[i] <= s[j]
  }

  lemma {:induction false} InsertOrdered(x: real, s: seq<real>)
    requires Ordered(s)
    ensures Ordered(Insert(x, s)) && forall v :: v in Insert(x, s) <==> v == x || v in s
  {
    if s != [] && x > s[0] {
      InsertOrdered(x, s[1..]);
      assert s == [s[0]] + s[1..];
      var rest := Insert(x, s[1..]);
      assert forall j :: 0 <= j < |rest| ==> rest[j] in rest;
    }
  }

  lemma {:induction false} SortOrdered(values: seq<real>)
    ensures Ordered(Sort(values)) && forall v :: v in Sort(values) <==> v in values
  {
    if values != [] {
      SortOrdered(values[1..]);
      InsertOrdered(values[0], Sort(values[1..]));
      assert values == [values[0]] + values[1..];
    }
  }

  /** Each kept value is more than the tolerance above the ones before it. */
  ghost predicate Spread(s: seq<real>) {
    forall i, j :: 0 <= i < j < |s| ==> s[j] - s[i] > TOL
  }

  ghost predicate Covered(v: real, merged: seq<real>) {
    exists m :: m in merged && 0.0 <= v - m <= TOL
  }

  predicate Has(t: seq<real>, v: real) {
    v in t
  }

  ghost predicate Within(s: seq<real>, t: seq<real>) {
    forall i {:trigger Has(t, s[i])} :: 0 <= i < |s| ==> Has(t, s[i])
  }

  lemma IndexIn(s: seq<real>, t: seq<real>, i: nat) returns (j: nat)
    requires Within(s, t) && i < |s|
    ensures j < |t| && t[j] == s[i]
  {
    assert Has(t, s[i]);
    j :| 0 <= j < |t| && t[j] == s[i];
  }

  /** Every value is within the tolerance above one of `d`. */
  ghost predicate Covers(d: seq<real>, values: seq<real>) {
    forall i {:trigger Covered(values[i], d)} :: 0 <= i < |values| ==> Covered(values[i], d)
  }

  lemma CoverAt(d: seq<real>, values: seq<real>, i: nat) returns (j: nat)
    requires Covers(d, values) && i < |values|
    ensures j < |d| && 0.0 <= values[i] - d[j] <= TOL
  {
    assert Covered(values[i], d);
    var m :| m in d && 0.0 <= values[i] - m <= TOL;
    j :| 0 <= j < |d| && d[j] == m;
  }

  /** `unique_sorted`: ascending values more than the tolerance apart, each one of the given values, and
      every given value within the tolerance above one of them. */
  method UniqueSorted(values: seq<real>) returns (merged: seq<real>)
    ensures merged == Merged(Sort(values))
    ensures Spread(merged) && Within(merged, values) && Covers(merged, values)
  {
    merged := MergeSorted(Sort(values));
    DistinctValues(values);
  }

  method MergeSorted(sorted: seq<real>) returns (merged: seq<real>)
    ensures merged == Merged(sorted)
  {
    if sorted == [] {
      return [];
    }
    merged := [sorted[0]];
    for i := 1 to |sorted|
      invariant merged == Merged(sorted[..i])
    {
      MergedNonEmpty(sorted[..i]);
      MergedSnoc(sorted, i);
      var v := sorted[i];
      if Abs(v - merged[|merged| - 1]) > TOL {
        merged := merged + [v];
      }
    }
    assert sorted[..|sorted|] == sorted;
  }

  lemma DistinctValues(values: seq<real>)
    ensures var merged := Merged(Sort(values));
            Spread(merged) && Within(merged, values) && Covers(merged, values)
  {
    var sorted := Sort(values);
    SortOrdered(values);
    MergedCovers(sorted);
    SameValues(values, sorted, Merged(sorted));
  }

  lemma SameValues(values: seq<real>, sorted: seq<real>, merged: seq<real>)
    requires Within(merged, sorted) && Covers(merged, sorted) && forall v :: v in sorted <==> v in values
    ensures Within(merged, values) && Covers(merged, values)
  {
    forall i | 0 <= i < |merged|
      ensures Has(values, merged[i])
    {
      var j := IndexIn(merged, sorted, i);
      assert sorted[j] in sorted;
    }
    forall i | 0 <= i < |values|
      ensures Covered(values[i], merged)
    {
      assert values[i] in values;
      var j :| 0 <= j < |sorted| && sorted[j] == values[i];
      assert Covered(sorted[j], merged);
    }
  }

  function Merged(sorted: seq<real>): seq<real> {
    if sorted == [] then
      []
    else if |sorted| == 1 then
      sorted
    else
      var rest := Merged(sorted[..|sorted| - 1]);
      var v := sorted[|sorted| - 1];
      if rest != [] && Abs(v - rest[|rest| - 1]) > TOL then rest + [v] else rest
  }

  lemma MergedSnoc(sorted: seq<real>, i: nat)
    requires 0 < i < |sorted| && Merged(sorted[..i]) != []
    ensures var rest := Merged(sorted[..i]);
            Merged(sorted[..i + 1])
            == if Abs(sorted[i] - rest[|rest| - 1]) > TOL then rest + [sorted[i]] else rest
  {
    assert sorted[..i + 1][..i] == sorted[..i];
  }

  lemma {:induction false} MergedNonEmpty(sorted: seq<real>)
    requires sorted != []
    ensures Merged(sorted) != [] && Merged(sorted)[0] == sorted[0]
  {
    if |sorted| > 1 {
      MergedNonEmpty(sorted[..|sorted| - 1]);
    }
  }

  lemma MergeStep(rest: seq<real>, v: real, all: seq<real>)
    requires rest != [] && Spread(rest) && rest[|rest| - 1] <= v
    requires all == if Abs(v - rest[|rest| - 1]) > TOL then rest + [v] else rest
    ensures Spread(all) && Covered(v, all)
  {
    assert all[|all| - 1] in all;
  }

  lemma StaysCovered(x: real, rest: seq<real>, all: seq<real>)
    requires Covered(x, rest) && rest <= all
    ensures Covered(x, all)
  {
    var m :| m in rest && 0.0 <= x - m <= TOL;
    assert m in all;
  }

  lemma LastBelow(sorted: seq<real>, rest: seq<real>)
    requires Ordered(sorted) && sorted != [] && rest != [] && Within(rest, sorted[..|sorted| - 1])
    ensures rest[|rest| - 1] <= sorted[|sorted| - 1]
  {
    var n := |sorted| - 1;
    var i := IndexIn(rest, sorted[..n], |rest| - 1);
    assert sorted[i] <= sorted[n];
  }

  /** One more value: what was selected and covered stays so. */
  lemma MergeKeeps(sorted: seq<real>, rest: seq<real>, all: seq<real>)
    requires sorted != [] && rest <= all && |all| <= |rest| + 1
    requires |all| == |rest| + 1 ==> all[|rest|] == sorted[|sorted| - 1]
    requires Within(rest, sorted[..|sorted| - 1]) && Covers(rest, sorted[..|sorted| - 1])
    requires Covered(sorted[|sorted| - 1], all)
    ensures Within(all, sorted) && Covers(all, sorted)
  {
    var n := |sorted| - 1;
    forall i | 0 <= i < |all|
      ensures Has(sorted, all[i])
    {
      if i < |rest| {
        var j := IndexIn(rest, sorted[..n], i);
        assert sorted[j] == all[i];
      }
    }
    forall i | 0 <= i < |sorted|
      ensures Covered(sorted[i], all)
    {
      if i < n {
        assert Covered(sorted[..n][i], rest);
        StaysCovered(sorted[i], rest, all);
      }
    }
  }

  lemma {:induction false} MergedCovers(sorted: seq<real>)
    requires Ordered(sorted)
    ensures Spread(Merged(sorted)) && Within(Merged(sorted), sorted) && Covers(Merged(sorted), sorted)
    decreases |sorted|
  {
    if |sorted| == 1 {
      assert sorted[0] in sorted;
    } else if |sorted| > 1 {
      var n := |sorted| - 1;
      MergedCovers(sorted[..n]);
      MergedNonEmpty(sorted[..n]);
      LastBelow(sorted, Merged(sorted[..n]));
      MergeStep(Merged(sorted[..n]), sorted[n], Merged(sorted));
      MergeKeeps(sorted, Merged(sorted[..n]), Merged(sorted));
    }
  }

  // ----- A uniform step -----------------------------------------------------------------------

  function Steps(values: seq<real>): (steps: seq<real>)
    ensures forall i :: 0 <= i < |steps| ==> Abs(steps[i]) > TOL
  {
    if |values| < 2 then
      []
    else
      var n := |values| - 1;
      Steps(values[..n]) + if Abs(values[n] - values[n - 1]) > TOL then [values[n] - values[n - 1]] else []
  }

  /** `uniform_step`. */
  function UniformStep(values: seq<real>): (step: Option<real>)
    ensures step.Some? ==> Abs(step.value) > TOL && |values| >= 2
  {
    var steps := Steps(values);
    if steps == [] then
      None
    else if exists i :: 0 < i < |steps| && Abs(steps[i] - steps[0]) > TOL then
      None
    else
      Some(steps[0])
  }

  lemma StepsSnoc(values: seq<real>)
    requires |values| >= 2 && values[|values| - 1] - values[|values| - 2] > TOL
    ensures Steps(values) == Steps(values[..|values| - 1]) + [values[|values| - 1] - values[|values| - 2]]
  {
  }

  ghost predicate AreSteps(values: seq<real>, steps: seq<real>) {
    |steps| == (if values == [] then 0 else |values| - 1)
    && forall i {:trigger steps[i]} :: 0 <= i < |steps| ==> steps[i] == values[i + 1] - values[i]
  }

  lemma AreStepsSnoc(values: seq<real>, n: nat, steps: seq<real>)
    requires 0 < n && |values| == n + 1 && AreSteps(values[..n], steps)
    ensures AreSteps(values, steps + [values[n] - values[n - 1]])
  {
  }

  lemma {:induction false} StepsOf(values: seq<real>)
    requires Spread(values)
    ensures AreSteps(values, Steps(values))
    decreases |values|
  {
    if |values| >= 2 {
      var n := |values| - 1;
      StepsOf(values[..n]);
      StepsSnoc(values);
      AreStepsSnoc(values, n, Steps(values[..n]));
    }
  }

  /** The step is the first difference, and no difference is further than the tolerance from it. */
  lemma StepNear(values: seq<real>, k: nat)
    requires Spread(values) && UniformStep(values).Some? && k + 1 < |values|
    ensures UniformStep(values).value == values[1] - values[0] > TOL
    ensures Abs(values[k + 1] - values[k] - UniformStep(values).value) <= TOL
  {
    StepsOf(values);
    var steps := Steps(values);
    assert steps[k] == values[k + 1] - values[k] && steps[0] == values[1] - values[0];
    assert Abs(steps[k] - steps[0]) <= TOL;
  }

  // ----- Multiples of a step ------------------------------------------------------------------

  function Times(i: int, pitch: real): real {
    i as real * pitch
  }

  lemma Distribute(a: real, b: real, pitch: real)
    ensures a * pitch - b * pitch == (a - b) * pitch
  {
  }

  lemma AtLeastOnce(n: real, pitch: real)
    requires n >= 1.0 && pitch > 0.0
    ensures n * pitch >= pitch
  {
    Distribute(n, 1.0, pitch);
  }

  lemma TimesDifference(i: int, j: int, pitch: real)
    ensures Times(i, pitch) - Times(j, pitch) == Times(i - j, pitch)
  {
    Distribute(i as real, j as real, pitch);
    assert (i - j) as real == i as real - j as real;
  }

  lemma TimesAtLeast(n: int, pitch: real)
    requires n >= 1 && pitch > 0.0
    ensures Times(n, pitch) >= pitch
  {
    AtLeastOnce(n as real, pitch);
  }

  lemma TimesOrder(i: int, j: int, pitch: real)
    requires pitch > 0.0
    ensures Times(i, pitch) - Times(j, pitch) == Times(i - j, pitch)
    ensures i > j ==> Times(i, pitch) - Times(j, pitch) >= pitch
    ensures i == j <==> Times(i, pitch) == Times(j, pitch)
  {
    TimesDifference(i, j, pitch);
    TimesDifference(j, i, pitch);
    if i > j {
      TimesAtLeast(i - j, pitch);
    } else if i < j {
      TimesAtLeast(j - i, pitch);
    }
  }

  // ----- Grid indices -------------------------------------------------------------------------

  datatype Axis = Axis(min: real, step: real, size: nat)

  /** The distinct values of one angle, their first, their step and their number. */
  function AxisOf(values: seq<real>): (axis: Option<Axis>)
    ensures axis.Some? ==> Abs(axis.value.step) > TOL && axis.value.size >= 2
  {
    var distinct := Merged(Sort(values));
    var step := UniformStep(distinct);
    if step.None? then None else Some(Axis(distinct[0], step.value, |distinct|))
  }

  function IndexOn(axis: Axis, v: real): int
    requires axis.step != 0.0
  {
    RoundEven((v - axis.min) / axis.step)
  }

  // ----- Filling the grid ---------------------------------------------------------------------

  datatype Grid = Grid(phi: Axis, theta: Axis, cells: seq<seq<real>>)

  function Phis(entries: seq<Entry>): seq<real> {
    seq(|entries|, i requires 0 <= i < |entries| => entries[i].phi)
  }

  function Thetas(entries: seq<Entry>): seq<real> {
    seq(|entries|, i requires 0 <= i < |entries| => entries[i].theta)
  }

  function Blank(rows: nat, cols: nat): seq<seq<real>> {
    seq(rows, _ => seq(cols, _ => 0.0))
  }

  ghost predicate Shaped(cells: seq<seq<real>>, rows: nat, cols: nat) {
    |cells| == rows && forall j :: 0 <= j < rows ==> |cells[j]| == cols
  }

  predicate InRange(e: Entry, phi: Axis, theta: Axis)
    requires phi.step != 0.0 && theta.step != 0.0
  {
    0 <= IndexOn(phi, e.phi) < phi.size && 0 <= IndexOn(theta, e.theta) < theta.size
  }

  /** The cells after the entries have been written one after the other, or none if one is out of range. */
  function Fill(entries: seq<Entry>, phi: Axis, theta: Axis): (cells: Option<seq<seq<real>>>)
    requires phi.step != 0.0 && theta.step != 0.0
    ensures cells.Some? ==> Shaped(cells.value, theta.size, phi.size)
    decreases |entries|
  {
    if entries == [] then
      Some(Blank(theta.size, phi.size))
    else
      var n := |entries| - 1;
      var e, before := entries[n], Fill(entries[..n], phi, theta);
      if before.None? || !InRange(e, phi, theta) then
        None
      else
        var j, i := IndexOn(theta, e.theta), IndexOn(phi, e.phi);
        Some(before.value[j := before.value[j][i := e.gain]])
  }

  function Build(entries: seq<Entry>): Option<Grid> {
    var phi, theta := AxisOf(Phis(entries)), AxisOf(Thetas(entries));
    if entries == [] || phi.None? || theta.None? || phi.value.size * theta.value.size != |entries| then
      None
    else
      var cells := Fill(entries, phi.value, theta.value);
      if cells.None? then None else Some(Grid(phi.value, theta.value, cells.value))
  }

  method MakeAxis(values: seq<real>) returns (axis: Option<Axis>)
    ensures axis == AxisOf(values)
  {
    var distinct := UniqueSorted(values);
    var step := UniformStep(distinct);
    if step.None? {
      return None;
    }
    return Some(Axis(distinct[0], step.value, |distinct|));
  }

  /** `build_grid`. */
  method BuildGrid(entries: seq<Entry>) returns (grid: Option<Grid>)
    ensures grid == Build(entries)
  {
    if entries == [] {
      return None;
    }
    var phi := MakeAxis(Phis(entries));
    var theta := MakeAxis(Thetas(entries));
    if phi.None? || theta.None? || phi.value.size * theta.value.size != |entries| {
      return None;
    }
    var cells := Blank(theta.value.size, phi.value.size);
    for n := 0 to |entries|
      invariant Fill(entries[..n], phi.value, theta.value) == Some(cells)
    {
      assert entries[..n + 1][..n] == entries[..n];
      var e := entries[n];
      if !InRange(e, phi.value, theta.value) {
        FillStuck(entries, phi.value, theta.value, n + 1);
        return None;
      }
      var j, i := IndexOn(theta.value, e.theta), IndexOn(phi.value, e.phi);
      cells := cells[j := cells[j][i := e.gain]];
    }
    assert entries[..|entries|] == entries;
    return Some(Grid(phi.value, theta.value, cells));
  }

  lemma {:induction false} FillStuck(entries: seq<Entry>, phi: Axis, theta: Axis, n: nat)
    requires phi.step != 0.0 && theta.step != 0.0 && n <= |entries| && Fill(entries[..n], phi, theta).None?
    ensures Fill(entries, phi, theta).None?
    decreases |entries| - n
  {
    if n == |entries| {
      assert entries[..n] == entries;
    } else {
      assert entries[..n + 1][..n] == entries[..n];
      FillStuck(entries, phi, theta, n + 1);
    }
  }
}
