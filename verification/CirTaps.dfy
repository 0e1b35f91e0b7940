/** Binning the paths of a channel impulse response into the taps of an FIR filter. */
module CirTaps {
  import opened Rounding

  datatype Complex = Complex(re: real, im: real)

  const ZERO := Complex(0.0, 0.0)

  function Plus(a: Complex, b: Complex): Complex {
    Complex(a.re + b.re, a.im + b.im)
  }

  datatype Path = Path(delay: real, gain: Complex)

  /** A path with its delay already turned into a tap index. */
  datatype Bin = Bin(index: int, gain: Complex)

  function TapIndex(delay: real, rate: real): int {
    Round(delay * rate)
  }

  function Binned(paths: seq<Path>, rate: real): seq<Bin> {
    seq(|paths|, i requires 0 <= i < |paths| => Bin(TapIndex(paths[i].delay, rate), paths[i].gain))
  }

  /** Paths beyond the configured number of taps are dropped; zero means no limit. */
  predicate Kept(p: Bin, maxTaps: nat) {
    maxTaps == 0 || p.index < maxTaps
  }

  /** The cast of a negative index to `size_t` is undefined, so callers may only pass paths like these. */
  ghost predicate Castable(paths: seq<Bin>) {
    forall i :: 0 <= i < |paths| ==> paths[i].index >= 0
  }

  // ----- Specification ------------------------------------------------------------------------

  /** The largest kept index, 0 if there is none. */
  function MaxIndex(paths: seq<Bin>, maxTaps: nat): nat {
    if paths == [] then
      0
    else
      var n := |paths| - 1;
      var rest := MaxIndex(paths[..n], maxTaps);
      if Kept(paths[n], maxTaps) && paths[n].index > rest then paths[n].index else rest
  }

  /** The gain a path contributes to tap `k`. */
  function Share(p: Bin, maxTaps: nat, k: int): Complex {
    if Kept(p, maxTaps) && p.index == k then p.gain else ZERO
  }

  /** The sum of the gains of the kept paths whose index is `k`. */
  function Tap(paths: seq<Bin>, maxTaps: nat, k: int): Complex {
    if paths == [] then
      ZERO
    else
      var n := |paths| - 1;
      Plus(Tap(paths[..n], maxTaps, k), Share(paths[n], maxTaps, k))
  }

  /** The first `n` taps. */
  function FirstTaps(paths: seq<Bin>, maxTaps: nat, n: nat): seq<Complex> {
    seq(n, k => Tap(paths, maxTaps, k))
  }

  function Taps(paths: seq<Bin>, maxTaps: nat): seq<Complex> {
    FirstTaps(paths, maxTaps, MaxIndex(paths, maxTaps) + 1)
  }

  function Zip(delays: seq<real>, re: seq<real>, im: seq<real>): seq<Path> {
    seq(Shortest(delays, re, im), i requires 0 <= i < Shortest(delays, re, im) =>
      Path(delays[i], Complex(re[i], im[i])))
  }

  function Shortest(delays: seq<real>, re: seq<real>, im: seq<real>): (n: nat)
    ensures n <= |delays| && n <= |re| && n <= |im| && (n == |delays| || n == |re| || n == |im|)
  {
    var n := if |delays| <= |re| then |delays| else |re|;
    if n <= |im| then n else |im|
  }

  // ----- The two passes -----------------------------------------------------------------------

  /** `x` rounds to `k`. */
  predicate InTap(x: real, k: int) {
    k as real - 0.5 <= x < k as real + 0.5
  }

  /** A delay in samples. */
  function Samples(delay: real, rate: real): real {
    delay * rate
  }

  /** The first `n` delays round to indices that the cast to `size_t` admits. */
  ghost predicate Roundable(delays: seq<real>, rate: real, n: nat) {
    n <= |delays| && forall i :: 0 <= i < n ==> Samples(delays[i], rate) > -0.5
  }

  /** A delay of `x` samples is within the configured number of taps; zero or less means no limit. */
  predicate Within(x: real, cirMaxTaps: int) {
    cirMaxTaps <= 0 || x < cirMaxTaps as real - 0.5
  }

  /** The sum of `part`, the real or the imaginary parts, over the kept ones of the first `n` paths whose delay
      rounds to `k` samples. */
  function PartSum(delays: seq<real>, part: seq<real>, rate: real, cirMaxTaps: int, k: int, n: nat): real
    requires n <= |delays| && n <= |part|
  {
    if n == 0 then
      0.0
    else
      var x := Samples(delays[n - 1], rate);
      PartSum(delays, part, rate, cirMaxTaps, k, n - 1)
      + if Within(x, cirMaxTaps) && InTap(x, k) then part[n - 1] else 0.0
  }

  /** Each tap is the sum of the gains of the kept paths whose delay rounds to it. */
  ghost predicate SumsUp(taps: seq<Complex>, delays: seq<real>, re: seq<real>, im: seq<real>, rate: real,
                         cirMaxTaps: int, n: nat)
    requires n <= |delays| && n <= |re| && n <= |im|
  {
    forall k :: 0 <= k < |taps| ==>
      taps[k].re == PartSum(delays, re, rate, cirMaxTaps, k, n)
      && taps[k].im == PartSum(delays, im, rate, cirMaxTaps, k, n)
  }

  /** There are taps up to the last one that a kept path rounds to, and always one. */
  ghost predicate LongEnough(length: nat, delays: seq<real>, rate: real, cirMaxTaps: int, n: nat)
    requires n <= |delays|
  {
    length > 0
    && (forall i :: 0 <= i < n && Within(Samples(delays[i], rate), cirMaxTaps) ==>
          Samples(delays[i], rate) < length as real - 0.5)
    && (length == 1
        || exists i :: 0 <= i < n && Within(Samples(delays[i], rate), cirMaxTaps)
                       && InTap(Samples(delays[i], rate), length - 1))
  }

  function Limit(cirMaxTaps: int): nat {
    if cirMaxTaps > 0 then cirMaxTaps else 0
  }

  /** `cirToTaps`. */
  method CirToTaps(delays: seq<real>, re: seq<real>, im: seq<real>, rate: real, cirMaxTaps: int)
    returns (taps: seq<Complex>)
    requires Roundable(delays, rate, Shortest(delays, re, im))
    ensures SumsUp(taps, delays, re, im, rate, cirMaxTaps, Shortest(delays, re, im))
    ensures LongEnough(|taps|, delays, rate, cirMaxTaps, Shortest(delays, re, im))
    ensures taps == Taps(Binned(Zip(delays, re, im), rate), Limit(cirMaxTaps))
  {
    RoundableCastable(delays, re, im, rate);
    var maxTaps := if cirMaxTaps > 0 then cirMaxTaps else 0;
    var maxIdx := LargestIndex(delays, re, im, rate, maxTaps);
    taps := Accumulate(delays, re, im, rate, maxTaps, maxIdx);
    EnoughTaps(delays, re, im, rate, cirMaxTaps);
    TapsSumUp(delays, re, im, rate, cirMaxTaps, maxIdx + 1);
  }

  /** The tap of a path is the one that its delay in samples rounds to, halves upward. */
  lemma TapIndexIff(delay: real, rate: real, k: int)
    requires delay * rate > -0.5
    ensures TapIndex(delay, rate) == k <==> k as real - 0.5 <= delay * rate < k as real + 0.5
    ensures TapIndex(delay, rate) >= 0
  {
    RoundIff(delay * rate, k);
  }

  lemma SamplesIndex(delay: real, rate: real, k: int)
    requires Samples(delay, rate) > -0.5
    ensures TapIndex(delay, rate) == k <==> InTap(Samples(delay, rate), k)
    ensures TapIndex(delay, rate) >= 0
  {
    TapIndexIff(delay, rate, k);
  }

  lemma RoundIff(x: real, k: int)
    requires x > -0.5
    ensures Round(x) == k <==> InTap(x, k)
    ensures Round(x) >= 0
  {
    if InTap(x, k) {
      assert k >= 0;
    }
  }

  lemma KeptIff(delay: real, rate: real, gain: Complex, cirMaxTaps: int)
    requires Samples(delay, rate) > -0.5
    ensures Kept(Bin(TapIndex(delay, rate), gain), Limit(cirMaxTaps)) <==> Within(Samples(delay, rate), cirMaxTaps)
  {
    SamplesIndex(delay, rate, TapIndex(delay, rate));
  }

  lemma RoundableCastable(delays: seq<real>, re: seq<real>, im: seq<real>, rate: real)
    requires Roundable(delays, rate, Shortest(delays, re, im))
    ensures Castable(Binned(Zip(delays, re, im), rate))
  {
    var paths := Binned(Zip(delays, re, im), rate);
    assert |paths| == |Zip(delays, re, im)| == Shortest(delays, re, im);
    forall i | 0 <= i < |paths|
      ensures paths[i].index >= 0
    {
      BinnedAt(delays, re, im, rate, i);
      SamplesIndex(delays[i], rate, 0);
    }
  }

  /** What a path adds to tap `k`, in terms of its delay. */
  lemma ShareOf(delay: real, rate: real, gain: Complex, cirMaxTaps: int, k: int)
    requires Samples(delay, rate) > -0.5
    ensures Share(Bin(TapIndex(delay, rate), gain), Limit(cirMaxTaps), k)
         == if Within(Samples(delay, rate), cirMaxTaps) && InTap(Samples(delay, rate), k) then gain else ZERO
  {
    KeptIff(delay, rate, gain, cirMaxTaps);
    SamplesIndex(delay, rate, k);
  }

  lemma PartSumStep(delays: seq<real>, part: seq<real>, rate: real, cirMaxTaps: int, k: int, n: nat)
    requires n < |delays| && n < |part|
    ensures PartSum(delays, part, rate, cirMaxTaps, k, n + 1)
         == PartSum(delays, part, rate, cirMaxTaps, k, n)
            + (if Within(Samples(delays[n], rate), cirMaxTaps) && InTap(Samples(delays[n], rate), k)
               then part[n] else 0.0)
  {
  }

  lemma TapOf(paths: seq<Bin>, maxTaps: nat, k: int, n: nat)
    requires n < |paths|
    ensures Tap(paths[..n + 1], maxTaps, k) == Plus(Tap(paths[..n], maxTaps, k), Share(paths[n], maxTaps, k))
  {
    TapStep(paths, maxTaps, n);
  }

  /** One more path, in both forms. */
  lemma SumAlike(paths: seq<Bin>, delays: seq<real>, re: seq<real>, im: seq<real>, rate: real, cirMaxTaps: int, k: int,
                 i: nat)
    requires i < |paths| && i < |delays| && i < |re| && i < |im| && Samples(delays[i], rate) > -0.5
    requires paths[i] == Bin(TapIndex(delays[i], rate), Complex(re[i], im[i]))
    requires Tap(paths[..i], Limit(cirMaxTaps), k).re == PartSum(delays, re, rate, cirMaxTaps, k, i)
    requires Tap(paths[..i], Limit(cirMaxTaps), k).im == PartSum(delays, im, rate, cirMaxTaps, k, i)
    ensures Tap(paths[..i + 1], Limit(cirMaxTaps), k).re == PartSum(delays, re, rate, cirMaxTaps, k, i + 1)
    ensures Tap(paths[..i + 1], Limit(cirMaxTaps), k).im == PartSum(delays, im, rate, cirMaxTaps, k, i + 1)
  {
    TapOf(paths, Limit(cirMaxTaps), k, i);
    ShareOf(delays[i], rate, Complex(re[i], im[i]), cirMaxTaps, k);
    PartSumStep(delays, re, rate, cirMaxTaps, k, i);
    PartSumStep(delays, im, rate, cirMaxTaps, k, i);
  }

  /** The sum of the bins is the sum over the delays. */
  lemma {:induction false} TapIsPartSum(paths: seq<Bin>, delays: seq<real>, re: seq<real>, im: seq<real>, rate: real,
                                        cirMaxTaps: int, k: int, n: nat)
    requires n <= |paths| == Shortest(delays, re, im) && Roundable(delays, rate, |paths|)
    requires forall i :: 0 <= i < |paths| ==> paths[i] == Bin(TapIndex(delays[i], rate), Complex(re[i], im[i]))
    ensures Tap(paths[..n], Limit(cirMaxTaps), k).re == PartSum(delays, re, rate, cirMaxTaps, k, n)
    ensures Tap(paths[..n], Limit(cirMaxTaps), k).im == PartSum(delays, im, rate, cirMaxTaps, k, n)
    decreases n
  {
    if n > 0 {
      TapIsPartSum(paths, delays, re, im, rate, cirMaxTaps, k, n - 1);
      SumAlike(paths, delays, re, im, rate, cirMaxTaps, k, n - 1);
    }
  }

  lemma BinnedAll(delays: seq<real>, re: seq<real>, im: seq<real>, rate: real)
    ensures var paths := Binned(Zip(delays, re, im), rate);
            |paths| == Shortest(delays, re, im)
            && forall i :: 0 <= i < |paths| ==> paths[i] == Bin(TapIndex(delays[i], rate), Complex(re[i], im[i]))
  {
  }

  lemma TapsSumUp(delays: seq<real>, re: seq<real>, im: seq<real>, rate: real, cirMaxTaps: int, n: nat)
    requires Roundable(delays, rate, Shortest(delays, re, im))
    ensures SumsUp(FirstTaps(Binned(Zip(delays, re, im), rate), Limit(cirMaxTaps), n), delays, re, im, rate,
                   cirMaxTaps, Shortest(delays, re, im))
  {
    var paths := Binned(Zip(delays, re, im), rate);
    BinnedAll(delays, re, im, rate);
    forall k | 0 <= k < n
      ensures Tap(paths, Limit(cirMaxTaps), k).re
           == PartSum(delays, re, rate, cirMaxTaps, k, Shortest(delays, re, im))
      ensures Tap(paths, Limit(cirMaxTaps), k).im
           == PartSum(delays, im, rate, cirMaxTaps, k, Shortest(delays, re, im))
    {
      TapIsPartSum(paths, delays, re, im, rate, cirMaxTaps, k, |paths|);
      assert paths[..|paths|] == paths;
    }
  }

  lemma EnoughTaps(delays: seq<real>, re: seq<real>, im: seq<real>, rate: real, cirMaxTaps: int)
    requires Roundable(delays, rate, Shortest(delays, re, im))
    ensures var length := MaxIndex(Binned(Zip(delays, re, im), rate), Limit(cirMaxTaps)) + 1;
            LongEnough(length, delays, rate, cirMaxTaps, Shortest(delays, re, im))
  {
    var paths, max := Binned(Zip(delays, re, im), rate), Limit(cirMaxTaps);
    var last := MaxIndex(paths, max);
    RoundableCastable(delays, re, im, rate);
    forall i | 0 <= i < Shortest(delays, re, im) && Within(Samples(delays[i], rate), cirMaxTaps)
      ensures Samples(delays[i], rate) < last as real + 0.5
    {
      BinnedAt(delays, re, im, rate, i);
      KeptIff(delays[i], rate, Complex(re[i], im[i]), cirMaxTaps);
      KeptFits(paths, max, i);
      SamplesIndex(delays[i], rate, TapIndex(delays[i], rate));
    }
    if last > 0 {
      var i := Attained(paths, max);
      assert |paths| == |Zip(delays, re, im)| == Shortest(delays, re, im);
      BinnedAt(delays, re, im, rate, i);
      KeptIff(delays[i], rate, Complex(re[i], im[i]), cirMaxTaps);
      SamplesIndex(delays[i], rate, last);
    }
  }

  lemma BinnedAt(delays: seq<real>, re: seq<real>, im: seq<real>, rate: real, i: nat)
    requires i < Shortest(delays, re, im)
    ensures |Binned(Zip(delays, re, im), rate)| == Shortest(delays, re, im)
    ensures Binned(Zip(delays, re, im), rate)[i] == Bin(TapIndex(delays[i], rate), Complex(re[i], im[i]))
  {
    assert Zip(delays, re, im)[i] == Path(delays[i], Complex(re[i], im[i]));
  }

  /** First pass: the largest index of a kept path. */
  method LargestIndex(delays: seq<real>, re: seq<real>, im: seq<real>, rate: real, maxTaps: nat)
    returns (maxIdx: nat)
    requires Castable(Binned(Zip(delays, re, im), rate))
    ensures maxIdx == MaxIndex(Binned(Zip(delays, re, im), rate), maxTaps)
  {
    var n := Shortest(delays, re, im);
    ghost var paths := Binned(Zip(delays, re, im), rate);
    maxIdx := 0;
    for i := 0 to n
      invariant maxIdx == MaxIndex(paths[..i], maxTaps)
    {
      MaxIndexStep(paths, maxTaps, i);
      BinnedAt(delays, re, im, rate, i);
      var idx := TapIndex(delays[i], rate);
      if maxTaps > 0 && idx >= maxTaps {
        continue;
      }
      maxIdx := if idx > maxIdx then idx else maxIdx;
    }
    assert paths[..n] == paths;
  }

  /** Second pass: its size guard never rejects a path that the first pass kept. */
  method Accumulate(delays: seq<real>, re: seq<real>, im: seq<real>, rate: real, maxTaps: nat, maxIdx: nat)
    returns (taps: seq<Complex>)
    requires Roundable(delays, rate, Shortest(delays, re, im))
    requires maxIdx == MaxIndex(Binned(Zip(delays, re, im), rate), maxTaps)
    ensures taps == Taps(Binned(Zip(delays, re, im), rate), maxTaps)
    ensures SumsUp(taps, delays, re, im, rate, maxTaps, Shortest(delays, re, im))
  {
    RoundableCastable(delays, re, im, rate);
    BinnedAll(delays, re, im, rate);
    taps := AddGains(delays, re, im, rate, maxTaps, maxIdx, Binned(Zip(delays, re, im), rate));
    TapsSumUp(delays, re, im, rate, maxTaps, maxIdx + 1);
  }

  method AddGains(delays: seq<real>, re: seq<real>, im: seq<real>, rate: real, maxTaps: nat, maxIdx: nat,
                  ghost paths: seq<Bin>)
    returns (taps: seq<Complex>)
    requires |paths| == Shortest(delays, re, im) && Castable(paths) && maxIdx == MaxIndex(paths, maxTaps)
    requires forall i :: 0 <= i < |paths| ==> paths[i] == Bin(TapIndex(delays[i], rate), Complex(re[i], im[i]))
    ensures taps == FirstTaps(paths, maxTaps, maxIdx + 1)
  {
    var n := Shortest(delays, re, im);
    taps := seq(maxIdx + 1, _ => ZERO);
    for i := 0 to n
      invariant taps == FirstTaps(paths[..i], maxTaps, maxIdx + 1)
    {
      var idx := TapIndex(delays[i], rate);
      assert paths[i] == Bin(idx, Complex(re[i], im[i]));
      TapsStep(paths, maxTaps, i, maxIdx + 1);
      if maxTaps > 0 && idx >= maxTaps {
        continue;
      }
      KeptFits(paths, maxTaps, i);
      assert idx < |taps|;
      if idx < |taps| {
        taps := taps[idx := Plus(taps[idx], Complex(re[i], im[i]))];
      }
    }
    assert paths[..n] == paths;
  }

  /** One more path adds its gain to its own tap, if it is kept. */
  lemma TapsStep(paths: seq<Bin>, maxTaps: nat, i: nat, n: nat)
    requires i < |paths| && paths[i].index >= 0
    ensures var taps, p := FirstTaps(paths[..i], maxTaps, n), paths[i];
            FirstTaps(paths[..i + 1], maxTaps, n)
            == if Kept(p, maxTaps) && p.index < n then taps[p.index := Plus(taps[p.index], p.gain)] else taps
  {
    TapStep(paths, maxTaps, i);
  }

  lemma MaxIndexStep(paths: seq<Bin>, maxTaps: nat, i: nat)
    requires i < |paths|
    ensures var before := MaxIndex(paths[..i], maxTaps);
            MaxIndex(paths[..i + 1], maxTaps)
            == if Kept(paths[i], maxTaps) && paths[i].index > before then paths[i].index else before
  {
    assert paths[..i + 1][..i] == paths[..i];
  }

  lemma TapStep(paths: seq<Bin>, maxTaps: nat, i: nat)
    requires i < |paths|
    ensures forall k ::
              Tap(paths[..i + 1], maxTaps, k) == Plus(Tap(paths[..i], maxTaps, k), Share(paths[i], maxTaps, k))
  {
    assert paths[..i + 1][..i] == paths[..i];
  }

  lemma {:induction false} KeptFits(paths: seq<Bin>, maxTaps: nat, i: nat)
    requires i < |paths| && Kept(paths[i], maxTaps)
    ensures paths[i].index <= MaxIndex(paths, maxTaps)
    decreases |paths|
  {
    if i < |paths| - 1 {
      KeptFits(paths[..|paths| - 1], maxTaps, i);
    }
  }

  // ----- Length -------------------------------------------------------------------------------

  /** The length is one more than an index that is zero or attained, and within the limit. */
  lemma {:induction false} TapCount(paths: seq<Bin>, maxTaps: nat)
    ensures |Taps(paths, maxTaps)| == 1
         || exists i :: 0 <= i < |paths| && Kept(paths[i], maxTaps)
                        && |Taps(paths, maxTaps)| == paths[i].index + 1
    ensures forall i :: 0 <= i < |paths| && Kept(paths[i], maxTaps) ==>
              paths[i].index < |Taps(paths, maxTaps)|
    ensures maxTaps > 0 ==> |Taps(paths, maxTaps)| <= maxTaps
  {
    forall i | 0 <= i < |paths| && Kept(paths[i], maxTaps)
      ensures paths[i].index <= MaxIndex(paths, maxTaps)
    {
      KeptFits(paths, maxTaps, i);
    }
    var i := Attained(paths, maxTaps);
  }

  lemma {:induction false} Attained(paths: seq<Bin>, maxTaps: nat) returns (i: int)
    ensures MaxIndex(paths, maxTaps) > 0 ==>
              0 <= i < |paths| && Kept(paths[i], maxTaps) && paths[i].index == MaxIndex(paths, maxTaps)
    decreases |paths|
  {
    i := -1;
    if paths != [] {
      var n := |paths| - 1;
      i := Attained(paths[..n], maxTaps);
      if Kept(paths[n], maxTaps) && paths[n].index > MaxIndex(paths[..n], maxTaps) {
        i := n;
      }
    }
  }

  // ----- Conservation -------------------------------------------------------------------------

  function Sum(taps: seq<Complex>): Complex {
    if taps == [] then ZERO else Plus(Sum(taps[..|taps| - 1]), taps[|taps| - 1])
  }

  function KeptGain(paths: seq<Bin>, maxTaps: nat): Complex {
    if paths == [] then
      ZERO
    else
      var n := |paths| - 1;
      Plus(KeptGain(paths[..n], maxTaps),
           if Kept(paths[n], maxTaps) then paths[n].gain else ZERO)
  }

  lemma {:induction false} SumStep(paths: seq<Bin>, maxTaps: nat, n: nat)
    requires paths != [] && paths[|paths| - 1].index >= 0
    ensures var p, rest := paths[|paths| - 1], paths[..|paths| - 1];
            Sum(FirstTaps(paths, maxTaps, n)) == Plus(Sum(FirstTaps(rest, maxTaps, n)), ShareBelow(p, maxTaps, n))
    decreases n
  {
    if n > 0 {
      var p, rest := paths[|paths| - 1], paths[..|paths| - 1];
      SumStep(paths, maxTaps, n - 1);
      LastTap(paths, maxTaps, n);
      LastTap(rest, maxTaps, n);
      Exchange(Sum(FirstTaps(rest, maxTaps, n - 1)), ShareBelow(p, maxTaps, n - 1), Tap(rest, maxTaps, n - 1),
               Share(p, maxTaps, n - 1));
    }
  }

  /** What a path adds to the first `n` taps together. */
  function ShareBelow(p: Bin, maxTaps: nat, n: nat): Complex {
    if Kept(p, maxTaps) && p.index < n then p.gain else ZERO
  }

  lemma Exchange(a: Complex, b: Complex, c: Complex, d: Complex)
    ensures Plus(Plus(a, b), Plus(c, d)) == Plus(Plus(a, c), Plus(b, d))
  {
  }

  lemma LastTap(paths: seq<Bin>, maxTaps: nat, n: nat)
    requires n > 0
    ensures Sum(FirstTaps(paths, maxTaps, n)) == Plus(Sum(FirstTaps(paths, maxTaps, n - 1)), Tap(paths, maxTaps, n - 1))
  {
    assert FirstTaps(paths, maxTaps, n)[..n - 1] == FirstTaps(paths, maxTaps, n - 1);
  }

  lemma {:induction false} ZeroTaps(maxTaps: nat, n: nat)
    ensures Sum(FirstTaps([], maxTaps, n)) == ZERO
  {
    if n > 0 {
      ZeroTaps(maxTaps, n - 1);
      assert FirstTaps([], maxTaps, n)[..n - 1] == FirstTaps([], maxTaps, n - 1);
    }
  }

  lemma {:induction false} SumOfFirst(paths: seq<Bin>, maxTaps: nat, n: nat)
    requires Castable(paths)
    requires forall i :: 0 <= i < |paths| && Kept(paths[i], maxTaps) ==> paths[i].index < n
    ensures Sum(FirstTaps(paths, maxTaps, n)) == KeptGain(paths, maxTaps)
    decreases |paths|
  {
    if paths == [] {
      ZeroTaps(maxTaps, n);
    } else {
      SumStep(paths, maxTaps, n);
      SumOfFirst(paths[..|paths| - 1], maxTaps, n);
    }
  }

  /** No kept gain is lost or counted twice. */
  lemma TapsConserveGain(paths: seq<Bin>, maxTaps: nat)
    requires Castable(paths)
    ensures Sum(Taps(paths, maxTaps)) == KeptGain(paths, maxTaps)
  {
    TapCount(paths, maxTaps);
    SumOfFirst(paths, maxTaps, MaxIndex(paths, maxTaps) + 1);
  }

  // ----- Order of the paths -------------------------------------------------------------------

  function Without<T>(paths: seq<T>, i: nat): seq<T>
    requires i < |paths|
  {
    paths[..i] + paths[i + 1..]
  }

  function Larger(a: nat, b: nat): nat {
    if a > b then a else b
  }

  function OwnIndex(p: Bin, maxTaps: nat): nat {
    if Kept(p, maxTaps) && p.index > 0 then p.index else 0
  }

  lemma {:induction false} TakeOut(paths: seq<Bin>, maxTaps: nat, i: nat, k: int)
    requires i < |paths|
    ensures Tap(paths, maxTaps, k) == Plus(Tap(Without(paths, i), maxTaps, k), Share(paths[i], maxTaps, k))
    ensures MaxIndex(paths, maxTaps) == Larger(MaxIndex(Without(paths, i), maxTaps), OwnIndex(paths[i], maxTaps))
    decreases |paths|
  {
    var n := |paths| - 1;
    var less := Without(paths, i);
    if i == n {
      assert less == paths[..n];
    } else {
      TakeOut(paths[..n], maxTaps, i, k);
      assert less[..n - 1] == Without(paths[..n], i);
      assert less[n - 1] == paths[n];
    }
  }

  lemma WithoutMultiset<T>(paths: seq<T>, i: nat)
    requires i < |paths|
    ensures multiset(Without(paths, i)) == multiset(paths) - multiset{paths[i]}
  {
    assert paths == paths[..i] + [paths[i]] + paths[i + 1..];
  }

  lemma {:induction false} TapPermuted(a: seq<Bin>, b: seq<Bin>, maxTaps: nat, k: int)
    requires multiset(a) == multiset(b)
    ensures Tap(a, maxTaps, k) == Tap(b, maxTaps, k)
    ensures MaxIndex(a, maxTaps) == MaxIndex(b, maxTaps)
    decreases |a|
  {
    if a == [] {
      assert |multiset(b)| == 0;
      assert b == [];
    } else {
      var n := |a| - 1;
      assert a[n] in multiset(b);
      var j :| 0 <= j < |b| && b[j] == a[n];
      WithoutMultiset(a, n);
      WithoutMultiset(b, j);
      TapPermuted(Without(a, n), Without(b, j), maxTaps, k);
      TakeOut(a, maxTaps, n, k);
      TakeOut(b, maxTaps, j, k);
    }
  }

  lemma TapsIgnoreOrder(a: seq<Bin>, b: seq<Bin>, maxTaps: nat)
    requires multiset(a) == multiset(b)
    ensures Taps(a, maxTaps) == Taps(b, maxTaps)
  {
    TapPermuted(a, b, maxTaps, 0);
    var x, y := Taps(a, maxTaps), Taps(b, maxTaps);
    assert |x| == |y|;
    forall k | 0 <= k < |x|
      ensures x[k] == y[k]
    {
      TapPermuted(a, b, maxTaps, k);
    }
  }

  lemma BinnedWithout(paths: seq<Path>, i: nat, rate: real)
    requires i < |paths|
    ensures Without(Binned(paths, rate), i) == Binned(Without(paths, i), rate)
    ensures Binned(paths, rate)[i] == Bin(TapIndex(paths[i].delay, rate), paths[i].gain)
  {
    assert forall k :: 0 <= k < |paths| - 1 ==> Without(paths, i)[k] == paths[if k < i then k else k + 1];
  }

  lemma PutBack<T>(a: seq<T>, i: nat, b: seq<T>, j: nat)
    requires i < |a| && j < |b| && a[i] == b[j] && multiset(Without(a, i)) == multiset(Without(b, j))
    ensures multiset(a) == multiset(b)
  {
    WithoutMultiset(a, i);
    WithoutMultiset(b, j);
    assert multiset(a) == multiset(a) - multiset{a[i]} + multiset{a[i]};
    assert multiset(b) == multiset(b) - multiset{b[j]} + multiset{b[j]};
  }

  lemma {:induction false} BinnedPermuted(a: seq<Path>, b: seq<Path>, rate: real)
    requires multiset(a) == multiset(b)
    ensures multiset(Binned(a, rate)) == multiset(Binned(b, rate))
    decreases |a|
  {
    if a == [] {
      assert |multiset(b)| == 0;
      assert b == [];
    } else {
      var n := |a| - 1;
      assert a[n] in multiset(b);
      var j :| 0 <= j < |b| && b[j] == a[n];
      WithoutMultiset(a, n);
      WithoutMultiset(b, j);
      BinnedPermuted(Without(a, n), Without(b, j), rate);
      BinnedWithout(a, n, rate);
      BinnedWithout(b, j, rate);
      PutBack(Binned(a, rate), n, Binned(b, rate), j);
    }
  }

  /** The order in which the server lists the paths does not matter. */
  lemma PathOrderIrrelevant(a: seq<Path>, b: seq<Path>, rate: real, maxTaps: nat)
    requires multiset(a) == multiset(b)
    ensures Taps(Binned(a, rate), maxTaps) == Taps(Binned(b, rate), maxTaps)
  {
    BinnedPermuted(a, b, rate);
    TapsIgnoreOrder(Binned(a, rate), Binned(b, rate), maxTaps);
  }
}
