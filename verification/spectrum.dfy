/** FFT.java: the magnitude spectrum of a stretch of signal (doFft), the threshold-region
    peak picker (findPeaks) with its quadratic refinement (computePeakFrequency), and the
    choice of the peak nearest a likely pitch (getPeakCloseToPitch). Both SoundEngine
    classes run the same peak picker inline, with their own threshold and bin width. */
module Spectrum {
  import opened Results
  import NoteTable

  datatype Complex = Complex(re: real, im: real)

  /** The numerics the Java code takes from outside: Math.log, Math.sqrt, Math.cos and the
      JTransforms forward transform, dft(input, k) being bin k of the transform of input. */
  datatype Numerics = Numerics(
    log: real -> real,
    sqrt: real -> real,
    cos: real -> real,
    dft: (seq<Complex>, nat) -> Complex)

  /** Math.PI. */
  const Pi: real := 3.141592653589793

  // ---------------------------------------------------------------------------------
  // doFft
  // ---------------------------------------------------------------------------------

  /** Weight i of the Hamming window of length n (computeWindowWeights). */
  function HammingWeight(num: Numerics, n: nat, i: nat): real {
    0.54 - 0.46 * num.cos(Quot(2.0 * Pi * (i as real), (n as int - 1) as real))
  }

  function HammingWindow(num: Numerics, n: nat): (w: seq<real>)
    ensures |w| == n
    ensures forall i :: 0 <= i < n ==> w[i] == HammingWeight(num, n, i)
  {
    seq(n, i requires 0 <= i < n => HammingWeight(num, n, i))
  }

  predicate SomePositive(xs: seq<int>) {
    exists i :: 0 <= i < |xs| && xs[i] > 0
  }

  /** The window weights doFft leaves behind. They are recomputed at the first positive
      sample, and only when they are missing or of another length than the stretch. */
  function WindowAfter(num: Numerics, cache: Option<seq<real>>, xs: seq<int>): (w: Option<seq<real>>)
    ensures w != cache <==> SomePositive(xs) && (cache.None? || |cache.value| != |xs|)
    ensures w != cache ==> w == Some(HammingWindow(num, |xs|))
    ensures SomePositive(xs) ==> w.Some? && |w.value| == |xs|
  {
    if SomePositive(xs) && (cache.None? || |cache.value| != |xs|) then Some(HammingWindow(num, |xs|)) else cache
  }

  /** The transform's input: a positive sample becomes its weighted logarithm, anything
      else 0 (half-wave rectification and log compression); every imaginary part is 0. */
  function TransformInput(num: Numerics, xs: seq<int>, weights: seq<real>): (input: seq<Complex>)
    requires SomePositive(xs) ==> |weights| == |xs|
    ensures |input| == |xs|
    ensures forall i :: 0 <= i < |xs| ==> input[i].im == 0.0
    ensures forall i :: 0 <= i < |xs| && xs[i] <= 0 ==> input[i] == Complex(0.0, 0.0)
    ensures forall i :: 0 <= i < |xs| && xs[i] > 0 ==> input[i].re == weights[i] * num.log(xs[i] as real)
  {
    seq(|xs|, i requires 0 <= i < |xs| =>
      if xs[i] > 0 then
        assert SomePositive(xs);
        Complex(weights[i] * num.log(xs[i] as real), 0.0)
      else Complex(0.0, 0.0))
  }

  /** The transform's input of both SoundEngine classes, which apply no window: the same
      rectified logarithm as doFft's with every weight 1. */
  function RectifiedInput(num: Numerics, xs: seq<int>): (input: seq<Complex>)
    ensures |input| == |xs|
    ensures input == TransformInput(num, xs, seq(|xs|, i => 1.0))
  {
    seq(|xs|, i requires 0 <= i < |xs| =>
      if xs[i] > 0 then Complex(num.log(xs[i] as real), 0.0) else Complex(0.0, 0.0))
  }

  /** The magnitudes of the first `count` bins of the transform of `input`. */
  function Magnitudes(num: Numerics, input: seq<Complex>, count: nat): (mags: seq<real>)
    ensures |mags| == count
  {
    seq(count, k requires 0 <= k < count =>
      var c := num.dft(input, k);
      num.sqrt(c.re * c.re + c.im * c.im))
  }

  /** The stretch [start, end) that doFft reads; empty when nothing is read. */
  function Stretch(signal: seq<int>, start: int, end: int): seq<int> {
    if 0 <= start <= end <= |signal| then signal[start..end] else []
  }

  /** doFft(start, end, signal), with the cached window weights passed in and returned:
      a negative length fails on the array allocation, a stretch outside the signal on
      the first read; otherwise the result holds (end - start) / 2 magnitudes. */
  function DoFft(num: Numerics, cache: Option<seq<real>>, signal: seq<int>, start: int, end: int)
    : (r: Result<(Option<seq<real>>, seq<real>)>)
    ensures r.Failure? <==> end < start || (start < end && (start < 0 || end > |signal|))
    ensures r.Failure? ==> (r.error == NegativeArraySize <==> end < start)
    ensures r.Success? ==> |r.value.1| == (end - start) / 2
  {
    if end < start then Failure(NegativeArraySize)
    else if start < end && (start < 0 || end > |signal|) then Failure(IndexOutOfBounds)
    else Success(Windowed(num, cache, Stretch(signal, start, end)))
  }

  /** doFft on a stretch it can read: the weights it leaves and the magnitudes of the first
      half of the bins. */
  function Windowed(num: Numerics, cache: Option<seq<real>>, xs: seq<int>): (r: (Option<seq<real>>, seq<real>))
    ensures |r.1| == |xs| / 2
  {
    var w := WindowAfter(num, cache, xs);
    (w, Magnitudes(num, TransformInput(num, xs, if w.Some? then w.value else []), |xs| / 2))
  }

  /** A cache holding nothing, or the Hamming window of its own length. */
  ghost predicate ValidCache(num: Numerics, cache: Option<seq<real>>) {
    cache.None? || cache.value == HammingWindow(num, |cache.value|)
  }

  /** The weight cache is invisible: from a valid cache doFft returns the magnitudes of the
      stretch windowed with a freshly computed Hamming window, and leaves a valid cache. */
  lemma DoFftCacheTransparent(num: Numerics, cache: Option<seq<real>>, signal: seq<int>, start: int, end: int)
    requires ValidCache(num, cache)
    requires 0 <= start <= end <= |signal|
    ensures var r := DoFft(num, cache, signal, start, end);
      r.Success? && ValidCache(num, r.value.0) &&
      r.value.1 == Magnitudes(num, TransformInput(num, signal[start..end], HammingWindow(num, end - start)), (end - start) / 2)
  {
    var xs := signal[start..end];
    assert Stretch(signal, start, end) == xs;
    assert DoFft(num, cache, signal, start, end) == Success(Windowed(num, cache, xs));
    WindowAfterValid(num, cache, xs);
  }

  /** The weights doFft applies act as the Hamming window of the stretch, and the cache it
      leaves is valid. */
  lemma WindowAfterValid(num: Numerics, cache: Option<seq<real>>, xs: seq<int>)
    requires ValidCache(num, cache)
    ensures ValidCache(num, WindowAfter(num, cache, xs))
    ensures var w := WindowAfter(num, cache, xs);
      TransformInput(num, xs, if w.Some? then w.value else []) == TransformInput(num, xs, HammingWindow(num, |xs|))
  {
    var w := WindowAfter(num, cache, xs);
    var weights := if w.Some? then w.value else [];
    if SomePositive(xs) {
      assert weights == HammingWindow(num, |xs|);
    } else {
      NoPositiveInput(num, xs, weights, HammingWindow(num, |xs|));
    }
  }

  /** Without a positive sample the weights are never read. */
  lemma NoPositiveInput(num: Numerics, xs: seq<int>, a: seq<real>, b: seq<real>)
    requires !SomePositive(xs)
    ensures TransformInput(num, xs, a) == TransformInput(num, xs, b)
  {
    var ta, tb := TransformInput(num, xs, a), TransformInput(num, xs, b);
    assert forall i :: 0 <= i < |xs| ==> ta[i] == Complex(0.0, 0.0) == tb[i];
  }

  // ---------------------------------------------------------------------------------
  // findPeaks: the threshold-region scan
  // ---------------------------------------------------------------------------------

  /** One bin of a magnitude array: its index, its frequency and its magnitude. */
  datatype Bin = Bin(index: nat, freq: int, mag: real)

  /** The bins of a magnitude array; bin i has frequency sampleRate * i / numBins in Java
      int division. */
  function Bins(mags: seq<real>, sampleRate: int, numBins: int): (bs: seq<Bin>)
    requires |mags| == 0 || numBins > 0
    ensures |bs| == |mags|
    ensures forall i :: 0 <= i < |bs| ==>
      bs[i].index == i && bs[i].mag == mags[i] && bs[i].freq == JavaDiv(sampleRate * i, numBins)
  {
    seq(|mags|, i requires 0 <= i < |mags| => Bin(i, JavaDiv(sampleRate * i, numBins), mags[i]))
  }

  predicate InBand(b: Bin, lo: real, hi: real) {
    !(b.freq as real < lo || b.freq as real > hi)
  }

  /** The bins the scan acts on: those inside [lo, hi], in order. The others are passed
      over with `continue`, so they neither open nor close a region. */
  function BandBins(bs: seq<Bin>, lo: real, hi: real): (r: seq<Bin>)
    ensures forall b :: b in r <==> b in bs && InBand(b, lo, hi)
  {
    if bs == [] then []
    else (if InBand(bs[0], lo, hi) then [bs[0]] else []) + BandBins(bs[1..], lo, hi)
  }

  /** A bin that extends a region: above the threshold and not at frequency 0. */
  predicate High(b: Bin, threshold: real) {
    b.mag > threshold && b.freq != 0
  }

  /** The loop of findPeaks over the in-band bins. `pastZero` says a low bin has been
      seen; `run` is the open region (in_peak is run != []). A low bin closes the region,
      which is kept when it has more than one bin. The result lists the kept regions; the
      refinement of each into a frequency is applied to this list afterwards. */
  function ScanRuns(bs: seq<Bin>, threshold: real, pastZero: bool, run: seq<Bin>): seq<seq<Bin>> {
    if bs == [] then []
    else if High(bs[0], threshold) then
      ScanRuns(bs[1..], threshold, pastZero, if pastZero then run + [bs[0]] else run)
    else
      (if |run| > 1 then [run] else []) + ScanRuns(bs[1..], threshold, true, [])
  }

  // Reference description of the regions: cut the in-band bins at every low bin.

  function Lows(bs: seq<Bin>, threshold: real): seq<Bin> {
    if bs == [] then []
    else (if High(bs[0], threshold) then [] else [bs[0]]) + Lows(bs[1..], threshold)
  }

  predicate AllHigh(run: seq<Bin>, threshold: real) {
    forall i :: 0 <= i < |run| ==> High(run[i], threshold)
  }

  /** segs[0] + [lows[0]] + segs[1] + [lows[1]] + ... + segs[k]. */
  function JoinAtLows(segs: seq<seq<Bin>>, lows: seq<Bin>): seq<Bin>
    requires |segs| == |lows| + 1
  {
    segs[0] + JoinTail(segs[1..], lows)
  }

  /** [lows[0]] + segs[0] + [lows[1]] + segs[1] + ... */
  function JoinTail(segs: seq<seq<Bin>>, lows: seq<Bin>): seq<Bin>
    requires |segs| == |lows|
  {
    if lows == [] then []
    else [lows[0]] + segs[0] + JoinTail(segs[1..], lows[1..])
  }

  /** The maximal stretches of high bins around the low bins: one more stretch than there
      are low bins, each possibly empty. */
  function SplitAtLows(bs: seq<Bin>, threshold: real): (segs: seq<seq<Bin>>)
    ensures |segs| == |Lows(bs, threshold)| + 1
  {
    if bs == [] then [[]]
    else
      var rest := SplitAtLows(bs[1..], threshold);
      if High(bs[0], threshold) then [[bs[0]] + rest[0]] + rest[1..]
      else [[]] + rest
  }

  /** One step of SplitAtLows and Lows. */
  lemma SplitStep(bs: seq<Bin>, threshold: real)
    requires bs != []
    ensures var rest := SplitAtLows(bs[1..], threshold);
      SplitAtLows(bs, threshold) ==
        (if High(bs[0], threshold) then [[bs[0]] + rest[0]] + rest[1..] else [[]] + rest)
    ensures Lows(bs, threshold) ==
      (if High(bs[0], threshold) then [] else [bs[0]]) + Lows(bs[1..], threshold)
  {
  }

  /** One step of SplitAtLows alone. */
  lemma SplitHead(bs: seq<Bin>, threshold: real)
    requires bs != []
    ensures var rest := SplitAtLows(bs[1..], threshold);
      SplitAtLows(bs, threshold) ==
        (if High(bs[0], threshold) then [[bs[0]] + rest[0]] + rest[1..] else [[]] + rest)
  {
  }

  lemma JoinExtendFirst(x: Bin, rest: seq<seq<Bin>>, lows: seq<Bin>)
    requires |rest| == |lows| + 1
    ensures JoinAtLows([[x] + rest[0]] + rest[1..], lows) == [x] + JoinAtLows(rest, lows)
  {
    var segs := [[x] + rest[0]] + rest[1..];
    assert segs[0] == [x] + rest[0] && segs[1..] == rest[1..];
    var tail := JoinTail(rest[1..], lows);
    assert ([x] + rest[0]) + tail == [x] + (rest[0] + tail);
  }

  lemma JoinNewFirst(x: Bin, rest: seq<seq<Bin>>, lows: seq<Bin>)
    requires |rest| == |lows| + 1
    ensures JoinAtLows([[]] + rest, [x] + lows) == [x] + JoinAtLows(rest, lows)
  {
    var segs, ls := [[]] + rest, [x] + lows;
    assert segs[0] == [] && segs[1..] == rest;
    assert ls[0] == x && ls[1..] == lows;
    var tail := JoinTail(rest[1..], lows);
    assert JoinTail(rest, ls) == [x] + rest[0] + tail;
    assert [] + ([x] + rest[0] + tail) == [x] + (rest[0] + tail);
  }

  /** Rejoined with the low bins between them, the stretches of SplitAtLows give back the
      bins. */
  lemma {:induction false} SplitAtLowsJoin(bs: seq<Bin>, threshold: real)
    ensures JoinAtLows(SplitAtLows(bs, threshold), Lows(bs, threshold)) == bs
  {
    if bs != [] {
      SplitAtLowsJoin(bs[1..], threshold);
      SplitStep(bs, threshold);
      var rest := SplitAtLows(bs[1..], threshold);
      var lows := Lows(bs[1..], threshold);
      if High(bs[0], threshold) {
        assert Lows(bs, threshold) == lows;
        JoinExtendFirst(bs[0], rest, lows);
      } else {
        JoinNewFirst(bs[0], rest, lows);
      }
      assert bs == [bs[0]] + bs[1..];
    }
  }

  /** Every stretch of SplitAtLows is made of high bins only. */
  lemma {:induction false} SplitAtLowsHigh(bs: seq<Bin>, threshold: real)
    ensures forall i :: 0 <= i < |SplitAtLows(bs, threshold)| ==> AllHigh(SplitAtLows(bs, threshold)[i], threshold)
  {
    if bs != [] {
      SplitAtLowsHigh(bs[1..], threshold);
      SplitStep(bs, threshold);
      var rest := SplitAtLows(bs[1..], threshold);
      var segs := SplitAtLows(bs, threshold);
      forall i | 0 <= i < |segs|
        ensures AllHigh(segs[i], threshold)
      {
        if High(bs[0], threshold) {
          if i > 0 {
            assert segs[i] == rest[i];
          } else {
            assert segs[0] == [bs[0]] + rest[0];
          }
        } else if i > 0 {
          assert segs[i] == rest[i - 1];
        }
      }
    }
  }

  /** The regions with at least two bins. */
  function LongRuns(runs: seq<seq<Bin>>): (r: seq<seq<Bin>>)
    ensures forall run :: run in r <==> run in runs && |run| >= 2
  {
    if runs == [] then []
    else (if |runs[0]| >= 2 then [runs[0]] else []) + LongRuns(runs[1..])
  }

  /** The stretches strictly between two low bins: neither the one before the first low
      bin nor the one after the last. */
  function Inner(segs: seq<seq<Bin>>): seq<seq<Bin>> {
    if |segs| < 2 then [] else segs[1..|segs| - 1]
  }

  lemma {:induction false} LongRunsAppend(a: seq<seq<Bin>>, b: seq<seq<Bin>>)
    ensures LongRuns(a + b) == LongRuns(a) + LongRuns(b)
  {
    if a == [] {
      assert a + b == b;
    } else {
      assert (a + b)[1..] == a[1..] + b;
      LongRunsAppend(a[1..], b);
    }
  }

  /** After a low bin, with `run` open, the scan keeps exactly the long stretches among
      all but the last of the split, the first one extended by `run`. */
  lemma {:induction false} ScanAfterLow(bs: seq<Bin>, threshold: real, run: seq<Bin>)
    ensures var segs := SplitAtLows(bs, threshold);
      ScanRuns(bs, threshold, true, run) == LongRuns(([run + segs[0]] + segs[1..])[..|segs| - 1])
  {
    if bs != [] {
      if High(bs[0], threshold) {
        ScanAfterLow(bs[1..], threshold, run + [bs[0]]);
        ScanAfterLowHigh(bs, threshold, run);
      } else {
        ScanAfterLow(bs[1..], threshold, []);
        ScanAfterLowLow(bs, threshold, run);
      }
    }
  }

  /** The step of ScanAfterLow at a high bin, which joins the open region. */
  lemma ScanAfterLowHigh(bs: seq<Bin>, threshold: real, run: seq<Bin>)
    requires bs != [] && High(bs[0], threshold)
    requires var rest := SplitAtLows(bs[1..], threshold);
      ScanRuns(bs[1..], threshold, true, run + [bs[0]]) == LongRuns(([(run + [bs[0]]) + rest[0]] + rest[1..])[..|rest| - 1])
    ensures var segs := SplitAtLows(bs, threshold);
      ScanRuns(bs, threshold, true, run) == LongRuns(([run + segs[0]] + segs[1..])[..|segs| - 1])
  {
    SplitHead(bs, threshold);
    ExtendedFirst(bs[0], run, SplitAtLows(bs[1..], threshold));
  }

  /** The step of ScanAfterLow at a low bin, which closes the open region. */
  lemma ScanAfterLowLow(bs: seq<Bin>, threshold: real, run: seq<Bin>)
    requires bs != [] && !High(bs[0], threshold)
    requires var rest := SplitAtLows(bs[1..], threshold);
      ScanRuns(bs[1..], threshold, true, []) == LongRuns(([[] + rest[0]] + rest[1..])[..|rest| - 1])
    ensures var segs := SplitAtLows(bs, threshold);
      ScanRuns(bs, threshold, true, run) == LongRuns(([run + segs[0]] + segs[1..])[..|segs| - 1])
  {
    var rest := SplitAtLows(bs[1..], threshold);
    SplitHead(bs, threshold);
    ClosedFirst(run, rest);
    LongRunsAppend([run], rest[..|rest| - 1]);
    LongRunsSingle(run);
    assert ScanRuns(bs, threshold, true, run) ==
      (if |run| > 1 then [run] else []) + ScanRuns(bs[1..], threshold, true, []);
  }

  lemma ExtendedFirst(x: Bin, run: seq<Bin>, rest: seq<seq<Bin>>)
    requires |rest| >= 1
    ensures var segs := [[x] + rest[0]] + rest[1..];
      [run + segs[0]] + segs[1..] == [(run + [x]) + rest[0]] + rest[1..]
  {
    assert run + ([x] + rest[0]) == (run + [x]) + rest[0];
  }

  lemma ClosedFirst(run: seq<Bin>, rest: seq<seq<Bin>>)
    requires |rest| >= 1
    ensures var segs := [[]] + rest;
      ([run + segs[0]] + segs[1..])[..|segs| - 1] == [run] + rest[..|rest| - 1]
    ensures ([[] + rest[0]] + rest[1..])[..|rest| - 1] == rest[..|rest| - 1]
  {
    var segs := [[]] + rest;
    assert segs[0] == [] && segs[1..] == rest;
    assert run + segs[0] == run;
    assert [] + rest[0] == rest[0];
    assert [rest[0]] + rest[1..] == rest;
  }

  lemma LongRunsSingle(run: seq<Bin>)
    ensures LongRuns([run]) == if |run| > 1 then [run] else []
  {
    assert [run][1..] == [];
  }

  /** The regions the scan keeps are exactly the stretches of high bins lying strictly
      between two low bins and holding at least two bins: the stretch before the first low
      bin is never a region, and the stretch after the last is discarded. */
  lemma {:induction false} ScanRunsRegions(bs: seq<Bin>, threshold: real)
    ensures ScanRuns(bs, threshold, false, []) == LongRuns(Inner(SplitAtLows(bs, threshold)))
  {
    if bs != [] {
      if High(bs[0], threshold) {
        ScanRunsRegions(bs[1..], threshold);
        InnerOfHighHead(bs, threshold);
      } else {
        ScanAfterLow(bs[1..], threshold, []);
        InnerOfLowHead(bs, threshold);
      }
    }
  }

  lemma InnerOfHighHead(bs: seq<Bin>, threshold: real)
    requires bs != [] && High(bs[0], threshold)
    ensures Inner(SplitAtLows(bs, threshold)) == Inner(SplitAtLows(bs[1..], threshold))
    ensures ScanRuns(bs, threshold, false, []) == ScanRuns(bs[1..], threshold, false, [])
  {
    SplitHead(bs, threshold);
    InnerExtended(bs[0], SplitAtLows(bs[1..], threshold));
  }

  /** Extending the first stretch does not change the inner ones. */
  lemma InnerExtended(x: Bin, rest: seq<seq<Bin>>)
    requires |rest| >= 1
    ensures Inner([[x] + rest[0]] + rest[1..]) == Inner(rest)
  {
    var segs := [[x] + rest[0]] + rest[1..];
    if |segs| >= 2 {
      assert segs[1..|segs| - 1] == rest[1..|rest| - 1];
    }
  }

  lemma InnerOfLowHead(bs: seq<Bin>, threshold: real)
    requires bs != [] && !High(bs[0], threshold)
    ensures var rest := SplitAtLows(bs[1..], threshold);
      ScanRuns(bs, threshold, false, []) == ScanRuns(bs[1..], threshold, true, []) &&
      Inner(SplitAtLows(bs, threshold)) == ([[] + rest[0]] + rest[1..])[..|rest| - 1]
  {
    var rest := SplitAtLows(bs[1..], threshold);
    SplitHead(bs, threshold);
    InnerClosed(rest);
    assert ScanRuns(bs, threshold, false, []) == [] + ScanRuns(bs[1..], threshold, true, []);
  }

  /** Opening with an empty stretch makes every stretch but the last inner. */
  lemma InnerClosed(rest: seq<seq<Bin>>)
    requires |rest| >= 1
    ensures Inner([[]] + rest) == ([[] + rest[0]] + rest[1..])[..|rest| - 1]
  {
    assert [] + rest[0] == rest[0];
    assert [rest[0]] + rest[1..] == rest;
    var segs := [[]] + rest;
    assert segs[1..|segs| - 1] == rest[..|rest| - 1];
  }

  // ---------------------------------------------------------------------------------
  // computePeakFrequency
  // ---------------------------------------------------------------------------------

  /** k is the first index whose magnitude is maximal and above -1 (the loop's initial
      max_mag), or -1 when no magnitude exceeds -1. */
  predicate FirstMax(mags: seq<real>, k: int) {
    if k == -1 then forall j :: 0 <= j < |mags| ==> mags[j] <= -1.0
    else
      0 <= k < |mags| && mags[k] > -1.0 &&
      (forall j :: 0 <= j < k ==> mags[j] < mags[k]) &&
      (forall j :: k < j < |mags| ==> mags[j] <= mags[k])
  }

  function ArgMaxFrom(mags: seq<real>, i: nat, best: real, bestIndex: int): (k: int)
    requires i <= |mags| && -1 <= bestIndex < i + 0
    requires bestIndex == -1 ==> best == -1.0 && forall j :: 0 <= j < i ==> mags[j] <= -1.0
    requires bestIndex >= 0 ==>
      best == mags[bestIndex] && best > -1.0 &&
      (forall j :: 0 <= j < bestIndex ==> mags[j] < best) &&
      (forall j :: bestIndex < j < i ==> mags[j] <= best)
    ensures FirstMax(mags, k)
    decreases |mags| - i
  {
    if i == |mags| then bestIndex
    else if mags[i] > best then ArgMaxFrom(mags, i + 1, mags[i], i)
    else ArgMaxFrom(mags, i + 1, best, bestIndex)
  }

  /** The index loop of computePeakFrequency: strict comparison, so the first maximum. */
  function ArgMax(mags: seq<real>): (k: int)
    ensures FirstMax(mags, k)
  {
    ArgMaxFrom(mags, 0, -1.0, -1)
  }

  /** The quadratic refinement of an interior maximum at index k of a region whose first
      bin is firstBin. */
  function RefinedBin(mags: seq<real>, k: int, firstBin: int): real
    requires 0 < k < |mags| - 1
  {
    0.5 * Quot(mags[k - 1] - mags[k + 1], mags[k - 1] - 2.0 * mags[k] + mags[k + 1]) + (firstBin + k) as real
  }

  /** Around a first maximum the parabola's denominator is negative and its vertex lies in
      (-0.5, 0.5] of the maximal bin. */
  lemma InterpolationWithinHalfBin(a: real, b: real, c: real)
    requires a < b && c <= b
    ensures a - 2.0 * b + c < 0.0
    ensures -0.5 < 0.5 * Quot(a - c, a - 2.0 * b + c) <= 0.5
  {
    var d := a - 2.0 * b + c;
    var q := Quot(a - c, d);
    assert q * d == a - c;
    assert (q + 1.0) * d == 2.0 * (a - b);
    assert (q - 1.0) * d == 2.0 * (b - c);
    PositiveFactor(q + 1.0, d);
    NonPositiveFactor(q - 1.0, d);
  }

  lemma PositiveFactor(x: real, d: real)
    requires d < 0.0 && x * d < 0.0
    ensures x > 0.0
  {
  }

  lemma NonPositiveFactor(x: real, d: real)
    requires d < 0.0 && x * d >= 0.0
    ensures x <= 0.0
  {
  }

  /** computePeakFrequency(mags, freqs, first_bin, num_bins, sampleRate): at a maximum at
      either end of the region, that bin's frequency; inside the region, the frequency of
      the refined bin, which lies within half a bin of the maximum. When no magnitude
      exceeds -1 the index stays -1 and the list read fails. */
  function ComputePeakFrequency(mags: seq<real>, freqs: seq<real>, firstBin: int, numBins: int, sampleRate: int)
    : (r: Result<real>)
    requires |freqs| == |mags|
    ensures r.Failure? <==> forall j :: 0 <= j < |mags| ==> mags[j] <= -1.0
    ensures r.Failure? ==> r.error == IndexOutOfBounds
    ensures r.Success? && (ArgMax(mags) == 0 || ArgMax(mags) == |mags| - 1) ==> r.value == freqs[ArgMax(mags)]
    ensures r.Success? && 0 < ArgMax(mags) < |mags| - 1 ==>
      var k := ArgMax(mags);
      (firstBin + k) as real - 0.5 < RefinedBin(mags, k, firstBin) <= (firstBin + k) as real + 0.5 &&
      r.value == Quot(sampleRate as real * RefinedBin(mags, k, firstBin), numBins as real)
  {
    var k := ArgMax(mags);
    if k == -1 then Failure(IndexOutOfBounds)
    else if k == 0 || k == |mags| - 1 then Success(freqs[k])
    else
      InterpolationWithinHalfBin(mags[k - 1], mags[k], mags[k + 1]);
      Success(Quot(sampleRate as real * RefinedBin(mags, k, firstBin), numBins as real))
  }

  function RunMags(run: seq<Bin>): (r: seq<real>)
    ensures |r| == |run| && forall i :: 0 <= i < |run| ==> r[i] == run[i].mag
  {
    seq(|run|, i requires 0 <= i < |run| => run[i].mag)
  }

  function RunFreqs(run: seq<Bin>): (r: seq<real>)
    ensures |r| == |run| && forall i :: 0 <= i < |run| ==> r[i] == run[i].freq as real
  {
    seq(|run|, i requires 0 <= i < |run| => run[i].freq as real)
  }

  /** computePeakFrequency applied to a region (first_bin is -1 for an empty one). */
  function Refine(run: seq<Bin>, numBins: int, sampleRate: int): Result<real> {
    var firstBin := if run == [] then -1 else run[0].index;
    ComputePeakFrequency(RunMags(run), RunFreqs(run), firstBin, numBins, sampleRate)
  }

  /** The peaks of a list of regions, in order; the first failure propagates. */
  function RefineAll(runs: seq<seq<Bin>>, numBins: int, sampleRate: int): (r: Result<seq<real>>)
    ensures r.Success? ==> |r.value| == |runs|
    ensures r.Success? ==>
      forall i :: 0 <= i < |runs| ==> Refine(runs[i], numBins, sampleRate) == Success(r.value[i])
    ensures r.Failure? <==> exists i :: 0 <= i < |runs| && Refine(runs[i], numBins, sampleRate).Failure?
  {
    if runs == [] then Success([])
    else
      match Refine(runs[0], numBins, sampleRate)
      case Failure(e) => Failure(e)
      case Success(p) =>
        match RefineAll(runs[1..], numBins, sampleRate)
        case Failure(e) =>
          assert forall i :: 1 <= i < |runs| ==> runs[i] == runs[1..][i - 1];
          Failure(e)
        case Success(ps) =>
          assert forall i :: 1 <= i < |runs| ==> runs[i] == runs[1..][i - 1];
          Success([p] + ps)
  }

  /** The peak scan over a magnitude array: bins with frequencies sampleRate * i / numBins,
      the band [lo, hi], and a threshold. */
  function FindPeaks(mags: seq<real>, threshold: real, sampleRate: int, numBins: int, lo: real, hi: real)
    : Result<seq<real>>
    requires |mags| == 0 || numBins > 0
  {
    var bs := BandBins(Bins(mags, sampleRate, numBins), lo, hi);
    RefineAll(ScanRuns(bs, threshold, false, []), numBins, sampleRate)
  }

  /** The peaks are the refinements, in order, of the regions strictly between two
      in-band low bins that hold at least two bins; with a threshold of at least -1 no
      refinement fails. */
  lemma FindPeaksRegions(mags: seq<real>, threshold: real, sampleRate: int, numBins: int, lo: real, hi: real)
    requires |mags| == 0 || numBins > 0
    ensures var bs := BandBins(Bins(mags, sampleRate, numBins), lo, hi);
      FindPeaks(mags, threshold, sampleRate, numBins, lo, hi) ==
        RefineAll(LongRuns(Inner(SplitAtLows(bs, threshold))), numBins, sampleRate)
    ensures threshold >= -1.0 ==> FindPeaks(mags, threshold, sampleRate, numBins, lo, hi).Success?
  {
    var bs := BandBins(Bins(mags, sampleRate, numBins), lo, hi);
    ScanRunsRegions(bs, threshold);
    if threshold >= -1.0 {
      var runs := LongRuns(Inner(SplitAtLows(bs, threshold)));
      forall i | 0 <= i < |runs|
        ensures Refine(runs[i], numBins, sampleRate).Success?
      {
        assert runs[i] in runs;
        RefineRegion(bs, threshold, runs[i], numBins, sampleRate);
      }
    }
  }

  /** A region FindPeaks refines is all above a threshold of at least -1, so its
      refinement succeeds. */
  lemma RefineRegion(bs: seq<Bin>, threshold: real, run: seq<Bin>, numBins: int, sampleRate: int)
    requires threshold >= -1.0
    requires run in LongRuns(Inner(SplitAtLows(bs, threshold)))
    ensures Refine(run, numBins, sampleRate).Success?
  {
    RegionFacts(bs, threshold, run);
    assert RunMags(run)[0] > -1.0;
  }

  /** Every bin of a stretch of SplitAtLows is one of the bins split. */
  lemma {:induction false} SplitAtLowsMembers(bs: seq<Bin>, threshold: real)
    ensures forall i, b :: 0 <= i < |SplitAtLows(bs, threshold)| && b in SplitAtLows(bs, threshold)[i] ==> b in bs
  {
    if bs != [] {
      SplitAtLowsMembers(bs[1..], threshold);
      SplitStep(bs, threshold);
      var rest := SplitAtLows(bs[1..], threshold);
      var segs := SplitAtLows(bs, threshold);
      assert forall x :: x in bs[1..] ==> x in bs;
      forall i, b | 0 <= i < |segs| && b in segs[i]
        ensures b in bs
      {
        if High(bs[0], threshold) {
          if i > 0 {
            assert segs[i] == rest[i];
          } else {
            assert segs[0] == [bs[0]] + rest[0];
          }
        } else if i > 0 {
          assert segs[i] == rest[i - 1];
        }
      }
    }
  }

  lemma QuotPositive(a: real, b: real)
    requires a > 0.0 && b > 0.0
    ensures Quot(a, b) > 0.0
  {
    assert Quot(a, b) * b == a;
  }

  /** A region of high, in-band bins away from bin 0 refines to a positive frequency. */
  lemma RefinePositive(run: seq<Bin>, threshold: real, numBins: int, sampleRate: int, lo: real)
    requires |run| >= 2 && threshold >= -1.0 && lo > 0.0 && numBins > 0 && sampleRate > 0
    requires AllHigh(run, threshold)
    requires forall i :: 0 <= i < |run| ==> run[i].freq as real >= lo && run[i].index >= 1
    ensures Refine(run, numBins, sampleRate).Success? && Refine(run, numBins, sampleRate).value > 0.0
  {
    var mags, freqs := RunMags(run), RunFreqs(run);
    assert mags[0] > -1.0;
    var k := ArgMax(mags);
    if 0 < k < |mags| - 1 {
      var rb := RefinedBin(mags, k, run[0].index);
      InterpolationWithinHalfBin(mags[k - 1], mags[k], mags[k + 1]);
      assert rb > 0.0;
      PositiveProduct(sampleRate as real, rb);
      QuotPositive(sampleRate as real * rb, numBins as real);
    }
  }

  lemma PositiveProduct(a: real, b: real)
    requires a > 0.0 && b > 0.0
    ensures a * b > 0.0
  {
  }

  /** A bin of the spectrum whose frequency is positive is not bin 0. */
  lemma BandBinIndex(mags: seq<real>, sampleRate: int, numBins: int, lo: real, hi: real, b: Bin)
    requires numBins > 0 && lo > 0.0
    requires b in BandBins(Bins(mags, sampleRate, numBins), lo, hi)
    ensures b.freq as real >= lo && b.index >= 1
  {
    var bs := Bins(mags, sampleRate, numBins);
    var i :| 0 <= i < |bs| && bs[i] == b;
    assert b.freq == JavaDiv(sampleRate * i, numBins);
  }

  /** With a positive sample rate, a positive lower band edge and a threshold of at least
      -1, the scan succeeds and every peak it finds is a positive frequency. */
  lemma FindPeaksPositive(mags: seq<real>, threshold: real, sampleRate: int, numBins: int, lo: real, hi: real)
    requires numBins > 0 && sampleRate > 0 && lo > 0.0 && threshold >= -1.0
    ensures FindPeaks(mags, threshold, sampleRate, numBins, lo, hi).Success?
    ensures forall i :: 0 <= i < |FindPeaks(mags, threshold, sampleRate, numBins, lo, hi).value| ==>
      FindPeaks(mags, threshold, sampleRate, numBins, lo, hi).value[i] > 0.0
  {
    FindPeaksRegions(mags, threshold, sampleRate, numBins, lo, hi);
    var bs := BandBins(Bins(mags, sampleRate, numBins), lo, hi);
    var runs := LongRuns(Inner(SplitAtLows(bs, threshold)));
    var r := RefineAll(runs, numBins, sampleRate);
    forall i | 0 <= i < |r.value|
      ensures r.value[i] > 0.0
    {
      var run := runs[i];
      RegionFacts(bs, threshold, run);
      forall m | 0 <= m < |run|
        ensures run[m].freq as real >= lo && run[m].index >= 1
      {
        BandBinIndex(mags, sampleRate, numBins, lo, hi, run[m]);
      }
      RefinePositive(run, threshold, numBins, sampleRate, lo);
    }
  }

  /** A region the scan keeps has at least two bins, all of them high bins of the scan. */
  lemma RegionFacts(bs: seq<Bin>, threshold: real, run: seq<Bin>)
    requires run in LongRuns(Inner(SplitAtLows(bs, threshold)))
    ensures |run| >= 2 && AllHigh(run, threshold)
    ensures forall m :: 0 <= m < |run| ==> run[m] in bs
  {
    var segs := SplitAtLows(bs, threshold);
    assert run in Inner(segs);
    var j :| 0 <= j < |Inner(segs)| && Inner(segs)[j] == run;
    assert run == segs[j + 1];
    SplitAtLowsHigh(bs, threshold);
    SplitAtLowsMembers(bs, threshold);
    forall m | 0 <= m < |run|
      ensures run[m] in bs
    {
      assert run[m] in segs[j + 1];
    }
  }

  // ---------------------------------------------------------------------------------
  // getPeakCloseToPitch
  // ---------------------------------------------------------------------------------

  /** The index of the peak nearest x, the earliest one on ties; -1 for no peaks. */
  predicate NearestFirst(ps: seq<real>, x: real, k: int) {
    if ps == [] then k == -1
    else
      0 <= k < |ps| &&
      (forall j :: 0 <= j < |ps| ==> Abs(x - ps[k]) <= Abs(x - ps[j])) &&
      (forall j :: 0 <= j < k ==> Abs(x - ps[j]) > Abs(x - ps[k]))
  }

  function ClosestFrom(ps: seq<real>, x: real, i: nat, best: int): (k: int)
    requires i <= |ps| && -1 <= best < i + 0
    requires best == -1 <==> i == 0
    requires best >= 0 ==>
      (forall j :: 0 <= j < i ==> Abs(x - ps[best]) <= Abs(x - ps[j])) &&
      (forall j :: 0 <= j < best ==> Abs(x - ps[j]) > Abs(x - ps[best]))
    ensures NearestFirst(ps, x, k)
    decreases |ps| - i
  {
    if i == |ps| then best
    else if best == -1 || Abs(x - ps[i]) < Abs(x - ps[best]) then ClosestFrom(ps, x, i + 1, i)
    else ClosestFrom(ps, x, i + 1, best)
  }

  /** The loop of getPeakCloseToPitch: 0.0 without peaks, else the nearest, earliest peak. */
  function ClosestPeak(ps: seq<real>, x: real): (r: real)
    ensures ps == [] ==> r == 0.0
    ensures ps != [] ==> exists k :: NearestFirst(ps, x, k) && 0 <= k < |ps| && r == ps[k]
  {
    var k := ClosestFrom(ps, x, 0, -1);
    if k == -1 then 0.0 else ps[k]
  }

  /** findPeaks as FFT calls it: bins of sampleRate / (2 * length) Hz and the band of the
      note table in force. */
  function FftFindPeaks(basePitch: real, mags: seq<real>, minMag: int, sampleRate: int): Result<seq<real>> {
    var t := NoteTable.Build(basePitch);
    FindPeaks(mags, minMag as real, sampleRate, 2 * |mags|, NoteTable.MinFrequency(t), NoteTable.MaxFrequency(t))
  }

  /** The threshold getPeakCloseToPitch passes to findPeaks. */
  const PeakThreshold: int := 20

  /** getPeakCloseToPitch: the peak nearest the likely pitch, 0.0 when there is none. */
  function GetPeakCloseToPitch(basePitch: real, mags: seq<real>, likelyPitch: real, sampleRate: int): (r: real)
    ensures var peaks := FftFindPeaks(basePitch, mags, PeakThreshold, sampleRate);
      peaks.Success? &&
      (peaks.value == [] ==> r == 0.0) &&
      (peaks.value != [] ==> exists k :: NearestFirst(peaks.value, likelyPitch, k) && 0 <= k < |peaks.value| && r == peaks.value[k])
  {
    var t := NoteTable.Build(basePitch);
    FindPeaksRegions(mags, PeakThreshold as real, sampleRate, 2 * |mags|, NoteTable.MinFrequency(t), NoteTable.MaxFrequency(t));
    ClosestPeak(FftFindPeaks(basePitch, mags, PeakThreshold, sampleRate).value, likelyPitch)
  }
}
