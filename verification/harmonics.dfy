/** SoundEngine.computeFrequencyFromPeaks (inline at the end of processSample in the older
    engine): the peaks are sorted into harmonic slots of the first peak, each slot keeping
    the peak closest to an exact multiple, and the frequency is the least-squares slope of
    peak against harmonic number. */
module Harmonics {
  import opened Results

  /** max_harmonic: slots 0 to 14. */
  const MaxHarmonic: nat := 15

  /** The harmonic slot of a peak: peak / base rounded by (int) (multiple + .5). */
  function Mult(peak: real, base: real): int {
    Truncate(Quot(peak, base) + 0.5)
  }

  /** How far a peak lies from its slot's exact multiple. */
  function Off(peak: real, base: real): real {
    Abs(Quot(peak, base) - Mult(peak, base) as real)
  }

  /** The arrays harmonics and off_values. */
  datatype Slots = Slots(harmonics: seq<real>, offs: seq<real>)

  predicate Sized(s: Slots) {
    |s.harmonics| == MaxHarmonic && |s.offs| == MaxHarmonic
  }

  /** Both arrays as allocated: all zeros. */
  function EmptySlots(): (s: Slots)
    ensures Sized(s)
  {
    Slots(seq(MaxHarmonic, i => 0.0), seq(MaxHarmonic, i => 0.0))
  }

  /** One turn of the slotting loop: a slot beyond the last is passed over, a negative slot
      fails on the array access, an empty slot (0.0) takes the peak, and a filled slot
      takes it only when it is strictly closer to the multiple. */
  function Place(s: Slots, base: real, peak: real): (r: Result<Slots>)
    requires Sized(s)
    ensures r.Success? ==> Sized(r.value)
    ensures r.Failure? <==> Mult(peak, base) < 0
    ensures r.Failure? ==> r.error == IndexOutOfBounds
    ensures r.Success? && !(0 <= Mult(peak, base) < MaxHarmonic) ==> r.value == s
    ensures r.Success? ==> forall h :: 0 <= h < MaxHarmonic && h != Mult(peak, base) ==>
      r.value.harmonics[h] == s.harmonics[h] && r.value.offs[h] == s.offs[h]
  {
    var mult := Mult(peak, base);
    var off := Off(peak, base);
    if mult >= MaxHarmonic then Success(s)
    else if mult < 0 then Failure(IndexOutOfBounds)
    else if s.harmonics[mult] == 0.0 || s.offs[mult] > off then
      Success(Slots(s.harmonics[mult := peak], s.offs[mult := off]))
    else Success(s)
  }

  /** All but the last element, and the last element. */
  function Init(xs: seq<real>): (r: seq<real>)
    requires xs != []
    ensures |r| == |xs| - 1 && forall i :: 0 <= i < |r| ==> r[i] == xs[i]
  {
    xs[..|xs| - 1]
  }

  function Last(xs: seq<real>): real
    requires xs != []
  {
    xs[|xs| - 1]
  }

  /** The slotting loop over the peaks, in order. */
  function PlaceAll(base: real, peaks: seq<real>): (r: Result<Slots>)
    ensures r.Success? ==> Sized(r.value)
    ensures r.Failure? ==> r.error == IndexOutOfBounds
    decreases |peaks|
  {
    if peaks == [] then Success(EmptySlots())
    else
      var before := PlaceAll(base, Init(peaks));
      if before.Failure? then before else Place(before.value, base, Last(peaks))
  }

  /** The slotting loop fails exactly when some peak falls in a negative slot. */
  lemma {:induction false} PlaceAllFailure(base: real, peaks: seq<real>)
    ensures PlaceAll(base, peaks).Failure? <==> exists i :: 0 <= i < |peaks| && Mult(peaks[i], base) < 0
    decreases |peaks|
  {
    if peaks != [] {
      PlaceAllFailure(base, Init(peaks));
      if PlaceAll(base, Init(peaks)).Success? && Mult(Last(peaks), base) >= 0 {
        assert forall i :: 0 <= i < |peaks| - 1 ==> Mult(Init(peaks)[i], base) >= 0;
      }
    }
  }

  /** Peak i is the one slot h should hold: its slot is h, no peak of slot h is closer to
      the multiple, and every earlier peak of slot h is strictly farther. */
  predicate BestPeak(peaks: seq<real>, base: real, h: int, i: int) {
    0 <= i < |peaks| && Mult(peaks[i], base) == h &&
    (forall j :: 0 <= j < |peaks| && Mult(peaks[j], base) == h ==> Off(peaks[i], base) <= Off(peaks[j], base)) &&
    (forall j :: 0 <= j < i && Mult(peaks[j], base) == h ==> Off(peaks[j], base) > Off(peaks[i], base))
  }

  /** The index of the slot-h peak the slotting loop keeps, or -1 (BestSpec says which). */
  function Best(peaks: seq<real>, base: real, h: int): (i: int)
    ensures -1 <= i < |peaks|
    ensures i >= 0 ==> Mult(peaks[i], base) == h
    decreases |peaks|
  {
    if peaks == [] then -1
    else
      var b := Best(Init(peaks), base, h);
      if Mult(Last(peaks), base) == h && (b == -1 || Off(peaks[b], base) > Off(Last(peaks), base)) then |peaks| - 1
      else b
  }

  /** Best finds no index exactly when no peak falls in slot h, and otherwise the best
      peak of slot h. */
  lemma {:induction false} BestSpec(peaks: seq<real>, base: real, h: int)
    ensures Best(peaks, base, h) == -1 <==> forall j :: 0 <= j < |peaks| ==> Mult(peaks[j], base) != h
    ensures Best(peaks, base, h) >= 0 ==> BestPeak(peaks, base, h, Best(peaks, base, h))
    decreases |peaks|
  {
    if peaks != [] {
      BestSpec(Init(peaks), base, h);
    }
  }

  /** The best peak of a slot is unique. */
  lemma BestPeakUnique(peaks: seq<real>, base: real, h: int, i: int, k: int)
    requires BestPeak(peaks, base, h, i) && BestPeak(peaks, base, h, k)
    ensures i == k
  {
  }

  /** What the slotting loop leaves: with no zero peak, slot h holds its best peak and that
      peak's distance from the multiple, or 0.0 when no peak falls in it. */
  lemma {:induction false} PlaceAllSlots(base: real, peaks: seq<real>, h: nat)
    requires forall i :: 0 <= i < |peaks| ==> peaks[i] != 0.0
    requires PlaceAll(base, peaks).Success? && h < MaxHarmonic
    ensures var s := PlaceAll(base, peaks).value; var b := Best(peaks, base, h);
      s.harmonics[h] == (if b == -1 then 0.0 else peaks[b]) &&
      (b != -1 ==> s.offs[h] == Off(peaks[b], base))
    decreases |peaks|
  {
    if peaks != [] {
      assert PlaceAll(base, Init(peaks)).Success?;
      PlaceAllSlots(base, Init(peaks), h);
    }
  }

  // ---------------------------------------------------------------------------------
  // The least-squares fit over the filled slots
  // ---------------------------------------------------------------------------------

  predicate Filled(hs: seq<real>, i: int)
    requires 0 <= i < |hs|
  {
    hs[i] != 0.0
  }

  /** count, sum_x, sum_x2, sum_y and sum_xy over the filled slots below n. */
  function Count(hs: seq<real>, n: nat): int
    requires n <= |hs|
  {
    if n == 0 then 0 else Count(hs, n - 1) + (if Filled(hs, n - 1) then 1 else 0)
  }

  function SumX(hs: seq<real>, n: nat): real
    requires n <= |hs|
  {
    if n == 0 then 0.0 else SumX(hs, n - 1) + (if Filled(hs, n - 1) then (n - 1) as real else 0.0)
  }

  function SumX2(hs: seq<real>, n: nat): real
    requires n <= |hs|
  {
    if n == 0 then 0.0 else SumX2(hs, n - 1) + (if Filled(hs, n - 1) then (n - 1) as real * (n - 1) as real else 0.0)
  }

  function SumY(hs: seq<real>, n: nat): real
    requires n <= |hs|
  {
    if n == 0 then 0.0 else SumY(hs, n - 1) + (if Filled(hs, n - 1) then hs[n - 1] else 0.0)
  }

  function SumXY(hs: seq<real>, n: nat): real
    requires n <= |hs|
  {
    if n == 0 then 0.0 else SumXY(hs, n - 1) + (if Filled(hs, n - 1) then (n - 1) as real * hs[n - 1] else 0.0)
  }

  /** The fit's denominator, count * sum_x2 - sum_x * sum_x. */
  function Spread(hs: seq<real>, n: nat): real
    requires n <= |hs|
  {
    Count(hs, n) as real * SumX2(hs, n) - SumX(hs, n) * SumX(hs, n)
  }

  /** The single filled value when count is 1, else the least-squares slope. */
  function Fit(hs: seq<real>): real
    requires |hs| == MaxHarmonic
  {
    var n := |hs|;
    if Count(hs, n) == 1 then SumY(hs, n)
    else Quot(Count(hs, n) as real * SumXY(hs, n) - SumX(hs, n) * SumY(hs, n), Spread(hs, n))
  }

  /** The sum over the filled slots i below n of (x - i)^2, expanded. */
  function Scatter(hs: seq<real>, n: nat, x: real): real
    requires n <= |hs|
  {
    SumX2(hs, n) - 2.0 * x * SumX(hs, n) + Count(hs, n) as real * x * x
  }

  lemma ScatterGrow(sx: real, sx2: real, c: real, i: real, x: real, sxN: real, sx2N: real, cN: real)
    requires x - i >= 1.0
    requires sxN == sx + i && sx2N == sx2 + i * i && cN == c + 1.0
    requires sx2 - 2.0 * x * sx + c * x * x >= c
    ensures sx2N - 2.0 * x * sxN + cN * x * x >= cN
  {
    var d := x - i;
    assert d * d >= d * 1.0;
    assert sx2N - 2.0 * x * sxN + cN * x * x == (sx2 - 2.0 * x * sx + c * x * x) + d * d;
  }

  /** For x at or above n, every filled slot below n is at least 1 away from x. */
  lemma {:induction false} ScatterBound(hs: seq<real>, n: nat, x: real)
    requires n <= |hs| && n as real <= x
    ensures Scatter(hs, n, x) >= Count(hs, n) as real
  {
    if n > 0 {
      ScatterBound(hs, n - 1, x);
      if Filled(hs, n - 1) {
        ScatterFilledStep(hs, n, x);
      } else {
        ScatterEmptyStep(hs, n, x);
      }
    }
  }

  lemma ScatterFilledStep(hs: seq<real>, n: nat, x: real)
    requires 0 < n <= |hs| && n as real <= x && Filled(hs, n - 1)
    requires Scatter(hs, n - 1, x) >= Count(hs, n - 1) as real
    ensures Scatter(hs, n, x) >= Count(hs, n) as real
  {
    var sx, sx2, c := SumX(hs, n - 1), SumX2(hs, n - 1), Count(hs, n - 1) as real;
    var sxN, sx2N, cN := SumX(hs, n), SumX2(hs, n), Count(hs, n) as real;
    ScatterGrow(sx, sx2, c, (n - 1) as real, x, sxN, sx2N, cN);
  }

  lemma ScatterEmptyStep(hs: seq<real>, n: nat, x: real)
    requires 0 < n <= |hs| && !Filled(hs, n - 1)
    ensures Scatter(hs, n, x) == Scatter(hs, n - 1, x) && Count(hs, n) == Count(hs, n - 1)
  {
    assert SumX(hs, n) == SumX(hs, n - 1) && SumX2(hs, n) == SumX2(hs, n - 1);
  }

  lemma SpreadGrow(sx: real, sx2: real, c: real, x: real, sxN: real, sx2N: real, cN: real)
    requires sxN == sx + x && sx2N == sx2 + x * x && cN == c + 1.0
    requires sx2 - 2.0 * x * sx + c * x * x >= c
    ensures cN * sx2N - sxN * sxN >= (c * sx2 - sx * sx) + c
  {
    assert cN * sx2N - sxN * sxN == (c * sx2 - sx * sx) + (sx2 - 2.0 * x * sx + c * x * x);
  }

  /** Filling slot n - 1 adds at least the previous count to the denominator. */
  lemma SpreadFilledStep(hs: seq<real>, n: nat)
    requires 0 < n <= |hs| && Filled(hs, n - 1)
    ensures Spread(hs, n) >= Spread(hs, n - 1) + Count(hs, n - 1) as real
    ensures Count(hs, n) == Count(hs, n - 1) + 1
  {
    var sx, sx2, c := SumX(hs, n - 1), SumX2(hs, n - 1), Count(hs, n - 1) as real;
    var sxN, sx2N, cN := SumX(hs, n), SumX2(hs, n), Count(hs, n) as real;
    var x := (n - 1) as real;
    ScatterBound(hs, n - 1, x);
    SpreadGrow(sx, sx2, c, x, sxN, sx2N, cN);
  }

  /** The denominator is never negative and is at least 1 once two slots are filled, so the
      slope is always defined when count is not 1. */
  lemma {:induction false} SpreadPositive(hs: seq<real>, n: nat)
    requires n <= |hs|
    ensures Spread(hs, n) >= 0.0
    ensures Count(hs, n) >= 2 ==> Spread(hs, n) >= 1.0
  {
    if n > 0 {
      SpreadPositive(hs, n - 1);
      CountNonNegative(hs, n - 1);
      if Filled(hs, n - 1) {
        SpreadFilledStep(hs, n);
      } else {
        assert Spread(hs, n) == Spread(hs, n - 1);
      }
    }
  }

  lemma ProportionalGrow(sy: real, sxy: real, sx: real, sx2: real, y: real, x: real, c: real,
                         syN: real, sxyN: real, sxN: real, sx2N: real)
    requires sy == c * sx && sxy == c * sx2 && y == c * x
    requires syN == sy + y && sxyN == sxy + x * y && sxN == sx + x && sx2N == sx2 + x * x
    ensures syN == c * sxN && sxyN == c * sx2N
  {
  }

  /** Every filled slot i below n holds c * i. */
  predicate Proportional(hs: seq<real>, c: real, n: nat)
    requires n <= |hs|
  {
    n == 0 || (Proportional(hs, c, n - 1) && SlotProportional(hs, c, n - 1))
  }

  /** Slot h, when filled, holds c * h. */
  predicate SlotProportional(hs: seq<real>, c: real, h: nat)
    requires h < |hs|
  {
    Filled(hs, h) ==> hs[h] == c * h as real
  }

  /** Proportional holds when it holds slot by slot. */
  lemma {:induction false} ProportionalFromSlots(hs: seq<real>, c: real, n: nat)
    requires n <= |hs|
    requires forall h :: 0 <= h < n ==> SlotProportional(hs, c, h)
    ensures Proportional(hs, c, n)
  {
    if n > 0 {
      ProportionalFromSlots(hs, c, n - 1);
    }
  }

  /** Values proportional to their slot numbers make the sums proportional too. */
  lemma {:induction false} ProportionalSums(hs: seq<real>, n: nat, c: real)
    requires n <= |hs| && Proportional(hs, c, n)
    ensures SumY(hs, n) == c * SumX(hs, n)
    ensures SumXY(hs, n) == c * SumX2(hs, n)
  {
    if n > 0 {
      ProportionalSums(hs, n - 1, c);
      ProportionalStep(hs, n, c);
    }
  }

  lemma ProportionalStep(hs: seq<real>, n: nat, c: real)
    requires 0 < n <= |hs|
    requires Filled(hs, n - 1) ==> hs[n - 1] == c * (n - 1) as real
    requires SumY(hs, n - 1) == c * SumX(hs, n - 1) && SumXY(hs, n - 1) == c * SumX2(hs, n - 1)
    ensures SumY(hs, n) == c * SumX(hs, n) && SumXY(hs, n) == c * SumX2(hs, n)
  {
    if Filled(hs, n - 1) {
      ProportionalFilledStep(hs, n, c);
    } else {
      assert SumY(hs, n) == SumY(hs, n - 1) && SumXY(hs, n) == SumXY(hs, n - 1);
      assert SumX(hs, n) == SumX(hs, n - 1) && SumX2(hs, n) == SumX2(hs, n - 1);
    }
  }

  lemma ProportionalFilledStep(hs: seq<real>, n: nat, c: real)
    requires 0 < n <= |hs| && Filled(hs, n - 1) && hs[n - 1] == c * (n - 1) as real
    requires SumY(hs, n - 1) == c * SumX(hs, n - 1) && SumXY(hs, n - 1) == c * SumX2(hs, n - 1)
    ensures SumY(hs, n) == c * SumX(hs, n) && SumXY(hs, n) == c * SumX2(hs, n)
  {
    var sy, sxy, sx, sx2 := SumY(hs, n - 1), SumXY(hs, n - 1), SumX(hs, n - 1), SumX2(hs, n - 1);
    var syN, sxyN, sxN, sx2N := SumY(hs, n), SumXY(hs, n), SumX(hs, n), SumX2(hs, n);
    ProportionalGrow(sy, sxy, sx, sx2, hs[n - 1], (n - 1) as real, c, syN, sxyN, sxN, sx2N);
  }

  lemma {:induction false} CountNonNegative(hs: seq<real>, n: nat)
    requires n <= |hs|
    ensures Count(hs, n) >= 0
  {
    if n > 0 {
      CountNonNegative(hs, n - 1);
    }
  }

  /** With no filled slot the sum of slot numbers is 0. */
  lemma {:induction false} EmptySumX(hs: seq<real>, n: nat)
    requires n <= |hs| && Count(hs, n) == 0
    ensures SumX(hs, n) == 0.0
  {
    if n > 0 {
      CountNonNegative(hs, n - 1);
      EmptySumX(hs, n - 1);
    }
  }

  /** A filled slot below n is counted. */
  lemma {:induction false} FilledCounted(hs: seq<real>, n: nat, h: nat)
    requires h < n <= |hs| && Filled(hs, h)
    ensures Count(hs, n) >= 1
  {
    CountNonNegative(hs, n - 1);
    if h < n - 1 {
      FilledCounted(hs, n - 1, h);
    }
  }

  /** When slot h is the only filled one, the sum of slot numbers is h. */
  lemma {:induction false} SingleSlotSum(hs: seq<real>, n: nat, h: nat)
    requires h < n <= |hs| && Filled(hs, h) && Count(hs, n) == 1
    ensures SumX(hs, n) == h as real
  {
    if h == n - 1 {
      CountNonNegative(hs, n - 1);
      EmptySumX(hs, n - 1);
    } else {
      FilledCounted(hs, n - 1, h);
      SingleSlotSum(hs, n - 1, h);
    }
  }

  lemma CancelFactor(q: real, c: real, d: real)
    requires d != 0.0 && q * d == c * d
    ensures q == c
  {
    assert (q - c) * d == 0.0;
  }

  /** When every filled slot h holds c * h and slot 1 is filled, the fit returns c: exactly
      for one filled slot, and as the slope of the line through the origin otherwise. */
  lemma ProportionalFit(hs: seq<real>, c: real)
    requires |hs| == MaxHarmonic && Filled(hs, 1) && Proportional(hs, c, |hs|)
    ensures Fit(hs) == c
  {
    var n := |hs|;
    ProportionalSums(hs, n, c);
    if Count(hs, n) == 1 {
      SingleSlotSum(hs, n, 1);
    } else {
      FilledCounted(hs, n, 1);
      SpreadPositive(hs, n);
      var k, sx, sx2 := Count(hs, n) as real, SumX(hs, n), SumX2(hs, n);
      var d := Spread(hs, n);
      assert k * (c * sx2) - sx * (c * sx) == c * d;
      var q := Quot(c * d, d);
      CancelFactor(q, c, d);
    }
  }

  // ---------------------------------------------------------------------------------
  // computeFrequencyFromPeaks
  // ---------------------------------------------------------------------------------

  /** The peaks the fit works from: the first is dropped as a spurious low peak when the
      second is more than four times it. */
  function Candidates(peaks: seq<real>): (ps: seq<real>)
    requires peaks != []
    ensures ps != []
    ensures ps == peaks || ps == peaks[1..]
    ensures ps == peaks[1..] <==> |peaks| > 1 && Quot(peaks[1], peaks[0]) > 4.0
  {
    if |peaks| > 1 && Quot(peaks[1], peaks[0]) > 4.0 then peaks[1..] else peaks
  }

  /** computeFrequencyFromPeaks: 0.0 without peaks, else the fit over the slots of the
      candidates relative to the first of them. */
  function FrequencyFromPeaks(peaks: seq<real>): (r: Result<real>)
    ensures peaks == [] ==> r == Success(0.0)
    ensures r.Failure? ==> r.error == IndexOutOfBounds
  {
    if peaks == [] then Success(0.0)
    else
      var ps := Candidates(peaks);
      match PlaceAll(ps[0], ps)
      case Failure(e) => Failure(e)
      case Success(s) => Success(Fit(s.harmonics))
  }

  /** computeFrequencyFromPeaks fails exactly when a candidate falls in a negative slot of
      the first, which takes a non-positive candidate. */
  lemma FrequencyFromPeaksFailure(peaks: seq<real>)
    requires peaks != []
    ensures FrequencyFromPeaks(peaks).Failure? <==>
      exists i :: 0 <= i < |Candidates(peaks)| && Mult(Candidates(peaks)[i], Candidates(peaks)[0]) < 0
  {
    var ps := Candidates(peaks);
    PlaceAllFailure(ps[0], ps);
  }

  /** A positive peak never lands in a negative slot; the first peak itself is in slot 1
      at distance 0. */
  lemma PositiveSlot(peak: real, base: real)
    requires peak > 0.0 && base > 0.0
    ensures Mult(peak, base) >= 0 && Off(peak, base) >= 0.0
    ensures peak == base ==> Mult(peak, base) == 1 && Off(peak, base) == 0.0
  {
    QuotNonNegative(peak, base);
    if peak == base {
      assert Quot(base, base) == 1.0;
    }
  }

  /** With positive peaks the slotting relative to the first never fails, every slot
      holds its best peak (or 0.0), and slot 1 holds the first peak itself. */
  lemma PositiveSlots(ps: seq<real>, h: nat)
    requires ps != [] && h < MaxHarmonic
    requires forall i :: 0 <= i < |ps| ==> ps[i] > 0.0
    ensures var s := PlaceAll(ps[0], ps);
      s.Success? &&
      s.value.harmonics[1] == ps[0] &&
      s.value.harmonics[h] == (if Best(ps, ps[0], h) == -1 then 0.0 else ps[Best(ps, ps[0], h)])
  {
    var base := ps[0];
    forall i | 0 <= i < |ps|
      ensures Mult(ps[i], base) >= 0 && ps[i] != 0.0
    {
      PositiveSlot(ps[i], base);
    }
    PlaceAllFailure(base, ps);
    PlaceAllSlots(base, ps, h);
    PlaceAllSlots(base, ps, 1);
    PositiveSlot(base, base);
    forall j | 0 <= j < |ps| && Mult(ps[j], base) == 1
      ensures Off(base, base) <= Off(ps[j], base)
    {
      PositiveSlot(ps[j], base);
    }
    assert BestPeak(ps, base, 1, 0);
    BestSpec(ps, base, 1);
    BestPeakUnique(ps, base, 1, 0, Best(ps, base, 1));
  }

  /** With positive candidates computeFrequencyFromPeaks succeeds with the fit over the
      slots of the candidates, slot h holding the best peak of slot h (or 0.0) and slot 1
      the first candidate. */
  lemma FrequencyFromPeaksSlots(peaks: seq<real>, h: nat)
    requires peaks != [] && h < MaxHarmonic
    requires forall i :: 0 <= i < |Candidates(peaks)| ==> Candidates(peaks)[i] > 0.0
    ensures var ps := Candidates(peaks); var s := PlaceAll(ps[0], ps);
      FrequencyFromPeaks(peaks).Success? && s.Success? &&
      FrequencyFromPeaks(peaks).value == Fit(s.value.harmonics) &&
      s.value.harmonics[1] == ps[0] &&
      s.value.harmonics[h] == (if Best(ps, ps[0], h) == -1 then 0.0 else ps[Best(ps, ps[0], h)])
  {
    PositiveSlots(Candidates(peaks), h);
  }

  /** A peak that is a whole multiple k of a positive base lands in slot k exactly. */
  lemma HarmonicSlot(p: real, base: real, k: int)
    requires base > 0.0 && k >= 1 && p == base * k as real
    ensures Mult(p, base) == k && Off(p, base) == 0.0
  {
    var q := Quot(p, base);
    assert q * base == k as real * base;
    CancelFactor(q, k as real, base);
  }

  /** The peaks form a clean harmonic series: the first is positive and peak i is the
      first times the whole number ks[i], at least 1. */
  predicate Multiples(ps: seq<real>, ks: seq<int>) {
    ps != [] && |ks| == |ps| && ps[0] > 0.0 && MultiplesBelow(ps, ks, |ps|)
  }

  /** Peaks 0 to n - 1 are the first times their whole numbers, at least 1. */
  predicate MultiplesBelow(ps: seq<real>, ks: seq<int>, n: nat)
    requires ps != [] && n <= |ps| == |ks|
  {
    n == 0 || (MultiplesBelow(ps, ks, n - 1) && ks[n - 1] >= 1 && ps[n - 1] == ps[0] * ks[n - 1] as real)
  }

  /** Multiples says, peak by peak, that peak i is the first times ks[i], at least 1. */
  lemma {:induction false} MultiplesBelowAll(ps: seq<real>, ks: seq<int>, n: nat)
    requires ps != [] && n <= |ps| == |ks|
    ensures MultiplesBelow(ps, ks, n) <==>
      forall i :: 0 <= i < n ==> ks[i] >= 1 && ps[i] == ps[0] * ks[i] as real
  {
    if n > 0 {
      MultiplesBelowAll(ps, ks, n - 1);
    }
  }

  /** One peak of a clean series. */
  lemma MultipleAt(ps: seq<real>, ks: seq<int>, i: int)
    requires Multiples(ps, ks) && 0 <= i < |ps|
    ensures ks[i] >= 1 && ps[i] == ps[0] * ks[i] as real
  {
    MultiplesBelowAll(ps, ks, |ps|);
  }

  /** A clean harmonic series yields its fundamental: when every candidate is a whole
      multiple of the first, the computed frequency is the first candidate. */
  lemma CleanSeriesGivesFundamental(peaks: seq<real>, ks: seq<int>)
    requires peaks != [] && Multiples(Candidates(peaks), ks)
    ensures FrequencyFromPeaks(peaks) == Success(Candidates(peaks)[0])
  {
    CleanFit(Candidates(peaks), ks);
  }

  /** The fit over the slots of a clean series is its first peak. */
  lemma CleanFit(ps: seq<real>, ks: seq<int>)
    requires Multiples(ps, ks)
    ensures PlaceAll(ps[0], ps).Success? && Fit(PlaceAll(ps[0], ps).value.harmonics) == ps[0]
  {
    var hs := CleanSlots(ps, ks);
    ProportionalFit(hs, ps[0]);
  }

  /** On a clean series slot 1 holds the first peak and the slots are proportional to
      their numbers. */
  lemma CleanSlots(ps: seq<real>, ks: seq<int>) returns (hs: seq<real>)
    requires Multiples(ps, ks)
    ensures PlaceAll(ps[0], ps).Success? && hs == PlaceAll(ps[0], ps).value.harmonics
    ensures |hs| == MaxHarmonic && Filled(hs, 1) && Proportional(hs, ps[0], |hs|)
  {
    hs := CleanSlotsAll(ps, ks);
    ProportionalFromSlots(hs, ps[0], |hs|);
  }

  /** On a clean series slot 1 holds the first peak and every filled slot h the first peak
      times h. */
  lemma CleanSlotsAll(ps: seq<real>, ks: seq<int>) returns (hs: seq<real>)
    requires Multiples(ps, ks)
    ensures PlaceAll(ps[0], ps).Success? && hs == PlaceAll(ps[0], ps).value.harmonics
    ensures |hs| == MaxHarmonic && Filled(hs, 1)
    ensures forall h :: 0 <= h < MaxHarmonic ==> SlotProportional(hs, ps[0], h)
  {
    CleanSlot(ps, ks, 1);
    hs := PlaceAll(ps[0], ps).value.harmonics;
    forall h: nat | h < MaxHarmonic
      ensures SlotProportional(hs, ps[0], h)
    {
      CleanSlot(ps, ks, h);
    }
  }

  /** On a clean series a filled slot h holds the first peak times h. */
  lemma CleanSlot(ps: seq<real>, ks: seq<int>, h: nat)
    requires Multiples(ps, ks) && h < MaxHarmonic
    ensures PlaceAll(ps[0], ps).Success? && PlaceAll(ps[0], ps).value.harmonics[1] == ps[0]
    ensures SlotProportional(PlaceAll(ps[0], ps).value.harmonics, ps[0], h)
  {
    CleanPositive(ps, ks);
    var b := SlotPeak(ps, h);
    if b != -1 {
      MultipleInSlot(ps, ks, b, h);
    }
  }

  /** The peak slot h holds on positive peaks: none (-1, the slot is 0.0) or one whose slot
      is h. */
  lemma SlotPeak(ps: seq<real>, h: nat) returns (b: int)
    requires ps != [] && h < MaxHarmonic
    requires forall i :: 0 <= i < |ps| ==> ps[i] > 0.0
    ensures PlaceAll(ps[0], ps).Success? && PlaceAll(ps[0], ps).value.harmonics[1] == ps[0]
    ensures b == -1 ==> PlaceAll(ps[0], ps).value.harmonics[h] == 0.0
    ensures b != -1 ==> 0 <= b < |ps| && Mult(ps[b], ps[0]) == h
    ensures b != -1 ==> PlaceAll(ps[0], ps).value.harmonics[h] == ps[b]
  {
    PositiveSlots(ps, h);
    b := Best(ps, ps[0], h);
  }

  /** A peak of a clean series in slot h is the first peak times h. */
  lemma MultipleInSlot(ps: seq<real>, ks: seq<int>, b: int, h: int)
    requires Multiples(ps, ks) && 0 <= b < |ps| && Mult(ps[b], ps[0]) == h
    ensures ps[b] == ps[0] * h as real
  {
    MultipleAt(ps, ks, b);
    HarmonicSlot(ps[b], ps[0], ks[b]);
  }

  lemma CleanPositive(ps: seq<real>, ks: seq<int>)
    requires Multiples(ps, ks)
    ensures forall i :: 0 <= i < |ps| ==> ps[i] > 0.0
  {
    forall i | 0 <= i < |ps|
      ensures ps[i] > 0.0
    {
      MultipleAt(ps, ks, i);
      PositiveProduct(ps[0], ks[i] as real);
    }
  }

  lemma PositiveProduct(a: real, b: real)
    requires a > 0.0 && b >= 1.0
    ensures a * b > 0.0
  {
  }
}
