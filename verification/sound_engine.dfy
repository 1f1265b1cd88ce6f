/** SoundEngine (the newer engine): it samples the microphone into a byte buffer, decodes the
    bytes into integer samples (copyBufferToData), and for every full buffer estimates the
    pitch (analyzePitch: transform, peak scan, harmonic fit) and looks for note onsets in a
    sliding mean of the log-compressed signal (findNoteOnsets). The state is a value; each
    operation returns the state it leaves. The microphone's read, the console output and
    the foreign numerics are outside the model. */
module SoundEngine {
  import opened Results
  import opened Bytes
  import Spectrum
  import Harmonics
  import NoteTable
  import Microphone

  /** The engine's fields that the modelled operations read or write. The data size is
      |data|; prevData, averages and prevAverages have that length too. */
  datatype State = State(
    sampleRate: int,
    bufferSize: int,
    bitRate: int,
    minMagnitude: int,
    basePitch: real,
    data: seq<int>,
    prevData: seq<int>,
    averages: seq<real>,
    prevAverages: seq<real>,
    currentFrequency: real,
    currentMags: seq<real>,
    timeStep: int)

  predicate Valid(e: State) {
    |e.prevData| == |e.data| && |e.averages| == |e.data| && |e.prevAverages| == |e.data|
  }

  /** The A4 the constructor installs. */
  const DefaultPitch: real := 440.0

  // ---------------------------------------------------------------------------------
  // Construction
  // ---------------------------------------------------------------------------------

  /** Java's int `/` for a divisor of either sign (truncation toward zero). */
  function IntDiv(a: int, b: int): (q: int)
    requires b != 0
    ensures a >= 0 && b > 0 ==> q * b <= a < q * b + b
    ensures a < 0 && b > 0 ==> q * b - b < a <= q * b
    ensures a >= 0 && b < 0 ==> q * b <= a < q * b - b
    ensures a < 0 && b < 0 ==> q * b + b < a <= q * b
  {
    if b > 0 then JavaDiv(a, b) else -JavaDiv(a, -b)
  }

  /** The constructor: the data size is bufferSize / bytesPerFrame; a zero divisor throws,
      and so does a negative buffer or data size on its array allocation. Every array
      starts zeroed, the table at A4 = 440 and the time step at 0. */
  function New(sampleRate: int, bufferSize: int, bitRate: int, bytesPerFrame: int, minMagnitude: int)
    : (r: Result<State>)
    ensures r.Failure? <==> bytesPerFrame == 0 || bufferSize < 0 || IntDiv(bufferSize, bytesPerFrame) < 0
    ensures r.Failure? ==> r.error == (if bytesPerFrame == 0 then DivisionByZero else NegativeArraySize)
    ensures r.Success? ==> Valid(r.value) && r.value.timeStep == 0 && r.value.basePitch == DefaultPitch
    ensures r.Success? && bytesPerFrame > 0 ==>
      |r.value.data| * bytesPerFrame <= bufferSize < (|r.value.data| + 1) * bytesPerFrame
    ensures r.Success? ==> forall i :: 0 <= i < |r.value.data| ==>
      r.value.data[i] == 0 && r.value.prevData[i] == 0 && r.value.averages[i] == 0.0 && r.value.prevAverages[i] == 0.0
    ensures r.Success? ==> r.value.currentFrequency == 0.0 && |r.value.currentMags| == |r.value.data| / 2
  {
    if bytesPerFrame == 0 then Failure(DivisionByZero)
    else
      var n := IntDiv(bufferSize, bytesPerFrame);
      if bufferSize < 0 || n < 0 then Failure(NegativeArraySize)
      else
        Success(State(sampleRate, bufferSize, bitRate, minMagnitude, DefaultPitch,
          seq(n, i => 0), seq(n, i => 0), seq(n, i => 0.0), seq(n, i => 0.0),
          0.0, seq(n / 2, i => 0.0), 0))
  }

  /** setBasePitch: the note table is rebuilt for the new A4, whose lowest note is A0 at a
      sixteenth of it. */
  function SetBasePitch(e: State, freq: int): (r: State)
    ensures r == e.(basePitch := freq as real)
    ensures freq > 0 ==> NoteTable.MinFrequency(NoteTable.Build(r.basePitch)) == freq as real / 16.0
  {
    e.(basePitch := freq as real)
  }

  /** getCurrentClosestNote: the name of a table note nearest the current frequency, None
      (null) outside the table. It uses the corrected search, which also returns on a
      frequency exactly between two notes and otherwise agrees with the source's. */
  function CurrentClosestNote(e: State): (r: Option<string>)
    requires e.basePitch > 0.0
    ensures var f := NoteTable.Build(e.basePitch).freqs;
      r.None? <==> e.currentFrequency < f[0] || e.currentFrequency > f[|f| - 1]
    ensures r.Some? ==> exists k :: (NoteTable.Nearest(NoteTable.Build(e.basePitch).freqs, e.currentFrequency, k) &&
      r.value == NoteTable.Build(e.basePitch).names[k])
  {
    NoteTable.BuildIncreasing(e.basePitch);
    NoteTable.ClosestNote(NoteTable.Build(e.basePitch), e.currentFrequency)
  }

  // ---------------------------------------------------------------------------------
  // copyBufferToData
  // ---------------------------------------------------------------------------------

  /** The samples of a 16-bit buffer: sample i is the big-endian short of bytes 2i, 2i+1. */
  function Shorts(buffer: seq<JByte>, n: nat): (xs: seq<int>)
    requires 2 * n <= |buffer|
    ensures |xs| == n
  {
    seq(n, i requires 0 <= i < n => BigEndianShort(buffer[2 * i], buffer[2 * i + 1]) as int)
  }

  /** What copyBufferToData leaves in data. At 8 bits every byte of the buffer is copied
      and the data array must hold the whole buffer; the rest of data keeps its old
      samples. At 16 bits data is refilled with shorts, and the buffer must hold two bytes
      per sample. Any other bit rate throws as soon as there is a sample to fill. */
  function Decoded(bitRate: int, buffer: seq<JByte>, data: seq<int>): (r: Result<seq<int>>)
    ensures r.Success? ==> |r.value| == |data|
    ensures bitRate == 8 ==> (r.Failure? <==> |buffer| > |data|)
    ensures bitRate == 8 && r.Success? ==>
      (forall i :: 0 <= i < |buffer| ==> r.value[i] == buffer[i] as int) &&
      (forall i :: |buffer| <= i < |data| ==> r.value[i] == data[i])
    ensures bitRate == 16 ==> (r.Failure? <==> 2 * |data| > |buffer|)
    ensures bitRate == 16 && r.Success? ==> forall i :: 0 <= i < |data| ==>
      r.value[i] == BigEndianShort(buffer[2 * i], buffer[2 * i + 1]) as int
    ensures bitRate != 8 && bitRate != 16 ==> (r.Failure? <==> |data| > 0)
    ensures bitRate != 8 && bitRate != 16 && r.Success? ==> r.value == data
    ensures r.Failure? ==>
      r.error == (if bitRate == 8 then IndexOutOfBounds else if bitRate == 16 then BufferUnderflow else UnsupportedBitRate)
  {
    if bitRate == 8 then
      if |buffer| > |data| then Failure(IndexOutOfBounds)
      else Success(seq(|data|, i requires 0 <= i < |data| => if i < |buffer| then buffer[i] as int else data[i]))
    else if bitRate == 16 then
      if 2 * |data| > |buffer| then Failure(BufferUnderflow) else Success(Shorts(buffer, |data|))
    else if |data| > 0 then Failure(UnsupportedBitRate)
    else Success(data)
  }

  /** copyBufferToData, loop by loop: the data array after the copy, or the exception. */
  method CopyBufferToData(bitRate: int, buffer: seq<JByte>, data: seq<int>) returns (r: Result<seq<int>>)
    ensures r == Decoded(bitRate, buffer, data)
  {
    var out := data;
    if bitRate == 8 {
      var i := 0;
      while i < |buffer|
        invariant 0 <= i <= |buffer| && i <= |data|
        invariant |out| == |data|
        invariant forall k :: 0 <= k < i ==> out[k] == buffer[k] as int
        invariant forall k :: i <= k < |data| ==> out[k] == data[k]
      {
        if i >= |out| {
          return Failure(IndexOutOfBounds);
        }
        out := out[i := buffer[i] as int];
        i := i + 1;
      }
      assert out == Decoded(bitRate, buffer, data).value;
      return Success(out);
    }
    var position := 0;
    var i := 0;
    while i < |data|
      invariant 0 <= i <= |data| && position == 2 * i && position <= |buffer|
      invariant bitRate != 16 ==> i == 0
      invariant |out| == |data|
      invariant forall k :: 0 <= k < i ==> out[k] == BigEndianShort(buffer[2 * k], buffer[2 * k + 1]) as int
      invariant forall k :: i <= k < |data| ==> out[k] == data[k]
    {
      if bitRate != 16 {
        return Failure(UnsupportedBitRate);
      }
      if position + 2 > |buffer| {
        return Failure(BufferUnderflow);
      }
      out := out[i := BigEndianShort(buffer[position], buffer[position + 1]) as int];
      position := position + 2;
      i := i + 1;
    }
    assert out == Decoded(bitRate, buffer, data).value;
    return Success(out);
  }

  /** The buffer a list of shorts is written as, big-endian. */
  function ShortBytes(xs: seq<JShort>): (buffer: seq<JByte>)
    ensures |buffer| == 2 * |xs|
  {
    seq(2 * |xs|, k requires 0 <= k < 2 * |xs| => if k % 2 == 0 then HighByte(xs[k / 2]) else LowByte(xs[k / 2]))
  }

  /** A 16-bit buffer decodes to the shorts it was written from. */
  lemma DecodeShortBytes(xs: seq<JShort>, data: seq<int>)
    requires |data| == |xs|
    ensures Decoded(16, ShortBytes(xs), data) == Success(xs)
  {
    var buffer := ShortBytes(xs);
    forall i | 0 <= i < |xs|
      ensures BigEndianShort(buffer[2 * i], buffer[2 * i + 1]) == xs[i]
    {
      assert buffer[2 * i] == HighByte(xs[i]);
      assert buffer[2 * i + 1] == LowByte(xs[i]);
      BytesOfShort(xs[i]);
    }
    var r := Decoded(16, buffer, data);
    assert r.value == xs;
  }

  /** Conversely, a buffer of two bytes per sample is the writing of what it decodes to:
      16-bit decoding loses nothing. */
  lemma ShortBytesOfDecoded(buffer: seq<JByte>, data: seq<int>)
    requires |buffer| == 2 * |data|
    ensures Decoded(16, buffer, data).Success?
    ensures forall i :: 0 <= i < |data| ==> -32768 <= Decoded(16, buffer, data).value[i] < 32768
    ensures ShortBytes(seq(|data|, i requires 0 <= i < |data| => BigEndianShort(buffer[2 * i], buffer[2 * i + 1]))) == buffer
  {
    var xs := seq(|data|, i requires 0 <= i < |data| => BigEndianShort(buffer[2 * i], buffer[2 * i + 1]));
    var back := ShortBytes(xs);
    forall k | 0 <= k < |buffer|
      ensures back[k] == buffer[k]
    {
      var i := k / 2;
      ShortOfBytes(buffer[2 * i], buffer[2 * i + 1]);
    }
  }

  /** An 8-bit file read through the file microphone: each sample lands in data as the
      unsigned byte of the file minus 128. */
  lemma EightBitSamplesCentred(us: seq<int>, buffer: seq<JByte>, data: seq<int>)
    requires |buffer| == |us| <= |data|
    requires forall i :: 0 <= i < |us| ==> 0 <= us[i] < 256 && buffer[i] == Microphone.Shift(Wrap8(us[i]))
    ensures Decoded(8, buffer, data).Success?
    ensures forall i :: 0 <= i < |us| ==> Decoded(8, buffer, data).value[i] == us[i] - 128
  {
    forall i | 0 <= i < |us|
      ensures buffer[i] as int == us[i] - 128
    {
      Microphone.ShiftCentresUnsigned(us[i]);
    }
  }

  // ---------------------------------------------------------------------------------
  // analyzePitch
  // ---------------------------------------------------------------------------------

  /** The magnitudes findFreqMagsAndPeaks reads: the first dataSize / 2 bins of the
      transform of the rectified, log-compressed samples. */
  function Mags(num: Spectrum.Numerics, data: seq<int>): (mags: seq<real>)
    ensures |mags| == |data| / 2
  {
    Spectrum.Magnitudes(num, Spectrum.RectifiedInput(num, data), |data| / 2)
  }

  /** currentMags: frequency and magnitude of each bin, interleaved. */
  function Interleave(bs: seq<Spectrum.Bin>): (r: seq<real>)
    ensures |r| == 2 * |bs|
    ensures forall i :: 0 <= i < |bs| ==> r[2 * i] == bs[i].freq as real && r[2 * i + 1] == bs[i].mag
  {
    seq(2 * |bs|, k requires 0 <= k < 2 * |bs| => if k % 2 == 0 then bs[k / 2].freq as real else bs[k / 2].mag)
  }

  /** The currentMags analyzePitch leaves: for each of the dataSize / 2 bins, its frequency
      sampleRate * i / dataSize (int division) and its magnitude. */
  function CurrentMags(num: Spectrum.Numerics, e: State): (r: seq<real>)
    ensures |r| == 2 * (|e.data| / 2)
    ensures forall i :: 0 <= i < |e.data| / 2 ==>
      r[2 * i] == JavaDiv(e.sampleRate * i, |e.data|) as real && r[2 * i + 1] == Mags(num, e.data)[i]
  {
    Interleave(Spectrum.Bins(Mags(num, e.data), e.sampleRate, |e.data|))
  }

  /** The peaks of findFreqMagsAndPeaks: bins of sampleRate / dataSize Hz, the band of the
      note table in force, and the microphone's minimum magnitude as threshold. */
  function EnginePeaks(num: Spectrum.Numerics, e: State): Result<seq<real>> {
    var t := NoteTable.Build(e.basePitch);
    Spectrum.FindPeaks(Mags(num, e.data), e.minMagnitude as real, e.sampleRate, |e.data|,
      NoteTable.MinFrequency(t), NoteTable.MaxFrequency(t))
  }

  /** analyzePitch: the new currentFrequency, from the harmonic fit over the peaks, and
      currentMags. It throws only where the peak scan or the harmonic slotting does. */
  function AnalyzePitch(num: Spectrum.Numerics, e: State): (r: Result<(real, seq<real>)>)
    ensures r.Failure? <==>
      EnginePeaks(num, e).Failure? || Harmonics.FrequencyFromPeaks(EnginePeaks(num, e).value).Failure?
    ensures r.Success? ==>
      r.value == (Harmonics.FrequencyFromPeaks(EnginePeaks(num, e).value).value, CurrentMags(num, e))
  {
    match EnginePeaks(num, e)
    case Failure(err) => Failure(err)
    case Success(peaks) =>
      match Harmonics.FrequencyFromPeaks(peaks)
      case Failure(err) => Failure(err)
      case Success(f) => Success((f, CurrentMags(num, e)))
  }

  /** With a positive sample rate, a positive base pitch and a minimum magnitude of at least
      -1, analyzePitch never throws: every peak is a positive frequency, so none falls in a
      negative harmonic slot. Without peaks the frequency is 0.0; otherwise it is the fit
      over the harmonic slots of the candidate peaks. */
  lemma AnalyzePitchSucceeds(num: Spectrum.Numerics, e: State)
    requires e.sampleRate > 0 && e.basePitch > 0.0 && e.minMagnitude >= -1
    ensures EnginePeaks(num, e).Success?
    ensures forall i :: 0 <= i < |EnginePeaks(num, e).value| ==> EnginePeaks(num, e).value[i] > 0.0
    ensures AnalyzePitch(num, e).Success?
    ensures EnginePeaks(num, e).value == [] ==> AnalyzePitch(num, e).value.0 == 0.0
    ensures EnginePeaks(num, e).value != [] ==>
      var ps := Harmonics.Candidates(EnginePeaks(num, e).value);
      Harmonics.PlaceAll(ps[0], ps).Success? &&
      AnalyzePitch(num, e).value.0 == Harmonics.Fit(Harmonics.PlaceAll(ps[0], ps).value.harmonics)
  {
    var t := NoteTable.Build(e.basePitch);
    var mags := Mags(num, e.data);
    var lo, hi := NoteTable.MinFrequency(t), NoteTable.MaxFrequency(t);
    assert lo == e.basePitch / 16.0;
    if |e.data| == 0 {
      assert mags == [];
      assert Spectrum.Bins(mags, e.sampleRate, 0) == [];
      assert Spectrum.BandBins([], lo, hi) == [];
    } else {
      Spectrum.FindPeaksPositive(mags, e.minMagnitude as real, e.sampleRate, |e.data|, lo, hi);
    }
    var peaks := EnginePeaks(num, e).value;
    if peaks != [] {
      var ps := Harmonics.Candidates(peaks);
      assert forall i :: 0 <= i < |ps| ==> ps[i] > 0.0 by {
        if ps != peaks {
          assert forall i :: 0 <= i < |ps| ==> ps[i] == peaks[i + 1];
        }
      }
      Harmonics.FrequencyFromPeaksSlots(peaks, 1);
    }
  }

  // ---------------------------------------------------------------------------------
  // findNoteOnsets
  // ---------------------------------------------------------------------------------

  /** windowSize: the sliding mean covers 200 samples. */
  const WindowSize: int := 200

  /** compareTo: the derivative compares with the mean 1500 samples earlier. */
  const CompareTo: int := 1500

  /** The derivative a note begin must exceed, and a note end must fall below. */
  const OnsetThreshold: real := 1.5

  /** adjustSignal: 0 stays 0, anything else becomes the logarithm of its magnitude. */
  function Adjust(num: Spectrum.Numerics, s: int): real {
    if s == 0 then 0.0 else num.log(Abs(s as real))
  }

  /** Sample k of the previous buffer followed by the current one. */
  function Joined(prevData: seq<int>, data: seq<int>, k: int): int
    requires 0 <= k < |prevData| + |data|
  {
    if k < |prevData| then prevData[k] else data[k - |prevData|]
  }

  /** The sum of the adjusted samples [lo, hi) of the previous buffer followed by the
      current one. */
  function WindowSum(num: Spectrum.Numerics, prevData: seq<int>, data: seq<int>, lo: int, hi: int): real
    requires 0 <= lo <= hi <= |prevData| + |data|
    decreases hi - lo
  {
    if lo == hi then 0.0 else WindowSum(num, prevData, data, lo, hi - 1) + Adjust(num, Joined(prevData, data, hi - 1))
  }

  /** Moving the window one sample on adds the new sample and drops the oldest. */
  lemma {:induction false} SlideWindow(num: Spectrum.Numerics, prevData: seq<int>, data: seq<int>, lo: int, hi: int)
    requires 0 <= lo <= hi < |prevData| + |data|
    ensures WindowSum(num, prevData, data, lo + 1, hi + 1) ==
      WindowSum(num, prevData, data, lo, hi) + Adjust(num, Joined(prevData, data, hi)) - Adjust(num, Joined(prevData, data, lo))
    decreases hi - lo
  {
    if lo < hi {
      SlideWindow(num, prevData, data, lo, hi - 1);
    }
  }

  /** The mean of the adjusted signal over the 200 samples ending at sample i of the
      current buffer, reaching back into the previous buffer. */
  function WindowMean(num: Spectrum.Numerics, prevData: seq<int>, data: seq<int>, i: int): real
    requires |prevData| == |data| >= WindowSize && 0 <= i < |data|
  {
    WindowEnding(num, prevData, data, |data| + i + 1) / WindowSize as real
  }

  /** The sum over the 200 samples before position e of the two buffers. */
  function WindowEnding(num: Spectrum.Numerics, prevData: seq<int>, data: seq<int>, e: int): real
    requires WindowSize <= e <= |prevData| + |data|
  {
    WindowSum(num, prevData, data, e - WindowSize, e)
  }

  /** k is where the derivative first reaches its maximum above 1.5, or -1 when it never
      exceeds 1.5. */
  predicate FirstPeakAbove(ds: seq<real>, k: int) {
    if k == -1 then forall j :: 0 <= j < |ds| ==> ds[j] <= OnsetThreshold
    else
      0 <= k < |ds| && ds[k] > OnsetThreshold &&
      (forall j :: 0 <= j < |ds| ==> ds[j] <= ds[k]) &&
      (forall j :: 0 <= j < k ==> ds[j] < ds[k])
  }

  /** k is where the derivative first reaches its minimum below -1.5, or -1 when it never
      falls below -1.5. */
  predicate FirstDipBelow(ds: seq<real>, k: int) {
    if k == -1 then forall j :: 0 <= j < |ds| ==> ds[j] >= -OnsetThreshold
    else
      0 <= k < |ds| && ds[k] < -OnsetThreshold &&
      (forall j :: 0 <= j < |ds| ==> ds[j] >= ds[k]) &&
      (forall j :: 0 <= j < k ==> ds[j] > ds[k])
  }

  /** One more derivative keeps the running maximum: it takes over only when it is
      strictly larger than the maximum so far (1.5 before any). */
  lemma PeakStep(ds: seq<real>, k: int, d: real)
    requires FirstPeakAbove(ds, k)
    ensures var top := if k == -1 then OnsetThreshold else ds[k];
      FirstPeakAbove(ds + [d], if d > top then |ds| else k)
  {
    var ds' := ds + [d];
    assert forall j :: 0 <= j < |ds| ==> ds'[j] == ds[j];
  }

  /** The same for the running minimum, below -1.5. */
  lemma DipStep(ds: seq<real>, k: int, d: real)
    requires FirstDipBelow(ds, k)
    ensures var bottom := if k == -1 then -OnsetThreshold else ds[k];
      FirstDipBelow(ds + [d], if d < bottom then |ds| else k)
  {
    var ds' := ds + [d];
    assert forall j :: 0 <= j < |ds| ==> ds'[j] == ds[j];
  }

  /** The new averages, the derivatives, and the possible note begin and end indices. */
  datatype Onsets = Onsets(averages: seq<real>, derivs: seq<real>, begin: int, end: int)

  /** What findNoteOnsets computes: average i is the window mean ending at sample i; its
      derivative is its difference from the average 1500 samples earlier, reaching back
      into the previous buffer's averages; begin and end are the first maximum above 1.5
      and the first minimum below -1.5. */
  predicate IsOnsets(num: Spectrum.Numerics, prevData: seq<int>, data: seq<int>, prevAverages: seq<real>, o: Onsets)
    requires |prevData| == |data| == |prevAverages| && |data| >= CompareTo
  {
    |o.averages| == |data| && |o.derivs| == |data| &&
    (forall i :: 0 <= i < |data| ==> o.averages[i] == WindowMean(num, prevData, data, i)) &&
    (forall i :: 0 <= i < |data| ==> o.derivs[i] == o.averages[i] - (prevAverages + o.averages)[|data| + i - CompareTo]) &&
    FirstPeakAbove(o.derivs, o.begin) && FirstDipBelow(o.derivs, o.end)
  }

  /** The first loop of findNoteOnsets: the sum over the last 200 samples of the previous
      buffer. */
  method WindowStart(num: Spectrum.Numerics, prevData: seq<int>, data: seq<int>) returns (sum: real)
    requires |prevData| == |data| >= WindowSize
    ensures sum == WindowEnding(num, prevData, data, |data|)
  {
    var n := |data|;
    sum := 0.0;
    var k := n - WindowSize;
    while k < n
      invariant n - WindowSize <= k <= n
      invariant sum == WindowSum(num, prevData, data, n - WindowSize, k)
    {
      sum := sum + Adjust(num, prevData[k]);
      k := k + 1;
    }
  }

  /** One step of the main loop: the window ending at sample i of the current buffer is
      the previous window plus sample i, minus the sample 200 back, which lies in the
      previous buffer while i < 200. */
  lemma SlideJoined(num: Spectrum.Numerics, prevData: seq<int>, data: seq<int>, i: int)
    requires |prevData| == |data| >= WindowSize && 0 <= i < |data|
    ensures WindowEnding(num, prevData, data, |data| + i + 1) ==
      WindowEnding(num, prevData, data, |data| + i) + Adjust(num, data[i]) -
      Adjust(num, if i >= WindowSize then data[i - WindowSize] else prevData[|data| + i - WindowSize])
  {
    SlideWindow(num, prevData, data, |data| + i - WindowSize, |data| + i);
  }

  /** Every average computed so far is its window mean. */
  predicate MeansSoFar(num: Spectrum.Numerics, prevData: seq<int>, data: seq<int>, averages: seq<real>)
    requires |prevData| == |data| >= WindowSize && |averages| <= |data|
  {
    forall m :: 0 <= m < |averages| ==> averages[m] == WindowMean(num, prevData, data, m)
  }

  lemma MeansStep(num: Spectrum.Numerics, prevData: seq<int>, data: seq<int>, averages: seq<real>, a: real)
    requires |prevData| == |data| >= WindowSize && |averages| < |data|
    requires MeansSoFar(num, prevData, data, averages)
    requires a == WindowMean(num, prevData, data, |averages|)
    ensures MeansSoFar(num, prevData, data, averages + [a])
  {
  }

  /** Every derivative computed so far compares its average with the one 1500 earlier. */
  predicate DerivsSoFar(prevAverages: seq<real>, averages: seq<real>, derivs: seq<real>)
    requires |prevAverages| >= CompareTo && |derivs| <= |averages|
  {
    forall m :: 0 <= m < |derivs| ==>
      derivs[m] == averages[m] - (prevAverages + averages)[|prevAverages| + m - CompareTo]
  }

  lemma DerivsStep(prevAverages: seq<real>, averages: seq<real>, derivs: seq<real>, a: real, d: real)
    requires |prevAverages| >= CompareTo && |derivs| == |averages|
    requires DerivsSoFar(prevAverages, averages, derivs)
    requires d == a - Earlier(prevAverages, averages, |derivs|)
    ensures DerivsSoFar(prevAverages, averages + [a], derivs + [d])
  {
    var joined := prevAverages + averages;
    var joined' := prevAverages + (averages + [a]);
    assert forall t :: 0 <= t < |joined| ==> joined'[t] == joined[t];
  }

  /** The window moves on to sample i: add it, drop the one 200 samples back. */
  method SlideSum(num: Spectrum.Numerics, prevData: seq<int>, data: seq<int>, i: int, sum: real) returns (next: real)
    requires |prevData| == |data| >= WindowSize && 0 <= i < |data|
    requires sum == WindowEnding(num, prevData, data, |data| + i)
    ensures next == WindowEnding(num, prevData, data, |data| + i + 1)
  {
    next := sum + Adjust(num, data[i]);
    var j := i - WindowSize;
    if j >= 0 {
      next := next - Adjust(num, data[j]);
    } else {
      next := next - Adjust(num, prevData[|prevData| + j]);
    }
    SlideJoined(num, prevData, data, i);
  }

  /** The average 1500 samples before sample i: from this buffer's averages once there
      are enough of them, otherwise from the previous buffer's. */
  function Earlier(prevAverages: seq<real>, averages: seq<real>, i: int): (a: real)
    requires |prevAverages| >= CompareTo && i == |averages|
    ensures a == (prevAverages + averages)[|prevAverages| + i - CompareTo]
  {
    var l := i - CompareTo;
    if l >= 0 then averages[l] else prevAverages[|prevAverages| + l]
  }

  /** findNoteOnsets. With fewer than 1500 samples per buffer the look-back indexes before
      the previous buffer and throws (with fewer than 200 already in the first loop). */
  method FindNoteOnsets(num: Spectrum.Numerics, prevData: seq<int>, data: seq<int>, prevAverages: seq<real>)
    returns (r: Result<Onsets>)
    requires |prevData| == |data| == |prevAverages|
    ensures r.Failure? <==> |data| < CompareTo
    ensures r.Failure? ==> r.error == IndexOutOfBounds
    ensures r.Success? ==> |data| >= CompareTo && IsOnsets(num, prevData, data, prevAverages, r.value)
  {
    var n := |data|;
    if n < CompareTo {
      return Failure(IndexOutOfBounds);
    }
    var sum := WindowStart(num, prevData, data);
    var averages: seq<real> := [];
    var derivs: seq<real> := [];
    var maxDeriv, minDeriv := OnsetThreshold, -OnsetThreshold;
    var begin, end := -1, -1;
    var i := 0;
    while i < n
      invariant 0 <= i <= n
      invariant |averages| == i && |derivs| == i
      invariant sum == WindowEnding(num, prevData, data, n + i)
      invariant MeansSoFar(num, prevData, data, averages)
      invariant DerivsSoFar(prevAverages, averages, derivs)
      invariant FirstPeakAbove(derivs, begin)
      invariant maxDeriv == if begin == -1 then OnsetThreshold else derivs[begin]
      invariant FirstDipBelow(derivs, end)
      invariant minDeriv == if end == -1 then -OnsetThreshold else derivs[end]
    {
      sum := SlideSum(num, prevData, data, i, sum);
      var average := sum / WindowSize as real;
      var d := average - Earlier(prevAverages, averages, i);
      MeansStep(num, prevData, data, averages, average);
      DerivsStep(prevAverages, averages, derivs, average, d);
      averages := averages + [average];
      PeakStep(derivs, begin, d);
      DipStep(derivs, end, d);
      derivs := derivs + [d];
      if d > maxDeriv {
        maxDeriv := d;
        begin := i;
      }
      if d < minDeriv {
        minDeriv := d;
        end := i;
      }
      i := i + 1;
    }
    return Success(Onsets(averages, derivs, begin, end));
  }

  // ---------------------------------------------------------------------------------
  // sampleMic
  // ---------------------------------------------------------------------------------

  /** The state sampleMic has built when processSample starts: the previous samples and
      averages saved, the buffer decoded into data, and the time step advanced. */
  function Advanced(e: State, data: seq<int>): State {
    e.(prevData := e.data, prevAverages := e.averages, data := data, timeStep := e.timeStep + 1)
  }

  /** sampleMic, given what the microphone's sample returned: the byte count and the buffer
      it filled. The previous samples and averages are saved and the buffer is decoded
      whatever the count; only a full buffer advances the time step, is processed
      (analyzePitch, then findNoteOnsets) and makes the call return true. */
  method SampleMic(num: Spectrum.Numerics, e: State, bytes: int, buffer: seq<JByte>) returns (r: Result<(State, bool)>)
    requires Valid(e)
    ensures r.Success? ==> Valid(r.value.0)
    ensures r.Success? ==> (r.value.1 <==> bytes == e.bufferSize)
    ensures r.Success? ==> Decoded(e.bitRate, buffer, e.data) == Success(r.value.0.data)
    ensures r.Success? && !r.value.1 ==>
      r.value.0 == e.(prevData := e.data, prevAverages := e.averages, data := r.value.0.data)
    ensures r.Success? && r.value.1 ==>
      var s := r.value.0;
      var a := Advanced(e, s.data);
      AnalyzePitch(num, a) == Success((s.currentFrequency, s.currentMags)) &&
      s == a.(averages := s.averages, currentFrequency := s.currentFrequency, currentMags := s.currentMags) &&
      |e.data| >= CompareTo &&
      forall i :: 0 <= i < |e.data| ==> s.averages[i] == WindowMean(num, e.data, s.data, i)
    ensures r.Failure? <==>
      Decoded(e.bitRate, buffer, e.data).Failure? ||
      (bytes == e.bufferSize &&
        (AnalyzePitch(num, Advanced(e, Decoded(e.bitRate, buffer, e.data).value)).Failure? || |e.data| < CompareTo))
  {
    var decoded := CopyBufferToData(e.bitRate, buffer, e.data);
    if decoded.Failure? {
      return Failure(decoded.error);
    }
    if bytes != e.bufferSize {
      return Success((e.(prevData := e.data, prevAverages := e.averages, data := decoded.value), false));
    }
    var a := Advanced(e, decoded.value);
    var pitch := AnalyzePitch(num, a);
    if pitch.Failure? {
      return Failure(pitch.error);
    }
    var onsets := FindNoteOnsets(num, a.prevData, a.data, a.prevAverages);
    if onsets.Failure? {
      return Failure(onsets.error);
    }
    var s := a.(averages := onsets.value.averages, currentFrequency := pitch.value.0, currentMags := pitch.value.1);
    return Success((s, true));
  }
}
