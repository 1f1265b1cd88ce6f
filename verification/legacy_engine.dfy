/** The first SoundEngine (main/java): every full buffer of bytes from the microphone is
    transformed as it stands, one sample per byte, and the pitch is estimated inline in
    processSample with a fixed minimum magnitude of 100. The newer engine split that
    method into analyzePitch's steps; LegacyEngine.ProcessSampleIsAnalyzePitch shows the
    two compute the same thing. */
module LegacyEngine {
  import opened Results
  import opened Bytes
  import Spectrum
  import Harmonics
  import NoteTable
  import SoundEngine

  /** min_magnitude: the threshold of the peak scan. */
  const MinMagnitude: int := 100

  /** The engine's fields that processSample and sampleMic read or write. */
  datatype Engine = Engine(
    sampleRate: int,
    bufferSize: int,
    basePitch: real,
    buffer: seq<JByte>,
    currentFrequency: real,
    currentMags: seq<real>)

  /** The buffer is allocated with bufferSize bytes and never replaced. */
  predicate Valid(e: Engine) {
    |e.buffer| == e.bufferSize
  }

  /** The constructor, given the microphone's sample rate and buffer size: a negative size
      throws on the buffer's allocation; otherwise every array starts zeroed and the table
      at A4 = 440. */
  function New(sampleRate: int, bufferSize: int): (r: Result<Engine>)
    ensures r.Failure? <==> bufferSize < 0
    ensures r.Failure? ==> r.error == NegativeArraySize
    ensures r.Success? ==> Valid(r.value) && r.value.sampleRate == sampleRate
    ensures r.Success? ==> r.value.basePitch == SoundEngine.DefaultPitch && r.value.currentFrequency == 0.0
    ensures r.Success? ==> forall i :: 0 <= i < |r.value.buffer| ==> r.value.buffer[i] == 0
    ensures r.Success? ==> |r.value.currentMags| == bufferSize / 2
    ensures r.Success? ==> forall i :: 0 <= i < |r.value.currentMags| ==> r.value.currentMags[i] == 0.0
  {
    if bufferSize < 0 then Failure(NegativeArraySize)
    else Success(Engine(sampleRate, bufferSize, SoundEngine.DefaultPitch, seq(bufferSize, i => 0), 0.0,
      seq(bufferSize / 2, i => 0.0)))
  }

  /** The buffer's bytes as the samples the transform reads. */
  function Samples(buffer: seq<JByte>): (xs: seq<int>)
    ensures |xs| == |buffer|
    ensures forall i :: 0 <= i < |buffer| ==> xs[i] == buffer[i] as int
  {
    seq(|buffer|, i requires 0 <= i < |buffer| => buffer[i] as int)
  }

  /** The magnitudes of the first bufferSize / 2 bins of the transform of the rectified,
      log-compressed bytes. */
  function Mags(num: Spectrum.Numerics, buffer: seq<JByte>): (mags: seq<real>)
    ensures |mags| == |buffer| / 2
  {
    Spectrum.Magnitudes(num, Spectrum.RectifiedInput(num, Samples(buffer)), |buffer| / 2)
  }

  /** The peaks of the scan: bins of sampleRate / bufferSize Hz, the band of the note table,
      and the threshold 100. */
  function Peaks(num: Spectrum.Numerics, e: Engine): Result<seq<real>>
    requires Valid(e)
  {
    var t := NoteTable.Build(e.basePitch);
    Spectrum.FindPeaks(Mags(num, e.buffer), MinMagnitude as real, e.sampleRate, e.bufferSize,
      NoteTable.MinFrequency(t), NoteTable.MaxFrequency(t))
  }

  /** processSample: the bins' frequencies and magnitudes become currentMags and the
      harmonic fit over the peaks becomes currentFrequency; nothing else changes. */
  function ProcessSample(num: Spectrum.Numerics, e: Engine): (r: Result<Engine>)
    requires Valid(e)
    ensures r.Failure? <==>
      Peaks(num, e).Failure? || Harmonics.FrequencyFromPeaks(Peaks(num, e).value).Failure?
    ensures r.Success? ==>
      r.value == e.(currentFrequency := r.value.currentFrequency, currentMags := r.value.currentMags)
    ensures r.Success? ==> r.value.currentFrequency == Harmonics.FrequencyFromPeaks(Peaks(num, e).value).value
    ensures r.Success? ==> |r.value.currentMags| == 2 * (e.bufferSize / 2)
    ensures r.Success? ==> forall i :: 0 <= i < e.bufferSize / 2 ==>
      r.value.currentMags[2 * i] == JavaDiv(e.sampleRate * i, e.bufferSize) as real &&
      r.value.currentMags[2 * i + 1] == Mags(num, e.buffer)[i]
  {
    match Peaks(num, e)
    case Failure(err) => Failure(err)
    case Success(peaks) =>
      match Harmonics.FrequencyFromPeaks(peaks)
      case Failure(err) => Failure(err)
      case Success(f) =>
        var mags := Mags(num, e.buffer);
        Success(e.(currentFrequency := f,
          currentMags := SoundEngine.Interleave(Spectrum.Bins(mags, e.sampleRate, e.bufferSize))))
  }

  /** The newer engine's state holding this buffer as its data and 100 as its microphone's
      minimum magnitude. */
  function AsNewer(e: Engine): SoundEngine.State {
    SoundEngine.State(e.sampleRate, e.bufferSize, 8, MinMagnitude, e.basePitch, Samples(e.buffer),
      [], [], [], e.currentFrequency, e.currentMags, 0)
  }

  /** The inline processSample is analyzePitch of the newer engine on the same samples:
      the same failure, the same frequency and the same currentMags. */
  lemma ProcessSampleIsAnalyzePitch(num: Spectrum.Numerics, e: Engine)
    requires Valid(e)
    ensures ProcessSample(num, e).Failure? <==> SoundEngine.AnalyzePitch(num, AsNewer(e)).Failure?
    ensures ProcessSample(num, e).Success? ==>
      SoundEngine.AnalyzePitch(num, AsNewer(e)).value ==
        (ProcessSample(num, e).value.currentFrequency, ProcessSample(num, e).value.currentMags)
  {
    var a := AsNewer(e);
    assert |a.data| == e.bufferSize;
    assert SoundEngine.Mags(num, a.data) == Mags(num, e.buffer);
    assert SoundEngine.EnginePeaks(num, a) == Peaks(num, e);
    if ProcessSample(num, e).Success? {
      assert SoundEngine.CurrentMags(num, a) == ProcessSample(num, e).value.currentMags;
    }
  }

  /** With a positive sample rate and base pitch, processSample never throws: every peak is
      a positive frequency; without peaks the frequency is 0.0, otherwise the fit over the
      harmonic slots of the candidate peaks. */
  lemma ProcessSampleSucceeds(num: Spectrum.Numerics, e: Engine)
    requires Valid(e) && e.sampleRate > 0 && e.basePitch > 0.0
    ensures Peaks(num, e).Success?
    ensures forall i :: 0 <= i < |Peaks(num, e).value| ==> Peaks(num, e).value[i] > 0.0
    ensures ProcessSample(num, e).Success?
    ensures Peaks(num, e).value == [] ==> ProcessSample(num, e).value.currentFrequency == 0.0
    ensures Peaks(num, e).value != [] ==>
      var ps := Harmonics.Candidates(Peaks(num, e).value);
      Harmonics.PlaceAll(ps[0], ps).Success? &&
      ProcessSample(num, e).value.currentFrequency == Harmonics.Fit(Harmonics.PlaceAll(ps[0], ps).value.harmonics)
  {
    var a := AsNewer(e);
    ProcessSampleIsAnalyzePitch(num, e);
    assert SoundEngine.EnginePeaks(num, a) == Peaks(num, e);
    SoundEngine.AnalyzePitchSucceeds(num, a);
  }

  /** sampleMic, given what the microphone's sample returned: the byte count and the buffer
      it filled. Only a full buffer is processed and makes the call return true. */
  method SampleMic(num: Spectrum.Numerics, e: Engine, bytes: int, filled: seq<JByte>) returns (r: Result<(Engine, bool)>)
    requires Valid(e) && |filled| == e.bufferSize
    ensures r.Success? ==> Valid(r.value.0) && r.value.0.buffer == filled
    ensures r.Success? ==> (r.value.1 <==> bytes == e.bufferSize)
    ensures r.Success? && !r.value.1 ==> r.value.0 == e.(buffer := filled)
    ensures r.Success? && r.value.1 ==> ProcessSample(num, e.(buffer := filled)) == Success(r.value.0)
    ensures r.Failure? <==> bytes == e.bufferSize && ProcessSample(num, e.(buffer := filled)).Failure?
  {
    var f := e.(buffer := filled);
    if bytes == e.bufferSize {
      var p := ProcessSample(num, f);
      if p.Failure? {
        return Failure(p.error);
      }
      return Success((p.value, true));
    }
    return Success((f, false));
  }
}
