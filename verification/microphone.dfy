/** microphone/LinuxFileMicrophone: the microphone that plays an audio file. Its format
    fixes the buffer size, the bit rate and the bytes per frame, and `sample` reads from
    the stream into the buffer. Eight-bit files hold unsigned samples, so every byte of
    the buffer is then moved by 128 into Java's signed range. */
module Microphone {
  import opened Results
  import opened Bytes

  /** bufferSize: 1024 * 4 bytes per read. */
  const BufferSize: int := 1024 * 4

  /** What initialize reads from the file's format. */
  datatype Format = Format(sampleRate: int, bitRate: int, bytesPerFrame: int)

  /** initialize: the bytes per frame are bitRate / 8 in Java int division, the sample
      rate is taken as given (the float-to-int cast happens outside the model). */
  function Initialize(sampleRate: int, bitRate: int): (f: Format)
    ensures f.sampleRate == sampleRate && f.bitRate == bitRate
    ensures bitRate >= 0 ==> f.bytesPerFrame * 8 <= bitRate < f.bytesPerFrame * 8 + 8
    ensures bitRate < 0 ==> f.bytesPerFrame * 8 - 8 < bitRate <= f.bytesPerFrame * 8
  {
    Format(sampleRate, bitRate, JavaDiv(bitRate, 8))
  }

  /** The rewrite of one byte: a positive byte goes down by 128, any other up by 128, cast
      back to a byte (so 0 becomes -128). Either way the byte moves by 128 modulo 256. */
  function Shift(b: JByte): (r: JByte)
    ensures r == Wrap8(b as int + 128)
    ensures r == Wrap8(b as int - 128)
    ensures r == if b >= 0 then b - 128 else b + 128
  {
    if b > 0 then Wrap8(b as int - 128) else Wrap8(b as int + 128)
  }

  /** Rewriting twice gives the byte back, so the rewrite is a bijection on bytes. */
  lemma ShiftInvolution(b: JByte)
    ensures Shift(Shift(b)) == b
  {
  }

  lemma ShiftInjective(a: JByte, b: JByte)
    ensures Shift(a) == Shift(b) ==> a == b
  {
    ShiftInvolution(a);
    ShiftInvolution(b);
  }

  /** What the rewrite is for: a file byte holding the unsigned sample u, which Java reads
      as the signed byte (byte) u, comes out as u - 128, the sample centred on zero. */
  lemma ShiftCentresUnsigned(u: int)
    requires 0 <= u < 256
    ensures Shift(Wrap8(u)) == u - 128
  {
  }

  /** The loop of `sample` at eight bits: every byte of the buffer, read or stale. */
  method ShiftAll(buffer: seq<JByte>) returns (out: seq<JByte>)
    ensures |out| == |buffer|
    ensures forall i :: 0 <= i < |buffer| ==> out[i] == Shift(buffer[i])
  {
    out := buffer;
    var i := 0;
    while i < |buffer|
      invariant 0 <= i <= |buffer|
      invariant |out| == |buffer|
      invariant forall k :: 0 <= k < i ==> out[k] == Shift(buffer[k])
      invariant forall k :: i <= k < |buffer| ==> out[k] == buffer[k]
    {
      if out[i] > 0 {
        out := out[i := Wrap8(out[i] as int - 128)];
      } else {
        out := out[i := Wrap8(out[i] as int + 128)];
      }
      i := i + 1;
    }
  }

  /** sample(buffer): `read` is what stream.read returned and `filled` the buffer it left.
      The count is returned as it is; at eight bits the whole buffer is rewritten, at
      any other bit rate it is left as read. */
  method Sample(f: Format, read: int, filled: seq<JByte>) returns (bytes: int, buffer: seq<JByte>)
    ensures bytes == read
    ensures |buffer| == |filled|
    ensures f.bitRate == 8 ==> forall i :: 0 <= i < |filled| ==> buffer[i] == Shift(filled[i])
    ensures f.bitRate != 8 ==> buffer == filled
  {
    bytes := read;
    if f.bitRate == 8 {
      buffer := ShiftAll(filled);
    } else {
      buffer := filled;
    }
  }

  /** Undoing a sample: at eight bits, rewriting the returned buffer again gives back the
      bytes the stream left. */
  lemma SampleUndone(filled: seq<JByte>, buffer: seq<JByte>)
    requires |buffer| == |filled|
    requires forall i :: 0 <= i < |filled| ==> buffer[i] == Shift(filled[i])
    ensures forall i :: 0 <= i < |filled| ==> Shift(buffer[i]) == filled[i]
  {
    forall i | 0 <= i < |filled|
      ensures Shift(buffer[i]) == filled[i]
    {
      ShiftInvolution(filled[i]);
    }
  }
}
