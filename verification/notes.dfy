/** The plain records of the sound engine: a note of the score, a note found in the
    audio, and the pair the aligner builds from them (either side may be absent). */
module Notes {
  import opened Results

  /** A note of the score. `name` is None when a score file set no name (Java null). */
  datatype MusicNote = MusicNote(name: Option<string>, beats: real)

  /** A note found in the audio; times in seconds from the start of the piece. */
  datatype TranscribedNote = TranscribedNote(
    startWindow: int, endWindow: int, startTime: real, endTime: real, pitch: real)

  /** Zero or one transcribed note associated with zero or one score note. */
  datatype NotePair = NotePair(transcribed: Option<TranscribedNote>, music: Option<MusicNote>)

  /** TranscribedNote.getDuration. */
  function Duration(n: TranscribedNote): (d: real)
    ensures n.startTime + d == n.endTime
    ensures d >= 0.0 <==> n.endTime >= n.startTime
  {
    n.endTime - n.startTime
  }

  predicate HasSide(p: NotePair) {
    p.transcribed.Some? || p.music.Some?
  }

  predicate IsFull(p: NotePair) {
    p.transcribed.Some? && p.music.Some?
  }

  /** The transcribed notes of a pair list, in list order. */
  function TranscribedSide(ps: seq<NotePair>): seq<TranscribedNote> {
    if ps == [] then []
    else (if ps[0].transcribed.Some? then [ps[0].transcribed.value] else []) + TranscribedSide(ps[1..])
  }

  /** The score notes of a pair list, in list order. */
  function MusicSide(ps: seq<NotePair>): seq<MusicNote> {
    if ps == [] then []
    else (if ps[0].music.Some? then [ps[0].music.value] else []) + MusicSide(ps[1..])
  }

  lemma SidesAppend(a: seq<NotePair>, b: seq<NotePair>)
    ensures TranscribedSide(a + b) == TranscribedSide(a) + TranscribedSide(b)
    ensures MusicSide(a + b) == MusicSide(a) + MusicSide(b)
  {
    TranscribedSideAppend(a, b);
    MusicSideAppend(a, b);
  }

  lemma {:induction false} TranscribedSideAppend(a: seq<NotePair>, b: seq<NotePair>)
    ensures TranscribedSide(a + b) == TranscribedSide(a) + TranscribedSide(b)
  {
    if a == [] {
      assert a + b == b;
    } else {
      var head := if a[0].transcribed.Some? then [a[0].transcribed.value] else [];
      assert (a + b)[0] == a[0];
      assert (a + b)[1..] == a[1..] + b;
      TranscribedSideAppend(a[1..], b);
      calc {
        TranscribedSide(a + b);
        head + TranscribedSide(a[1..] + b);
        head + (TranscribedSide(a[1..]) + TranscribedSide(b));
        (head + TranscribedSide(a[1..])) + TranscribedSide(b);
      }
    }
  }

  lemma {:induction false} MusicSideAppend(a: seq<NotePair>, b: seq<NotePair>)
    ensures MusicSide(a + b) == MusicSide(a) + MusicSide(b)
  {
    if a == [] {
      assert a + b == b;
    } else {
      var head := if a[0].music.Some? then [a[0].music.value] else [];
      assert (a + b)[0] == a[0];
      assert (a + b)[1..] == a[1..] + b;
      MusicSideAppend(a[1..], b);
      calc {
        MusicSide(a + b);
        head + MusicSide(a[1..] + b);
        head + (MusicSide(a[1..]) + MusicSide(b));
        (head + MusicSide(a[1..])) + MusicSide(b);
      }
    }
  }

  /** Pairs holding only transcribed notes (the "added" drain of a backtrace). */
  function AddedPairs(ts: seq<TranscribedNote>): (ps: seq<NotePair>)
    ensures |ps| == |ts|
    ensures forall i :: 0 <= i < |ps| ==> ps[i] == NotePair(Some(ts[i]), None)
  {
    seq(|ts|, i requires 0 <= i < |ts| => NotePair(Some(ts[i]), None))
  }

  /** Pairs holding only score notes (the "skipped" drain of a backtrace). */
  function SkippedPairs(ms: seq<MusicNote>): (ps: seq<NotePair>)
    ensures |ps| == |ms|
    ensures forall i :: 0 <= i < |ps| ==> ps[i] == NotePair(None, Some(ms[i]))
  {
    seq(|ms|, i requires 0 <= i < |ms| => NotePair(None, Some(ms[i])))
  }

  lemma {:induction false} AddedPairsSides(ts: seq<TranscribedNote>)
    ensures TranscribedSide(AddedPairs(ts)) == ts
    ensures MusicSide(AddedPairs(ts)) == []
    ensures forall p :: p in AddedPairs(ts) ==> HasSide(p)
  {
    if ts != [] {
      assert AddedPairs(ts)[1..] == AddedPairs(ts[1..]);
      AddedPairsSides(ts[1..]);
    }
  }

  lemma {:induction false} SkippedPairsSides(ms: seq<MusicNote>)
    ensures TranscribedSide(SkippedPairs(ms)) == []
    ensures MusicSide(SkippedPairs(ms)) == ms
    ensures forall p :: p in SkippedPairs(ms) ==> HasSide(p)
  {
    if ms != [] {
      assert SkippedPairs(ms)[1..] == SkippedPairs(ms[1..]);
      SkippedPairsSides(ms[1..]);
    }
  }
}
