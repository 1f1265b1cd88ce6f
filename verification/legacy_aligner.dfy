/** The first score aligner (sound_engine's root NoteAligner). It runs the same grid as the
    current aligner with its own costs, but its grid codes give "added" and "aligned" the
    same value, its backtrace stops as soon as either index reaches 0, and its tempo
    samples run from the previous onset to the current note's end. */
module LegacyAlignment {
  import opened Results
  import opened Notes
  import opened EditGrid
  import Alignment

  /** The three codes a backtrace compares a cell against, in the order it tests them:
      aligned first, then added, then skipped. */
  datatype CodeSet = CodeSet(skipped: int, added: int, aligned: int)

  /** The legacy codes: MUSIC_NOTE_SKIPPED = 1, TRANSCRIBED_NOTE_ADDED = 2,
      NOTES_ALIGNED = 2. */
  const LegacyCodes: CodeSet := CodeSet(1, 2, 2)

  function LegacyCode(op: Op): int {
    match op
    case Skip => LegacyCodes.skipped
    case Add => LegacyCodes.added
    case Align => LegacyCodes.aligned
  }

  // ---------------------------------------------------------------------------------
  // Costs
  // ---------------------------------------------------------------------------------

  /** noteSkipCost: the score note's beats. */
  function SkipCost(music: seq<MusicNote>, m: nat): real
    requires m < |music|
  {
    music[m].beats
  }

  /** noteAddCost: the note's duration in beats (the default tempo before an estimate). */
  function AddCost(a: Alignment.Aligner, t: nat): real
    requires t < |a.transcribed|
  {
    var denom := if a.secondsPerBeat == Alignment.NoEstimate then Alignment.DefaultSecondsPerBeat else a.secondsPerBeat;
    Quot(Duration(a.transcribed[t]), denom)
  }

  /** noteAlignCost: twice the duration error once a tempo estimate exists, plus ten times
      the relative pitch error; no index term. */
  function AlignCost(a: Alignment.Aligner, t: nat, m: nat): real
    requires t < |a.transcribed| && m < |a.music|
  {
    var durationTerm := if a.secondsPerBeat != Alignment.NoEstimate then 2.0 * Alignment.DurationError(a, t, m) else 0.0;
    var musicPitch := Alignment.NotePitch(a.basePitch, a.music[m].name);
    durationTerm + 10.0 * Quot(Abs(musicPitch - a.transcribed[t].pitch), musicPitch)
  }

  /** The costs fed to the grid. Column 0 adds with noteAddCost(m), m being 0 there, so
      every row of that column pays the first note's add cost. */
  function GridCosts(a: Alignment.Aligner): (c: Costs)
    ensures forall t: nat :: c.edgeAdd(t) == c.add(0)
  {
    var add := (t: nat) => if t < |a.transcribed| then AddCost(a, t) else 0.0;
    Costs(
      (m: nat, t: nat) => if m < |a.music| then SkipCost(a.music, m) else 0.0,
      add,
      (t: nat) => add(0),
      (t: nat, m: nat) => if t < |a.transcribed| && m < |a.music| then AlignCost(a, t, m) else 0.0)
  }

  // ---------------------------------------------------------------------------------
  // Backtrace
  // ---------------------------------------------------------------------------------

  /** getAlignment's loops from cell (t, m): while neither index is 0, follow the code
      stored in the cell, testing aligned, then added, then skipped; then drain the
      remaining score notes and transcribed notes. A negative index in the first loop
      reads outside the grid (ArrayIndexOutOfBoundsException). */
  function LegacyTrace(cs: CodeSet, codes: (nat, nat) -> int, ts: seq<TranscribedNote>, ms: seq<MusicNote>,
                       t: int, m: int): Result<seq<NotePair>>
    requires -1 <= t < |ts| && -1 <= m < |ms|
    decreases t + m + 2
  {
    if m != 0 && t != 0 then
      if t < 0 || m < 0 then Failure(IndexOutOfBounds)
      else
        var code := codes(t, m);
        if code == cs.aligned then
          Alignment.Append(LegacyTrace(cs, codes, ts, ms, t - 1, m - 1), NotePair(Some(ts[t]), Some(ms[m])))
        else if code == cs.added then
          Alignment.Append(LegacyTrace(cs, codes, ts, ms, t - 1, m), NotePair(Some(ts[t]), None))
        else if code == cs.skipped then
          Alignment.Append(LegacyTrace(cs, codes, ts, ms, t, m - 1), NotePair(None, Some(ms[m])))
        else
          Failure(InternalBug)
    else
      Success(AddedPairs(ts[..t + 1]) + SkippedPairs(ms[..m + 1]))
  }

  /** Every cell holds one of the legacy codes. */
  ghost predicate LegacyValidCodes(codes: (nat, nat) -> int) {
    forall i: nat, j: nat :: codes(i, j) == LegacyCodes.skipped || codes(i, j) == LegacyCodes.aligned
  }

  /** The code the legacy grid holds at (t, m). */
  function LegacyGridCode(a: Alignment.Aligner): (codes: (nat, nat) -> int)
    ensures LegacyValidCodes(codes)
  {
    (t: nat, m: nat) => LegacyCode(CellAt(GridCosts(a), t, m).op)
  }

  /** The first pair holding a transcribed note, and the first holding a score note. */
  function FirstTranscribed(ps: seq<NotePair>): Option<NotePair> {
    if ps == [] then None
    else if ps[0].transcribed.Some? then Some(ps[0])
    else FirstTranscribed(ps[1..])
  }

  function FirstMusic(ps: seq<NotePair>): Option<NotePair> {
    if ps == [] then None
    else if ps[0].music.Some? then Some(ps[0])
    else FirstMusic(ps[1..])
  }

  lemma {:induction false} FirstsAppend(ps: seq<NotePair>, qs: seq<NotePair>)
    ensures FirstTranscribed(ps + qs) ==
      if FirstTranscribed(ps).Some? then FirstTranscribed(ps) else FirstTranscribed(qs)
    ensures FirstMusic(ps + qs) == if FirstMusic(ps).Some? then FirstMusic(ps) else FirstMusic(qs)
  {
    if ps == [] {
      assert ps + qs == qs;
    } else {
      assert (ps + qs)[1..] == ps[1..] + qs;
      FirstsAppend(ps[1..], qs);
    }
  }

  lemma {:induction false} AddedPairsFirsts(ts: seq<TranscribedNote>)
    ensures FirstMusic(AddedPairs(ts)) == None
    ensures ts != [] ==> FirstTranscribed(AddedPairs(ts)) == Some(NotePair(Some(ts[0]), None))
  {
    if ts != [] {
      assert AddedPairs(ts)[1..] == AddedPairs(ts[1..]);
      AddedPairsFirsts(ts[1..]);
    }
  }

  lemma SkippedPairsFirst(ms: seq<MusicNote>)
    requires ms != []
    ensures FirstMusic(SkippedPairs(ms)) == Some(NotePair(None, Some(ms[0])))
  {
  }

  /** From a cell inside the grid, on a grid holding legacy codes, the backtrace succeeds,
      returns every transcribed note up to t and every score note up to m in order, and
      leaves the first transcribed note and the first score note unpaired: the first
      pair holding either is one-sided. */
  lemma {:induction false} LegacyTraceInterior(
    codes: (nat, nat) -> int, ts: seq<TranscribedNote>, ms: seq<MusicNote>, t: nat, m: nat)
    requires LegacyValidCodes(codes)
    requires t < |ts| && m < |ms|
    ensures var r := LegacyTrace(LegacyCodes, codes, ts, ms, t, m);
      r.Success? &&
      TranscribedSide(r.value) == ts[..t + 1] && MusicSide(r.value) == ms[..m + 1] &&
      (forall p :: p in r.value ==> HasSide(p)) &&
      FirstTranscribed(r.value) == Some(NotePair(Some(ts[0]), None)) &&
      FirstMusic(r.value) == Some(NotePair(None, Some(ms[0])))
    decreases t + m
  {
    if m != 0 && t != 0 {
      var p, t', m' := NotePair(Some(ts[t]), Some(ms[m])), t - 1, m - 1;
      if codes(t, m) != LegacyCodes.aligned {
        p, t', m' := NotePair(None, Some(ms[m])), t, m - 1;
      }
      LegacyTraceInterior(codes, ts, ms, t', m');
      var prev := LegacyTrace(LegacyCodes, codes, ts, ms, t', m').value;
      assert LegacyTrace(LegacyCodes, codes, ts, ms, t, m) == Success(prev + [p]);
      Alignment.ExtendPairs(prev, p);
      FirstsAppend(prev, [p]);
      assert ts[..t + 1] == ts[..t] + [ts[t]];
      assert ms[..m + 1] == ms[..m] + [ms[m]];
    } else {
      var added, skipped := AddedPairs(ts[..t + 1]), SkippedPairs(ms[..m + 1]);
      AddedPairsSides(ts[..t + 1]);
      SkippedPairsSides(ms[..m + 1]);
      SidesAppend(added, skipped);
      AddedPairsFirsts(ts[..t + 1]);
      SkippedPairsFirst(ms[..m + 1]);
      FirstsAppend(added, skipped);
    }
  }

  /** The two lists' sizes for which getAlignment throws: no transcribed notes and a score
      of other than one note, or an empty score and other than one transcribed note. */
  predicate Throws(transcribedCount: nat, musicCount: nat) {
    (transcribedCount == 0 && musicCount != 1) || (musicCount == 0 && transcribedCount != 1)
  }

  /** The legacy backtrace over the whole grid. */
  function LegacyBacktrace(a: Alignment.Aligner): Result<seq<NotePair>> {
    LegacyTrace(LegacyCodes, LegacyGridCode(a), a.transcribed, a.music, |a.transcribed| - 1, |a.music| - 1)
  }

  /** The backtrace fails exactly for the sizes of Throws, with an index out of bounds;
      otherwise it returns both note lists in order, every pair with a side. */
  lemma LegacyBacktraceOutcome(a: Alignment.Aligner)
    ensures LegacyBacktrace(a).Failure? <==> Throws(|a.transcribed|, |a.music|)
    ensures LegacyBacktrace(a).Failure? ==> LegacyBacktrace(a).error == IndexOutOfBounds
    ensures LegacyBacktrace(a).Success? ==>
      TranscribedSide(LegacyBacktrace(a).value) == a.transcribed &&
      MusicSide(LegacyBacktrace(a).value) == a.music &&
      forall p :: p in LegacyBacktrace(a).value ==> HasSide(p)
  {
    var ts, ms := a.transcribed, a.music;
    assert ts[..|ts|] == ts;
    assert ms[..|ms|] == ms;
    if |ts| > 0 && |ms| > 0 {
      LegacyTraceInterior(LegacyGridCode(a), ts, ms, |ts| - 1, |ms| - 1);
    } else if |ts| == 0 && |ms| == 1 {
      AddedPairsSides(ts[..0]);
      SkippedPairsSides(ms);
      SidesAppend(AddedPairs(ts[..0]), SkippedPairs(ms));
    } else if |ms| == 0 && |ts| == 1 {
      AddedPairsSides(ts);
      SkippedPairsSides(ms[..0]);
      SidesAppend(AddedPairs(ts), SkippedPairs(ms[..0]));
    }
  }

  /** With notes on both sides, the first transcribed note and the first score note are
      never aligned with anything. */
  lemma FirstNotesUnpaired(a: Alignment.Aligner)
    requires |a.transcribed| > 0 && |a.music| > 0
    ensures LegacyBacktrace(a).Success?
    ensures FirstTranscribed(LegacyBacktrace(a).value) == Some(NotePair(Some(a.transcribed[0]), None))
    ensures FirstMusic(LegacyBacktrace(a).value) == Some(NotePair(None, Some(a.music[0])))
  {
    LegacyTraceInterior(LegacyGridCode(a), a.transcribed, a.music, |a.transcribed| - 1, |a.music| - 1);
  }

  /** A one-note score played as one note comes back as two one-sided pairs. */
  lemma SingleNoteUnpaired(a: Alignment.Aligner)
    requires |a.transcribed| == 1 && |a.music| == 1
    ensures LegacyBacktrace(a) ==
      Success([NotePair(Some(a.transcribed[0]), None), NotePair(None, Some(a.music[0]))])
  {
    var ts, ms := a.transcribed, a.music;
    assert ts[..1] == ts && ms[..1] == ms;
    var added, skipped := AddedPairs(ts), SkippedPairs(ms);
    assert added == [NotePair(Some(ts[0]), None)];
    assert skipped == [NotePair(None, Some(ms[0]))];
    assert LegacyBacktrace(a) == Success(added + skipped);
    assert added + skipped == [NotePair(Some(ts[0]), None), NotePair(None, Some(ms[0]))];
  }

  /** An interior cell whose move is an add is read back as an align: the backtrace pairs
      the transcribed note with the score note and steps diagonally. */
  lemma AddedReadAsAligned(a: Alignment.Aligner, t: nat, m: nat)
    requires 0 < t < |a.transcribed| && 0 < m < |a.music|
    requires CellAt(GridCosts(a), t, m).op == Add
    ensures LegacyTrace(LegacyCodes, LegacyGridCode(a), a.transcribed, a.music, t, m) ==
      Alignment.Append(LegacyTrace(LegacyCodes, LegacyGridCode(a), a.transcribed, a.music, t - 1, m - 1),
                       NotePair(Some(a.transcribed[t]), Some(a.music[m])))
  {
  }

  // ---------------------------------------------------------------------------------
  // Tempo and the public operations
  // ---------------------------------------------------------------------------------

  /** The end of a transcribed note, which closes a sample in this aligner. */
  const End: TranscribedNote -> real := (n: TranscribedNote) => n.endTime

  function LegacyTempoSamples(ps: seq<NotePair>): seq<real> {
    Alignment.TempoScan(ps, End, -1.0, -1.0)
  }

  /** The scan takes one sample per two consecutive full pairs, from the first pair's
      onset to the second pair's end, provided no onset is -1. */
  lemma LegacyTempoSamplesConsecutive(ps: seq<NotePair>)
    requires Alignment.NoSentinelOnset(ps)
    ensures LegacyTempoSamples(ps) == Alignment.ConsecutiveSamples(ps, End)
  {
    Alignment.ScanWithoutPrevious(ps, End, -1.0);
  }

  /** getAlignment: as in the current aligner, but the backtrace can throw, and so can the
      tempo estimate that reads it. */
  function LegacyGetAlignment(a: Alignment.Aligner): (r: Result<(Alignment.Aligner, seq<NotePair>)>)
    ensures r.Success? <==> !Throws(|a.transcribed|, |a.music|)
    ensures r.Failure? ==> r.error == IndexOutOfBounds
    ensures r.Success? ==>
      r.value.0.computed && Alignment.SameNotes(r.value.0, a) &&
      (a.computed ==> r.value.0 == a) &&
      TranscribedSide(r.value.1) == a.transcribed && MusicSide(r.value.1) == a.music
    decreases if a.computed then 0 else 2
  {
    var ready := if a.computed then Success(a) else LegacyEstimateTempo(Alignment.ComputeAlignment(a));
    match ready
    case Failure(e) => Failure(e)
    case Success(r) =>
      var b := Alignment.ComputeAlignment(r);
      LegacyBacktraceOutcome(b);
      match LegacyBacktrace(b)
      case Failure(e) => Failure(e)
      case Success(ps) => Success((b, ps))
  }

  /** estimateTempo: the median of the onset-to-end samples, once there are three. */
  function LegacyEstimateTempo(a: Alignment.Aligner): (r: Result<Alignment.Aligner>)
    requires a.computed
    ensures r.Success? <==> !Throws(|a.transcribed|, |a.music|)
    ensures r.Failure? ==> r.error == IndexOutOfBounds
    ensures r.Success? ==>
      r.value.computed && Alignment.SameNotes(r.value, a) && LegacyBacktrace(a).Success? &&
      r.value.secondsPerBeat ==
        Alignment.MedianTempo(LegacyTempoSamples(LegacyBacktrace(a).value), a.secondsPerBeat)
    decreases 1
  {
    LegacyBacktraceOutcome(a);
    match LegacyGetAlignment(a)
    case Failure(e) => Failure(e)
    case Success((b, pairs)) =>
      Success(b.(secondsPerBeat := Alignment.MedianTempo(LegacyTempoSamples(pairs), b.secondsPerBeat)))
  }

  /** updateAlignment: append the notes not seen yet, recompute, re-estimate the tempo. */
  function LegacyUpdateAlignment(a: Alignment.Aligner, notes: seq<TranscribedNote>): (r: Result<Alignment.Aligner>)
    ensures var n := if a.last < |notes| then |a.transcribed| + |notes| - a.last else |a.transcribed|;
      r.Success? <==> !Throws(n, |a.music|)
    ensures r.Success? && a.last <= |notes| ==>
      r.value.transcribed == a.transcribed + notes[a.last..] && r.value.last == |notes|
    ensures r.Success? && a.last > |notes| ==> r.value.transcribed == a.transcribed && r.value.last == a.last
    ensures r.Success? ==> r.value.music == a.music && r.value.basePitch == a.basePitch
  {
    var appended := if a.last < |notes| then a.(transcribed := a.transcribed + notes[a.last..], last := |notes|) else a;
    LegacyEstimateTempo(Alignment.ComputeAlignment(appended))
  }
}
