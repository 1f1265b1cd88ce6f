/** The score aligner of the alignment package (alignment/NoteAligner): it aligns the
    notes transcribed so far with the notes of the score by the edit-distance grid of
    EditGrid, reads the grid back into a list of note pairs, and re-estimates the tempo
    as the median of the seconds-per-beat samples of consecutive aligned pairs. */
module Alignment {
  import opened Results
  import opened Notes
  import NoteTable
  import opened EditGrid
  import Median

  /** The codes computeAlignment stores in its byte grid. */
  const MusicNoteSkipped: int := 1
  const TranscribedNoteAdded: int := 2
  const NotesAligned: int := 3

  function Code(op: Op): int {
    match op
    case Skip => MusicNoteSkipped
    case Add => TranscribedNoteAdded
    case Align => NotesAligned
  }

  /** secondsPerBeat before any estimate exists. */
  const NoEstimate: real := -1.0

  /** The seconds per beat used when there is no estimate: 80 beats per minute. */
  const DefaultSecondsPerBeat: real := 0.75

  /** The aligner's fields. `computed` says whether a grid has been computed (the grid
      field is non-null); the grid itself is a function of the other fields and is
      recomputed wherever the source recomputes it. `basePitch` is the NoteUtil base
      pitch in force, which fixes the note table the align cost consults. */
  datatype Aligner = Aligner(
    music: seq<MusicNote>,
    transcribed: seq<TranscribedNote>,
    last: nat,
    secondsPerBeat: real,
    computed: bool,
    basePitch: real)

  /** The constructor: the score's notes, no transcribed notes, no tempo estimate. */
  function NewAligner(music: seq<MusicNote>, basePitch: real): (a: Aligner)
    ensures a.music == music && a.transcribed == [] && a.last == 0
    ensures a.secondsPerBeat == NoEstimate && !a.computed
  {
    Aligner(music, [], 0, NoEstimate, false, basePitch)
  }

  // ---------------------------------------------------------------------------------
  // Costs
  // ---------------------------------------------------------------------------------

  /** noteSkipCost: a score note costs its beats, five times over unless it lies ahead of
      a transcribed note other than the first. */
  function SkipCost(music: seq<MusicNote>, m: nat, t: nat): real
    requires m < |music|
  {
    var multiplier := if m > t && t != 0 then 1.0 else 5.0;
    multiplier * music[m].beats
  }

  /** noteAddCost: five times the note's duration in beats. */
  function AddCost(a: Aligner, t: nat): real
    requires t < |a.transcribed|
  {
    var denom := if a.secondsPerBeat == NoEstimate then DefaultSecondsPerBeat else a.secondsPerBeat;
    Quot(5.0 * Duration(a.transcribed[t]), denom)
  }

  /** NoteUtil.getNoteFrequency of a score note's name; a null name is not in the map. */
  function NotePitch(basePitch: real, name: Option<string>): real {
    match name
    case None => -1.0
    case Some(n) => NoteTable.GetNoteFrequency(NoteTable.Build(basePitch), n)
  }

  /** The relative error between the score's beats and the transcribed note's beats, the
      latter measured up to the next note's onset (or the note's own end for the last). */
  function DurationError(a: Aligner, t: nat, m: nat): real
    requires t < |a.transcribed| && m < |a.music|
  {
    var note := a.transcribed[t];
    var endTime := if t < |a.transcribed| - 1 then a.transcribed[t + 1].startTime else note.endTime;
    var transcribedBeats := Quot(endTime - note.startTime, a.secondsPerBeat);
    Quot(Abs(a.music[m].beats - transcribedBeats), a.music[m].beats)
  }

  /** noteAlignCost: the duration error once a tempo estimate exists, four times the
      relative pitch error, and |t - m| / 5 in integer division. */
  function AlignCost(a: Aligner, t: nat, m: nat): real
    requires t < |a.transcribed| && m < |a.music|
  {
    var durationTerm := if a.secondsPerBeat != NoEstimate then DurationError(a, t, m) else 0.0;
    var musicPitch := NotePitch(a.basePitch, a.music[m].name);
    var pitchTerm := Quot(Abs(musicPitch - a.transcribed[t].pitch), musicPitch);
    var indexTerm := (if t >= m then t - m else m - t) / 5;
    durationTerm + 4.0 * pitchTerm + indexTerm as real
  }

  /** The costs the aligner feeds the grid; indices outside the note lists never reach
      the grid and cost 0. Column 0 uses the row's own add cost. */
  function GridCosts(a: Aligner): Costs {
    var add := (t: nat) => if t < |a.transcribed| then AddCost(a, t) else 0.0;
    Costs(
      (m: nat, t: nat) => if m < |a.music| then SkipCost(a.music, m, t) else 0.0,
      add,
      add,
      (t: nat, m: nat) => if t < |a.transcribed| && m < |a.music| then AlignCost(a, t, m) else 0.0)
  }

  /** The preconditions under which every cost is non-negative: positive beats, names the
      table knows, a positive base pitch, non-negative durations and a positive (or no)
      tempo estimate. */
  ghost predicate SaneInput(a: Aligner) {
    a.basePitch > 0.0 &&
    (a.secondsPerBeat == NoEstimate || a.secondsPerBeat > 0.0) &&
    (forall m :: 0 <= m < |a.music| ==> a.music[m].beats > 0.0) &&
    (forall m :: 0 <= m < |a.music| ==>
       a.music[m].name.Some? && a.music[m].name.value in NoteTable.Build(a.basePitch).names) &&
    (forall t :: 0 <= t < |a.transcribed| ==> Duration(a.transcribed[t]) >= 0.0)
  }

  lemma NotePitchPositive(a: Aligner, m: nat)
    requires SaneInput(a) && m < |a.music|
    ensures NotePitch(a.basePitch, a.music[m].name) > 0.0
  {
    NoteTable.BuildPositive(a.basePitch);
  }

  /** Under sane input every cost of the grid is non-negative, so every cell costs at least
      0 and at least as much as the cell its move came from. */
  lemma CellCostsNonNegative(a: Aligner, t: nat, m: nat)
    requires SaneInput(a)
    ensures CellAt(GridCosts(a), t, m).cost >= 0.0
    ensures CellAt(GridCosts(a), t, m).op == Skip ==>
      CellAt(GridCosts(a), t, m).cost >= CellAt(GridCosts(a), t, m - 1).cost
    ensures CellAt(GridCosts(a), t, m).op == Add ==>
      CellAt(GridCosts(a), t, m).cost >= CellAt(GridCosts(a), t - 1, m).cost
    ensures CellAt(GridCosts(a), t, m).op == Align && t > 0 && m > 0 ==>
      CellAt(GridCosts(a), t, m).cost >= CellAt(GridCosts(a), t - 1, m - 1).cost
  {
    var c := GridCosts(a);
    forall i: nat, j: nat
      ensures c.skip(i, j) >= 0.0
    {
    }
    forall i: nat
      ensures c.add(i) >= 0.0 && c.edgeAdd(i) >= 0.0
    {
      if i < |a.transcribed| {
        var denom := if a.secondsPerBeat == NoEstimate then DefaultSecondsPerBeat else a.secondsPerBeat;
        QuotNonNegative(5.0 * Duration(a.transcribed[i]), denom);
      }
    }
    forall i: nat, j: nat
      ensures c.align(i, j) >= 0.0
    {
      if i < |a.transcribed| && j < |a.music| {
        AlignCostNonNegative(a, i, j);
      }
    }
    CellCostMonotone(c, t, m);
  }

  lemma AlignCostNonNegative(a: Aligner, t: nat, m: nat)
    requires SaneInput(a) && t < |a.transcribed| && m < |a.music|
    ensures AlignCost(a, t, m) >= 0.0
  {
    var musicPitch := NotePitch(a.basePitch, a.music[m].name);
    NotePitchPositive(a, m);
    QuotNonNegative(Abs(musicPitch - a.transcribed[t].pitch), musicPitch);
    if a.secondsPerBeat != NoEstimate {
      var note := a.transcribed[t];
      var endTime := if t < |a.transcribed| - 1 then a.transcribed[t + 1].startTime else note.endTime;
      var transcribedBeats := Quot(endTime - note.startTime, a.secondsPerBeat);
      QuotNonNegative(Abs(a.music[m].beats - transcribedBeats), a.music[m].beats);
    }
  }

  // ---------------------------------------------------------------------------------
  // Backtrace
  // ---------------------------------------------------------------------------------

  function Append(r: Result<seq<NotePair>>, p: NotePair): Result<seq<NotePair>> {
    match r
    case Success(ps) => Success(ps + [p])
    case Failure(e) => Failure(e)
  }

  /** The code the grid holds at (t, m). */
  function GridCode(a: Aligner): (nat, nat) -> int {
    (t: nat, m: nat) => Code(CellAt(GridCosts(a), t, m).op)
  }

  /** getAlignment's loops from cell (t, m) back to the top-left corner, reading the codes
      of a grid and building the pair list front to back: while both indices are
      non-negative, follow the code stored in the cell; then drain the remaining score
      notes, then the remaining transcribed notes (each drained in front of what is
      already built). */
  function Trace(codes: (nat, nat) -> int, ts: seq<TranscribedNote>, ms: seq<MusicNote>, t: int, m: int)
    : Result<seq<NotePair>>
    requires -1 <= t < |ts| && -1 <= m < |ms|
    decreases t + m + 2
  {
    if m >= 0 && t >= 0 then
      var code := codes(t, m);
      if code == NotesAligned then
        Append(Trace(codes, ts, ms, t - 1, m - 1), NotePair(Some(ts[t]), Some(ms[m])))
      else if code == TranscribedNoteAdded then
        Append(Trace(codes, ts, ms, t - 1, m), NotePair(Some(ts[t]), None))
      else if code == MusicNoteSkipped then
        Append(Trace(codes, ts, ms, t, m - 1), NotePair(None, Some(ms[m])))
      else
        Failure(InternalBug)
    else
      Success(AddedPairs(ts[..t + 1]) + SkippedPairs(ms[..m + 1]))
  }

  /** Every cell holds one of the three codes. */
  ghost predicate ValidCodes(codes: (nat, nat) -> int) {
    forall i: nat, j: nat :: MusicNoteSkipped <= codes(i, j) <= NotesAligned
  }

  lemma GridCodesValid(a: Aligner)
    ensures ValidCodes(GridCode(a))
  {
  }

  /** On a grid holding only the three codes, the backtrace returns every transcribed note
      up to t and every score note up to m exactly once and in order, and every pair has a
      side; so the "There's a bug somewhere" exception is never thrown. */
  lemma {:induction false} TraceComplete(
    codes: (nat, nat) -> int, ts: seq<TranscribedNote>, ms: seq<MusicNote>, t: int, m: int)
    requires ValidCodes(codes)
    requires -1 <= t < |ts| && -1 <= m < |ms|
    ensures Trace(codes, ts, ms, t, m).Success?
    ensures TranscribedSide(Trace(codes, ts, ms, t, m).value) == ts[..t + 1]
    ensures MusicSide(Trace(codes, ts, ms, t, m).value) == ms[..m + 1]
    ensures forall p :: p in Trace(codes, ts, ms, t, m).value ==> HasSide(p)
    decreases t + m + 2
  {
    if m >= 0 && t >= 0 {
      var code := codes(t, m);
      if code == NotesAligned {
        TraceComplete(codes, ts, ms, t - 1, m - 1);
        ExtendPairs(Trace(codes, ts, ms, t - 1, m - 1).value, NotePair(Some(ts[t]), Some(ms[m])));
        assert ts[..t + 1] == ts[..t] + [ts[t]];
        assert ms[..m + 1] == ms[..m] + [ms[m]];
      } else if code == TranscribedNoteAdded {
        TraceComplete(codes, ts, ms, t - 1, m);
        ExtendPairs(Trace(codes, ts, ms, t - 1, m).value, NotePair(Some(ts[t]), None));
        assert ts[..t + 1] == ts[..t] + [ts[t]];
      } else {
        assert code == MusicNoteSkipped;
        TraceComplete(codes, ts, ms, t, m - 1);
        ExtendPairs(Trace(codes, ts, ms, t, m - 1).value, NotePair(None, Some(ms[m])));
        assert ms[..m + 1] == ms[..m] + [ms[m]];
      }
    } else {
      var added, skipped := AddedPairs(ts[..t + 1]), SkippedPairs(ms[..m + 1]);
      AddedPairsSides(ts[..t + 1]);
      SkippedPairsSides(ms[..m + 1]);
      SidesAppend(added, skipped);
    }
  }

  /** From an interior cell, the last pair the backtrace emits is the cell's own move: an
      add emits the transcribed note alone, a skip the score note alone, an align both. */
  lemma TraceFollowsMove(a: Aligner, t: nat, m: nat)
    requires t < |a.transcribed| && m < |a.music|
    ensures var r := Trace(GridCode(a), a.transcribed, a.music, t, m);
      r.Success? && |r.value| > 0 &&
      r.value[|r.value| - 1] ==
        match CellAt(GridCosts(a), t, m).op
        case Add => NotePair(Some(a.transcribed[t]), None)
        case Skip => NotePair(None, Some(a.music[m]))
        case Align => NotePair(Some(a.transcribed[t]), Some(a.music[m]))
  {
    GridCodesValid(a);
    var ts, ms := a.transcribed, a.music;
    match CellAt(GridCosts(a), t, m).op
    case Add => TraceComplete(GridCode(a), ts, ms, t - 1, m);
    case Skip => TraceComplete(GridCode(a), ts, ms, t, m - 1);
    case Align => TraceComplete(GridCode(a), ts, ms, t - 1, m - 1);
  }

  /** Appending one pair appends its notes to the two sides. */
  lemma ExtendPairs(ps: seq<NotePair>, p: NotePair)
    ensures TranscribedSide(ps + [p]) ==
      TranscribedSide(ps) + (if p.transcribed.Some? then [p.transcribed.value] else [])
    ensures MusicSide(ps + [p]) == MusicSide(ps) + (if p.music.Some? then [p.music.value] else [])
  {
    SidesAppend(ps, [p]);
    assert [p][1..] == [];
  }

  /** The backtrace over the whole grid. */
  function Backtrace(a: Aligner): (r: seq<NotePair>)
    ensures TranscribedSide(r) == a.transcribed && MusicSide(r) == a.music
    ensures forall p :: p in r ==> HasSide(p)
  {
    GridCodesValid(a);
    TraceComplete(GridCode(a), a.transcribed, a.music, |a.transcribed| - 1, |a.music| - 1);
    assert a.transcribed[..|a.transcribed|] == a.transcribed;
    assert a.music[..|a.music|] == a.music;
    Trace(GridCode(a), a.transcribed, a.music, |a.transcribed| - 1, |a.music| - 1).value
  }

  /** A one-note score played as one note comes back as a single aligned pair: the corner
      cell always aligns and the backtrace follows it. */
  lemma SingleNotePaired(a: Aligner)
    requires |a.transcribed| == 1 && |a.music| == 1
    ensures Backtrace(a) == [NotePair(Some(a.transcribed[0]), Some(a.music[0]))]
  {
    EdgeCells(GridCosts(a), 0, 0);
    var ts, ms := a.transcribed, a.music;
    assert ts[..0] == [] && ms[..0] == [];
    assert AddedPairs([]) + SkippedPairs([]) == [];
    assert Trace(GridCode(a), ts, ms, -1, -1) == Success([]);
    assert Trace(GridCode(a), ts, ms, 0, 0) == Success([] + [NotePair(Some(ts[0]), Some(ms[0]))]);
  }

  // ---------------------------------------------------------------------------------
  // Tempo
  // ---------------------------------------------------------------------------------

  /** estimateTempo's scan: `beats` and `startTime` are the previous pair's score beats and
      onset, startTime == -1 meaning there is no usable previous pair. A pair missing
      either note resets it; a full pair after a usable one yields the sample
      (until(note) - previous onset) / previous beats, where `until` picks the time of the
      current note that closes the sample (its onset here, its end in the legacy aligner). */
  function TempoScan(ps: seq<NotePair>, until: TranscribedNote -> real, beats: real, startTime: real)
    : seq<real>
  {
    if ps == [] then []
    else
      var p := ps[0];
      if p.music.None? || p.transcribed.None? then
        TempoScan(ps[1..], until, beats, -1.0)
      else
        var sample := if startTime != -1.0 then [Quot(until(p.transcribed.value) - startTime, beats)] else [];
        sample + TempoScan(ps[1..], until, p.music.value.beats, p.transcribed.value.startTime)
  }

  /** The onset of a transcribed note, which closes a sample in this aligner. */
  const Onset: TranscribedNote -> real := (n: TranscribedNote) => n.startTime

  function TempoSamples(ps: seq<NotePair>): seq<real> {
    TempoScan(ps, Onset, -1.0, -1.0)
  }

  /** Reference definition: one sample for every two consecutive full pairs, from the
      first pair's onset to `until` of the second, over the first pair's beats. */
  function ConsecutiveSamples(ps: seq<NotePair>, until: TranscribedNote -> real): seq<real> {
    if |ps| < 2 then []
    else
      (if IsFull(ps[0]) && IsFull(ps[1])
       then [Quot(until(ps[1].transcribed.value) - ps[0].transcribed.value.startTime, ps[0].music.value.beats)]
       else [])
      + ConsecutiveSamples(ps[1..], until)
  }

  /** No transcribed onset equals the scan's -1 sentinel. */
  predicate NoSentinelOnset(ps: seq<NotePair>) {
    forall i :: 0 <= i < |ps| && ps[i].transcribed.Some? ==> ps[i].transcribed.value.startTime != -1.0
  }

  /** The scan takes exactly the consecutive-full-pair samples, onset to onset, provided
      no onset is -1. */
  lemma TempoSamplesConsecutive(ps: seq<NotePair>)
    requires NoSentinelOnset(ps)
    ensures TempoSamples(ps) == ConsecutiveSamples(ps, Onset)
  {
    ScanWithoutPrevious(ps, Onset, -1.0);
  }

  lemma {:induction false} ScanWithoutPrevious(ps: seq<NotePair>, until: TranscribedNote -> real, beats: real)
    requires NoSentinelOnset(ps)
    ensures TempoScan(ps, until, beats, -1.0) == ConsecutiveSamples(ps, until)
    decreases |ps|, 0
  {
    if ps != [] {
      var p := ps[0];
      assert NoSentinelOnset(ps[1..]);
      if p.music.None? || p.transcribed.None? {
        ScanWithoutPrevious(ps[1..], until, beats);
        if |ps| >= 2 {
          assert !IsFull(ps[0]);
        }
      } else {
        ScanAfter(ps[1..], until, p);
        assert [p] + ps[1..] == ps;
      }
    }
  }

  lemma {:induction false} ScanAfter(ps: seq<NotePair>, until: TranscribedNote -> real, q: NotePair)
    requires NoSentinelOnset(ps) && IsFull(q) && q.transcribed.value.startTime != -1.0
    ensures TempoScan(ps, until, q.music.value.beats, q.transcribed.value.startTime) ==
      ConsecutiveSamples([q] + ps, until)
    decreases |ps|, 1
  {
    var all := [q] + ps;
    if ps == [] {
    } else {
      var p := ps[0];
      assert all[1..] == ps;
      assert all[0] == q && all[1] == p;
      assert NoSentinelOnset(ps[1..]);
      if p.music.None? || p.transcribed.None? {
        ScanWithoutPrevious(ps[1..], until, q.music.value.beats);
        ScanWithoutPrevious(ps, until, q.music.value.beats);
      } else {
        ScanAfter(ps[1..], until, p);
        assert [p] + ps[1..] == ps;
      }
    }
  }

  /** The tempo after an estimate from a list of samples: unchanged with fewer than three,
      otherwise the median sample. */
  function MedianTempo(samples: seq<real>, secondsPerBeat: real): (r: real)
    ensures |samples| < 3 ==> r == secondsPerBeat
    ensures |samples| >= 3 ==>
      r in samples &&
      Median.CountBelow(samples, r) <= |samples| / 2 &&
      Median.CountAbove(samples, r) <= |samples| - 1 - |samples| / 2
  {
    if |samples| < 3 then secondsPerBeat
    else
      Median.MedianSplits(samples);
      Median.MedianOf(samples)
  }

  /** The tempo after an estimate from these pairs. */
  function EstimatedSecondsPerBeat(ps: seq<NotePair>, secondsPerBeat: real): real {
    MedianTempo(TempoSamples(ps), secondsPerBeat)
  }

  /** getBeatsPerMinute: 60 / secondsPerBeat (IEEE infinity on 0 is not modelled). */
  function BeatsPerMinute(a: Aligner): (bpm: real)
    ensures a.secondsPerBeat != 0.0 ==> bpm * a.secondsPerBeat == 60.0
  {
    Quot(60.0, a.secondsPerBeat)
  }

  // ---------------------------------------------------------------------------------
  // The public operations
  // ---------------------------------------------------------------------------------

  /** The same aligner with a grid computed from its current fields. */
  function ComputeAlignment(a: Aligner): (r: Aligner)
    ensures r.computed
    ensures r.music == a.music && r.transcribed == a.transcribed && r.last == a.last
    ensures r.secondsPerBeat == a.secondsPerBeat && r.basePitch == a.basePitch
  {
    a.(computed := true)
  }

  /** The fields getAlignment and estimateTempo never change. */
  predicate SameNotes(a: Aligner, b: Aligner) {
    a.music == b.music && a.transcribed == b.transcribed && a.last == b.last && a.basePitch == b.basePitch
  }

  /** getAlignment: on first use compute a grid and estimate the tempo (which itself reads
      the alignment back), then recompute the grid and read it back. */
  function GetAlignment(a: Aligner): (r: (Aligner, seq<NotePair>))
    ensures r.0.computed && SameNotes(r.0, a)
    ensures a.computed ==> r.0 == a
    ensures TranscribedSide(r.1) == a.transcribed && MusicSide(r.1) == a.music
    ensures forall p :: p in r.1 ==> HasSide(p)
    decreases if a.computed then 0 else 2
  {
    var ready := if a.computed then a else EstimateTempo(ComputeAlignment(a));
    var b := ComputeAlignment(ready);
    (b, Backtrace(b))
  }

  /** estimateTempo: read the alignment back and re-estimate secondsPerBeat from it. */
  function EstimateTempo(a: Aligner): (r: Aligner)
    requires a.computed
    ensures r.computed && SameNotes(r, a)
    ensures r.secondsPerBeat == EstimatedSecondsPerBeat(Backtrace(a), a.secondsPerBeat)
    decreases 1
  {
    var (b, pairs) := GetAlignment(a);
    b.(secondsPerBeat := EstimatedSecondsPerBeat(pairs, b.secondsPerBeat))
  }

  /** updateAlignment: append the notes not seen yet, recompute, re-estimate the tempo.
      When the list is shorter than the count already taken nothing is appended and the
      count is kept. */
  function UpdateAlignment(a: Aligner, notes: seq<TranscribedNote>): (r: Aligner)
    ensures a.last <= |notes| ==> r.transcribed == a.transcribed + notes[a.last..] && r.last == |notes|
    ensures a.last > |notes| ==> r.transcribed == a.transcribed && r.last == a.last
    ensures r.music == a.music && r.basePitch == a.basePitch && r.computed
  {
    var appended := if a.last < |notes| then a.(transcribed := a.transcribed + notes[a.last..], last := |notes|) else a;
    EstimateTempo(ComputeAlignment(appended))
  }

  /** Reading the alignment back twice in a row, with no update between, gives the same
      aligner and the same pairs. */
  lemma GetAlignmentIdempotent(a: Aligner)
    ensures GetAlignment(GetAlignment(a).0) == GetAlignment(a)
  {
  }
}
