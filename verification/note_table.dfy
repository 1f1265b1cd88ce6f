/** The equal-temperament note table of NoteUtil (duplicated verbatim in both
    SoundEngine classes): 87 named notes A0 .. B7, each frequency the previous one
    times an approximation of the twelfth root of two, anchored so that A4 is close to
    the base pitch. Includes the hand-rolled binary search for the nearest note. */
module NoteTable {
  import opened Results

  const OneOctaveNames: seq<string> := ["C", "C#", "D", "D#", "E", "F", "F#", "G", "G#", "A", "A#", "B"]
  /** The number of octaves the table spans, counted from octave 0. */
  const MaxOctave: nat := 8
  /** maxOctave * 12 - 9: the table starts at A, nine semitones above C. */
  const TableSize: nat := 87
  /** The double closest to 2^(1/12). */
  const Multiplier: real := 1.0594630943592953

  /** The note names and frequencies built for one base pitch (A4). */
  datatype Table = Table(basePitch: real, names: seq<string>, freqs: seq<real>)

  function Pow(x: real, k: nat): real {
    if k == 0 then 1.0 else Pow(x, k - 1) * x
  }

  /** Java's int-to-string conversion for a single decimal digit. */
  function DigitChar(d: nat): char
    requires d < 10
  {
    ('0' as int + d) as char
  }

  /** The name of table entry k: pitch class then octave digit. */
  function NameAt(k: nat): string
    requires k < TableSize
  {
    OneOctaveNames[(k + 9) % 12] + [DigitChar((k + 9) / 12)]
  }

  /** The frequency of table entry k: A0 is base / 16, then one multiplier per step. */
  function FreqAt(base: real, k: nat): real {
    base / 16.0 * Pow(Multiplier, k)
  }

  /** The table initializeNoteFrequencies(base) produces, in closed form. */
  function Build(base: real): (t: Table)
    ensures t.basePitch == base
    ensures |t.names| == TableSize && |t.freqs| == TableSize
    ensures t.freqs[0] == base / 16.0
    ensures forall k :: 0 <= k < TableSize - 1 ==> t.freqs[k + 1] == t.freqs[k] * Multiplier
    ensures t.names[0] == "A0" && t.names[48] == "A4" && t.names[86] == "B7"
  {
    Table(base,
          seq(TableSize, k requires 0 <= k < TableSize => NameAt(k)),
          seq(TableSize, k requires 0 <= k => FreqAt(base, k)))
  }

  /** NoteUtil.initializeNoteFrequencies: the while loop over octave and pitch class,
      appending one entry per iteration, fills exactly the closed-form table. */
  method InitializeNoteFrequencies(base: real) returns (t: Table)
    ensures t == Build(base)
  {
    var names: seq<string> := [];
    var freqs: seq<real> := [];
    var octave := 0;
    var currentPitch := base;
    currentPitch := currentPitch / 16.0;
    var currentNote := 9;
    var i := 0;
    while octave < 8
      invariant 0 <= currentNote < 12 && 0 <= octave <= 8
      invariant octave == 8 ==> currentNote == 0
      invariant 12 * octave + currentNote == i + 9
      invariant |names| == i && |freqs| == i
      invariant currentPitch == FreqAt(base, i)
      invariant forall k :: 0 <= k < i ==> names[k] == NameAt(k)
      invariant forall k :: 0 <= k < i ==> freqs[k] == FreqAt(base, k)
      decreases TableSize - i
    {
      NameAtParts(i, octave, currentNote);
      FreqStep(base, i);
      freqs := freqs + [currentPitch];
      names := names + [OneOctaveNames[currentNote] + [DigitChar(octave)]];
      currentPitch := currentPitch * Multiplier;
      i := i + 1;
      currentNote := currentNote + 1;
      if currentNote == |OneOctaveNames| {
        octave := octave + 1;
        currentNote := 0;
      }
    }
    t := Table(base, names, freqs);
    BuildUnique(base, t);
  }

  /** A table of the right size holding every entry's name and frequency is Build(base). */
  lemma BuildUnique(base: real, t: Table)
    requires t.basePitch == base && |t.names| == TableSize && |t.freqs| == TableSize
    requires forall k :: 0 <= k < TableSize ==> t.names[k] == NameAt(k)
    requires forall k :: 0 <= k < TableSize ==> t.freqs[k] == FreqAt(base, k)
    ensures t == Build(base)
  {
    var b := Build(base);
    assert t.names == b.names;
    assert t.freqs == b.freqs;
  }

  lemma FreqStep(base: real, i: nat)
    ensures FreqAt(base, i + 1) == FreqAt(base, i) * Multiplier
  {
    assert Pow(Multiplier, i + 1) == Pow(Multiplier, i) * Multiplier;
  }

  /** Octave and pitch class of entry i, as the loop counts them. */
  lemma NameAtParts(i: nat, octave: int, note: int)
    requires i < TableSize && 0 <= note < 12 && 12 * octave + note == i + 9
    ensures octave == (i + 9) / 12 && note == (i + 9) % 12
    ensures NameAt(i) == OneOctaveNames[note] + [DigitChar(octave)]
  {
  }

  predicate StrictlyIncreasing(f: seq<real>) {
    forall i, j :: 0 <= i < j < |f| ==> f[i] < f[j]
  }

  lemma {:induction false} PowPositive(k: nat)
    ensures Pow(Multiplier, k) > 0.0
  {
    if k > 0 {
      PowPositive(k - 1);
    }
  }

  lemma {:induction false} PowIncreasing(i: nat, j: nat)
    requires i < j
    ensures Pow(Multiplier, i) < Pow(Multiplier, j)
  {
    PowPositive(j - 1);
    if i < j - 1 {
      PowIncreasing(i, j - 1);
    }
  }

  /** With a positive base pitch the frequency array strictly increases with index. */
  lemma BuildIncreasing(base: real)
    requires base > 0.0
    ensures StrictlyIncreasing(Build(base).freqs)
  {
    var f := Build(base).freqs;
    forall i, j | 0 <= i < j < |f|
      ensures f[i] < f[j]
    {
      FreqIncreasing(base, i, j);
    }
  }

  lemma FreqIncreasing(base: real, i: nat, j: nat)
    requires base > 0.0 && i < j
    ensures FreqAt(base, i) < FreqAt(base, j)
  {
    PowIncreasing(i, j);
    ScaleStrict(base / 16.0, Pow(Multiplier, i), Pow(Multiplier, j));
  }

  /** With a positive base pitch every frequency of the table is positive. */
  lemma BuildPositive(base: real)
    requires base > 0.0
    ensures forall k :: 0 <= k < TableSize ==> Build(base).freqs[k] > 0.0
  {
    BuildIncreasing(base);
    var f := Build(base).freqs;
    forall k | 0 <= k < TableSize
      ensures f[k] > 0.0
    {
      assert f[0] == base / 16.0;
      assert 0 < k ==> f[0] < f[k];
    }
  }

  lemma ScaleStrict(a: real, p: real, q: real)
    requires a > 0.0 && p < q
    ensures a * p < a * q
  {
  }

  /** Recovers the pitch-class index from a one-octave name. */
  function ClassIndex(s: string): int {
    if s == "C" then 0 else if s == "C#" then 1 else if s == "D" then 2
    else if s == "D#" then 3 else if s == "E" then 4 else if s == "F" then 5
    else if s == "F#" then 6 else if s == "G" then 7 else if s == "G#" then 8
    else if s == "A" then 9 else if s == "A#" then 10 else if s == "B" then 11
    else -1
  }

  lemma ClassIndexInverts(c: nat)
    requires c < 12
    ensures ClassIndex(OneOctaveNames[c]) == c
  {
  }

  /** No two entries of the table share a name. */
  lemma NamesDistinct(i: nat, j: nat)
    requires i < TableSize && j < TableSize && i != j
    ensures NameAt(i) != NameAt(j)
  {
    var ci, cj := (i + 9) % 12, (j + 9) % 12;
    var oi, oj := (i + 9) / 12, (j + 9) / 12;
    var ni, nj := NameAt(i), NameAt(j);
    if oi != oj {
      assert ni[|ni| - 1] == DigitChar(oi);
      assert nj[|nj| - 1] == DigitChar(oj);
    } else {
      ClassIndexInverts(ci);
      ClassIndexInverts(cj);
      assert OneOctaveNames[ci] != OneOctaveNames[cj];
      assert ni[..|ni| - 1] == OneOctaveNames[ci];
      assert nj[..|nj| - 1] == OneOctaveNames[cj];
    }
  }

  /** The first index holding x, if any. */
  function IndexOf(s: seq<string>, x: string): (r: Option<nat>)
    ensures r.None? <==> x !in s
    ensures r.Some? ==> r.value < |s| && s[r.value] == x && forall j :: 0 <= j < r.value ==> s[j] != x
  {
    if s == [] then None
    else if s[0] == x then Some(0)
    else match IndexOf(s[1..], x)
      case None => None
      case Some(k) => Some(k + 1)
  }

  /** NoteUtil.getNoteFrequency: the frequency recorded for the name, or -1 when the
      name is not in the table (the hash map is modelled as a search of the names,
      which agrees with it because the names are distinct). */
  function GetNoteFrequency(t: Table, name: string): (r: real)
    requires |t.names| <= |t.freqs|
    ensures name !in t.names ==> r == -1.0
    ensures name in t.names ==> exists k :: 0 <= k < |t.names| && t.names[k] == name && r == t.freqs[k]
  {
    match IndexOf(t.names, name)
    case None => -1.0
    case Some(k) => t.freqs[k]
  }

  /** Round trip: looking a generated name up returns its own frequency. */
  lemma NoteFrequencyOfName(base: real, k: nat)
    requires k < TableSize
    ensures GetNoteFrequency(Build(base), NameAt(k)) == FreqAt(base, k)
  {
    var t := Build(base);
    assert t.names[k] == NameAt(k);
    forall j | 0 <= j < k
      ensures t.names[j] != NameAt(k)
    {
      NamesDistinct(j, k);
    }
  }

  function MinFrequency(t: Table): (r: real)
    requires |t.freqs| > 0
    ensures StrictlyIncreasing(t.freqs) ==> forall k :: 0 <= k < |t.freqs| ==> r <= t.freqs[k]
  {
    t.freqs[0]
  }

  function MaxFrequency(t: Table): (r: real)
    requires |t.freqs| > 0
    ensures StrictlyIncreasing(t.freqs) ==> forall k :: 0 <= k < |t.freqs| ==> t.freqs[k] <= r
  {
    t.freqs[|t.freqs| - 1]
  }

  /** The table a setBasePitch(freq) call installs, with its range. */
  lemma SetBasePitchRange(freq: real)
    requires freq > 0.0
    ensures MinFrequency(Build(freq)) == freq / 16.0
    ensures MinFrequency(Build(freq)) < MaxFrequency(Build(freq))
  {
    BuildIncreasing(freq);
  }

  // ---------------------------------------------------------------------------------
  // Nearest-note search
  // ---------------------------------------------------------------------------------

  function Dist(x: real, y: real): real {
    if x >= y then x - y else y - x
  }

  /** Entry k is at least as close to x as every other entry. */
  predicate Nearest(f: seq<real>, x: real, k: int) {
    0 <= k < |f| && forall j :: 0 <= j < |f| ==> Dist(x, f[k]) <= Dist(x, f[j])
  }

  /** Entry k is strictly closer to x than every other entry. */
  predicate StrictlyNearest(f: seq<real>, x: real, k: int) {
    0 <= k < |f| && forall j :: 0 <= j < |f| && j != k ==> Dist(x, f[k]) < Dist(x, f[j])
  }

  /** x is exactly midway between no two neighbouring entries. */
  predicate NotEquidistant(f: seq<real>, x: real) {
    forall k :: 0 <= k < |f| - 1 ==> x - f[k] != f[k + 1] - x
  }

  predicate InTableRange(f: seq<real>, x: real) {
    |f| > 0 && f[0] <= x <= f[|f| - 1]
  }

  /** The state of findClosestNote's while loop: the min, max and i variables, or the
      index it returned. */
  datatype Search = Searching(lo: int, hi: int, mid: int) | Found(index: int)

  /** The loop invariant: lo and hi bracket mid, x is not below entry lo, and when hi
      has been moved, x lies below entry hi and not past the midpoint before it. */
  predicate SearchInv(f: seq<real>, x: real, lo: int, hi: int, mid: int) {
    && 0 <= lo <= mid < hi <= |f|
    && mid == (lo + hi) / 2
    && f[lo] <= x
    && (hi < |f| ==> x < f[hi] && x + x <= f[hi - 1] + f[hi])
  }

  function StartSearch(f: seq<real>): Search {
    Searching(0, |f|, |f| / 2)
  }

  /** One iteration of findClosestNote's loop, as written. */
  function Step(f: seq<real>, x: real, lo: int, hi: int, mid: int): (s: Search)
    requires StrictlyIncreasing(f) && InTableRange(f, x) && SearchInv(f, x, lo, hi, mid)
    ensures s.Found? ==> StrictlyNearest(f, x, s.index)
    ensures s.Searching? ==> SearchInv(f, x, s.lo, s.hi, s.mid)
    ensures s.Searching? && NotEquidistant(f, x) ==> s.hi - s.lo < hi - lo
  {
    if x > f[mid] then
      if x - f[mid] < f[mid + 1] - x then
        assert StrictlyNearest(f, x, mid) by { NearestBelow(f, x, mid); }
        Found(mid)
      else
        Searching(mid, hi, (hi + mid) / 2)
    else if x < f[mid] then
      if f[mid] - x < x - f[mid - 1] then
        assert StrictlyNearest(f, x, mid) by { NearestAbove(f, x, mid); }
        Found(mid)
      else
        Searching(lo, mid, (mid + lo) / 2)
    else
      assert StrictlyNearest(f, x, mid) by { ExactIsStrictlyNearest(f, x, mid); }
      Found(mid)
  }

  lemma ExactIsStrictlyNearest(f: seq<real>, x: real, k: int)
    requires StrictlyIncreasing(f) && 0 <= k < |f| && f[k] == x
    ensures StrictlyNearest(f, x, k)
  {
    forall j | 0 <= j < |f| && j != k
      ensures Dist(x, f[k]) < Dist(x, f[j])
    {
      if j < k {
        assert f[j] < f[k];
      } else {
        assert f[k] < f[j];
      }
    }
  }

  /** x sits just above entry k and closer to it than to entry k + 1. */
  lemma NearestBelow(f: seq<real>, x: real, k: int)
    requires StrictlyIncreasing(f) && 0 <= k < |f| - 1
    requires f[k] <= x && x - f[k] <= f[k + 1] - x
    ensures Nearest(f, x, k)
    ensures x - f[k] < f[k + 1] - x ==> StrictlyNearest(f, x, k)
  {
    forall j | 0 <= j < |f|
      ensures Dist(x, f[k]) <= Dist(x, f[j])
      ensures j != k && x - f[k] < f[k + 1] - x ==> Dist(x, f[k]) < Dist(x, f[j])
    {
      if j > k + 1 {
        assert f[k + 1] < f[j];
      } else if j < k {
        assert f[j] < f[k];
      }
    }
  }

  /** x sits just below entry k and closer to it than to entry k - 1. */
  lemma NearestAbove(f: seq<real>, x: real, k: int)
    requires StrictlyIncreasing(f) && 0 < k < |f|
    requires x <= f[k] && f[k] - x <= x - f[k - 1]
    ensures Nearest(f, x, k)
    ensures f[k] - x < x - f[k - 1] ==> StrictlyNearest(f, x, k)
  {
    forall j | 0 <= j < |f|
      ensures Dist(x, f[k]) <= Dist(x, f[j])
      ensures j != k && f[k] - x < x - f[k - 1] ==> Dist(x, f[k]) < Dist(x, f[j])
    {
      if j < k - 1 {
        assert f[j] < f[k - 1];
      } else if j > k {
        assert f[k] < f[j];
      }
    }
  }

  /** The loop of findClosestNote, run until it returns. It only terminates when x is
      not exactly midway between two neighbours (see EquidistantNeverReturns). */
  function SearchFrom(f: seq<real>, x: real, lo: int, hi: int, mid: int): (k: int)
    requires StrictlyIncreasing(f) && InTableRange(f, x) && SearchInv(f, x, lo, hi, mid)
    requires NotEquidistant(f, x)
    ensures Nearest(f, x, k)
    decreases hi - lo
  {
    match Step(f, x, lo, hi, mid)
    case Found(k) => k
    case Searching(l, h, m) => SearchFrom(f, x, l, h, m)
  }

  /** NoteUtil.findClosestNote, as written: None (Java null) outside the table's range,
      otherwise the name of a nearest entry. */
  function FindClosestNote(t: Table, x: real): (r: Option<string>)
    requires |t.freqs| > 0 && |t.names| == |t.freqs|
    requires StrictlyIncreasing(t.freqs) && NotEquidistant(t.freqs, x)
    ensures r.None? <==> x > t.freqs[|t.freqs| - 1] || x < t.freqs[0]
    ensures r.Some? ==> exists k :: Nearest(t.freqs, x, k) && r.value == t.names[k]
  {
    if x > t.freqs[|t.freqs| - 1] || x < t.freqs[0] then None
    else
      var k := SearchFrom(t.freqs, x, 0, |t.freqs|, |t.freqs| / 2);
      Some(t.names[k])
  }

  /** A frequency equal to a table entry is named by that entry. */
  lemma FindClosestNoteExact(t: Table, k: nat)
    requires |t.freqs| > 0 && |t.names| == |t.freqs| && k < |t.freqs|
    requires StrictlyIncreasing(t.freqs) && NotEquidistant(t.freqs, t.freqs[k])
    ensures FindClosestNote(t, t.freqs[k]) == Some(t.names[k])
  {
    var f := t.freqs;
    var r := FindClosestNote(t, f[k]);
    assert k > 0 ==> f[0] < f[k];
    assert k < |f| - 1 ==> f[k] < f[|f| - 1];
    var j :| Nearest(f, f[k], j) && r.value == t.names[j];
    ExactIsStrictlyNearest(f, f[k], k);
    StrictlyNearestIsOnlyNearest(f, f[k], k, j);
  }

  lemma StrictlyNearestIsOnlyNearest(f: seq<real>, x: real, k: int, j: int)
    requires StrictlyNearest(f, x, k) && Nearest(f, x, j)
    ensures j == k
  {
    assert Dist(x, f[j]) <= Dist(x, f[k]);
  }

  /** Under the table's ordering, two nearest entries can only differ when x is
      exactly midway between neighbours. */
  lemma NearestUnique(f: seq<real>, x: real, i: int, j: int)
    requires StrictlyIncreasing(f) && NotEquidistant(f, x)
    requires Nearest(f, x, i) && Nearest(f, x, j)
    ensures i == j
  {
    if i < j {
      NearestPairAdjacent(f, x, i, j);
    } else if j < i {
      NearestPairAdjacent(f, x, j, i);
    }
  }

  /** Two distinct nearest entries are neighbours with x exactly between them. */
  lemma NearestPairAdjacent(f: seq<real>, x: real, i: int, j: int)
    requires StrictlyIncreasing(f)
    requires Nearest(f, x, i) && Nearest(f, x, j) && i < j
    ensures j == i + 1 && x - f[i] == f[i + 1] - x
  {
    assert f[i] < f[j];
    assert Dist(x, f[i]) == Dist(x, f[j]);
    assert x - f[i] == f[j] - x;
    assert Dist(x, f[i]) <= Dist(x, f[i + 1]);
  }

  /** Runs the as-written loop for n iterations. Once the frequency lies midway between
      two entries, the loop is still searching after any number of them. */
  function Iterate(f: seq<real>, x: real, s: Search, n: nat): (r: Search)
    requires StrictlyIncreasing(f) && InTableRange(f, x)
    requires s.Searching? ==> SearchInv(f, x, s.lo, s.hi, s.mid)
    ensures r.Searching? ==> SearchInv(f, x, r.lo, r.hi, r.mid)
    ensures s.Searching? && !NotEquidistant(f, x) ==> r.Searching?
    decreases n
  {
    if n == 0 || s.Found? then s
    else
      StepKeepsSearching(f, x, s.lo, s.hi, s.mid);
      Iterate(f, x, Step(f, x, s.lo, s.hi, s.mid), n - 1)
  }

  /** One iteration never returns for a frequency midway between two entries. */
  lemma StepKeepsSearching(f: seq<real>, x: real, lo: int, hi: int, mid: int)
    requires StrictlyIncreasing(f) && InTableRange(f, x) && SearchInv(f, x, lo, hi, mid)
    ensures !NotEquidistant(f, x) ==> Step(f, x, lo, hi, mid).Searching?
  {
    if !NotEquidistant(f, x) {
      var k :| 0 <= k < |f| - 1 && x - f[k] == f[k + 1] - x;
      EquidistantNeverReturns(f, x, k, lo, hi, mid);
    }
  }

  /** For a frequency exactly midway between entries k and k + 1, no iteration of the
      as-written loop ever returns, so findClosestNote never terminates. */
  lemma EquidistantNeverReturns(f: seq<real>, x: real, k: nat, lo: int, hi: int, mid: int)
    requires StrictlyIncreasing(f) && InTableRange(f, x) && SearchInv(f, x, lo, hi, mid)
    requires k < |f| - 1 && x - f[k] == f[k + 1] - x
    ensures Step(f, x, lo, hi, mid).Searching?
  {
    var s := Step(f, x, lo, hi, mid);
    if s.Found? {
      NoStrictlyNearest(f, x, k, s.index);
    }
  }

  /** Midway between entries k and k + 1, no entry is strictly nearest. */
  lemma NoStrictlyNearest(f: seq<real>, x: real, k: nat, i: int)
    requires StrictlyIncreasing(f) && k < |f| - 1 && x - f[k] == f[k + 1] - x
    ensures !StrictlyNearest(f, x, i)
  {
    if 0 <= i <= k {
      assert f[i] <= f[k];
      assert Dist(x, f[k + 1]) <= Dist(x, f[i]);
    } else if k + 1 <= i < |f| {
      assert f[k + 1] <= f[i];
      assert Dist(x, f[k]) <= Dist(x, f[i]);
    }
  }

  lemma EquidistantLoopsForever(f: seq<real>, x: real, k: nat, n: nat)
    requires StrictlyIncreasing(f) && InTableRange(f, x)
    requires k < |f| - 1 && x - f[k] == f[k + 1] - x
    ensures Iterate(f, x, StartSearch(f), n).Searching?
  {
    assert !NotEquidistant(f, x);
  }

  // ---------------------------------------------------------------------------------
  // Corrected search: a tie goes to the lower entry, so every in-range input returns
  // ---------------------------------------------------------------------------------

  function TieStep(f: seq<real>, x: real, lo: int, hi: int, mid: int): (s: Search)
    requires StrictlyIncreasing(f) && InTableRange(f, x) && SearchInv(f, x, lo, hi, mid)
    ensures s.Found? ==> Nearest(f, x, s.index)
    ensures s.Searching? ==> SearchInv(f, x, s.lo, s.hi, s.mid) && s.hi - s.lo < hi - lo
  {
    if x > f[mid] then
      if x - f[mid] <= f[mid + 1] - x then
        assert Nearest(f, x, mid) by { NearestBelow(f, x, mid); }
        Found(mid)
      else
        Searching(mid, hi, (hi + mid) / 2)
    else if x < f[mid] then
      if f[mid] - x < x - f[mid - 1] then
        assert Nearest(f, x, mid) by { NearestAbove(f, x, mid); }
        Found(mid)
      else
        Searching(lo, mid, (mid + lo) / 2)
    else
      assert Nearest(f, x, mid);
      Found(mid)
  }

  function TieSearchFrom(f: seq<real>, x: real, lo: int, hi: int, mid: int): (k: int)
    requires StrictlyIncreasing(f) && InTableRange(f, x) && SearchInv(f, x, lo, hi, mid)
    ensures Nearest(f, x, k)
    decreases hi - lo
  {
    match TieStep(f, x, lo, hi, mid)
    case Found(k) => k
    case Searching(l, h, m) => TieSearchFrom(f, x, l, h, m)
  }

  /** The nearest-note lookup with the equidistant case resolved toward the lower note;
      total on every frequency. */
  function ClosestNote(t: Table, x: real): (r: Option<string>)
    requires |t.freqs| > 0 && |t.names| == |t.freqs| && StrictlyIncreasing(t.freqs)
    ensures r.None? <==> x > t.freqs[|t.freqs| - 1] || x < t.freqs[0]
    ensures r.Some? ==> exists k :: Nearest(t.freqs, x, k) && r.value == t.names[k]
  {
    if x > t.freqs[|t.freqs| - 1] || x < t.freqs[0] then None
    else Some(t.names[TieSearchFrom(t.freqs, x, 0, |t.freqs|, |t.freqs| / 2)])
  }

  /** Wherever the as-written search terminates, the corrected one returns the same. */
  lemma ClosestNoteAgrees(t: Table, x: real)
    requires |t.freqs| > 0 && |t.names| == |t.freqs|
    requires StrictlyIncreasing(t.freqs) && NotEquidistant(t.freqs, x)
    ensures ClosestNote(t, x) == FindClosestNote(t, x)
  {
    var f := t.freqs;
    if !(x > f[|f| - 1] || x < f[0]) {
      var i := SearchFrom(f, x, 0, |f|, |f| / 2);
      var j := TieSearchFrom(f, x, 0, |f|, |f| / 2);
      NearestUnique(f, x, i, j);
    }
  }
}
