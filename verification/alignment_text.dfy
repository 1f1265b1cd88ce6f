/** NoteAlignment.getStringRepresentation: the score's note names on a top line, one
    four-character cell per pair, a newline, and below them the nearest note name of each
    transcribed pitch. */
module AlignmentText {
  import opened Results
  import opened Notes
  import NoteTable

  const Blank: string := "    "

  /** String.format("%4s", s): right-aligned in a field of four, never truncated. */
  function PadLeft4(s: string): (r: string)
    ensures |s| >= 4 ==> r == s
    ensures |s| < 4 ==> |r| == 4 && r[4 - |s|..] == s
    ensures forall i :: 0 <= i < |r| - |s| ==> r[i] == ' '
  {
    if |s| >= 4 then s else Blank[..4 - |s|] + s
  }

  /** How String.format prints a possibly-null string. */
  function Shown(s: Option<string>): string {
    match s
    case None => "null"
    case Some(v) => v
  }

  /** Concatenation of a list of cells, in order. */
  function Join(cells: seq<string>): string {
    if cells == [] then "" else cells[0] + Join(cells[1..])
  }

  /** When every cell is four characters wide, the joined line is 4 * n long and its i-th
      block of four is cell i. */
  lemma {:induction false} JoinBlocks(cells: seq<string>)
    requires forall i :: 0 <= i < |cells| ==> |cells[i]| == 4
    ensures |Join(cells)| == 4 * |cells|
    ensures forall i :: 0 <= i < |cells| ==> Join(cells)[4 * i..4 * i + 4] == cells[i]
  {
    if cells != [] {
      JoinBlocks(cells[1..]);
      var rest := Join(cells[1..]);
      assert Join(cells) == cells[0] + rest;
      forall i | 0 <= i < |cells|
        ensures Join(cells)[4 * i..4 * i + 4] == cells[i]
      {
        if i > 0 {
          assert Join(cells)[4 * i..4 * i + 4] == rest[4 * (i - 1)..4 * (i - 1) + 4];
        }
      }
    }
  }

  /** The top cell of a pair: blank without a score note, else its name padded. */
  function TopCell(p: NotePair): string {
    if p.music.None? then Blank else PadLeft4(Shown(p.music.value.name))
  }

  /** The bottom cell of a pair: blank without a transcribed note, else the nearest note
      name of its pitch padded ("null" outside the table's range). */
  function BottomCell(basePitch: real, p: NotePair): string
    requires basePitch > 0.0
  {
    if p.transcribed.None? then Blank
    else
      NoteTable.BuildIncreasing(basePitch);
      PadLeft4(Shown(NoteTable.ClosestNote(NoteTable.Build(basePitch), p.transcribed.value.pitch)))
  }

  function TopCells(ps: seq<NotePair>): seq<string> {
    seq(|ps|, i requires 0 <= i < |ps| => TopCell(ps[i]))
  }

  function BottomCells(basePitch: real, ps: seq<NotePair>): seq<string>
    requires basePitch > 0.0
  {
    seq(|ps|, i requires 0 <= i < |ps| => BottomCell(basePitch, ps[i]))
  }

  /** getStringRepresentation: top line, newline, bottom line. */
  function StringRepresentation(basePitch: real, ps: seq<NotePair>): string
    requires basePitch > 0.0
  {
    Join(TopCells(ps)) + "\n" + Join(BottomCells(basePitch, ps))
  }

  /** Every name of the table has at most three characters. */
  lemma TableNamesShort(k: nat)
    requires k < NoteTable.TableSize
    ensures |NoteTable.NameAt(k)| <= 3
  {
    assert |NoteTable.OneOctaveNames[(k + 9) % 12]| <= 2;
  }

  /** Every bottom cell is exactly four characters wide: a blank, a padded table name, or
      "null". */
  lemma BottomCellWidth(basePitch: real, p: NotePair)
    requires basePitch > 0.0
    ensures |BottomCell(basePitch, p)| == 4
  {
    if p.transcribed.Some? {
      NoteTable.BuildIncreasing(basePitch);
      var t := NoteTable.Build(basePitch);
      var r := NoteTable.ClosestNote(t, p.transcribed.value.pitch);
      if r.Some? {
        var k :| NoteTable.Nearest(t.freqs, p.transcribed.value.pitch, k) && r.value == t.names[k];
        TableNamesShort(k);
      }
    }
  }

  /** Every cell of a row is four characters wide. */
  predicate FourWide(cells: seq<string>) {
    forall i :: 0 <= i < |cells| ==> |cells[i]| == 4
  }

  /** s is two rows of cells, each 4 * n characters, joined by a newline: the i-th block of
      four of the top line is top[i], of the bottom line bottom[i]. */
  predicate RowsLaidOut(s: string, top: seq<string>, bottom: seq<string>) {
    |top| == |bottom| && |s| == 8 * |top| + 1 && s[4 * |top|] == '\n' &&
    (forall i :: 0 <= i < |top| ==> s[4 * i..4 * i + 4] == top[i]) &&
    (forall i :: 0 <= i < |top| ==> s[4 * |top| + 1 + 4 * i..4 * |top| + 1 + 4 * i + 4] == bottom[i])
  }

  /** Layout of the rendering when every score name has at most four characters: pair i's
      top cell is the i-th block of four of the top line, its bottom cell that of the bottom
      line. */
  lemma StringRepresentationLayout(basePitch: real, ps: seq<NotePair>)
    requires basePitch > 0.0
    requires forall i :: 0 <= i < |ps| && ps[i].music.Some? ==> |Shown(ps[i].music.value.name)| <= 4
    ensures RowsLaidOut(StringRepresentation(basePitch, ps), TopCells(ps), BottomCells(basePitch, ps))
  {
    CellWidths(basePitch, ps);
    CellLines(TopCells(ps), BottomCells(basePitch, ps));
  }

  lemma CellWidths(basePitch: real, ps: seq<NotePair>)
    requires basePitch > 0.0
    requires forall i :: 0 <= i < |ps| && ps[i].music.Some? ==> |Shown(ps[i].music.value.name)| <= 4
    ensures FourWide(TopCells(ps)) && FourWide(BottomCells(basePitch, ps))
  {
    forall i | 0 <= i < |ps|
      ensures |TopCells(ps)[i]| == 4 && |BottomCells(basePitch, ps)[i]| == 4
    {
      BottomCellWidth(basePitch, ps[i]);
    }
  }

  /** Rows of four-character cells joined by a newline are laid out block by block. */
  lemma CellLines(top: seq<string>, bottom: seq<string>)
    requires |top| == |bottom| && FourWide(top) && FourWide(bottom)
    ensures RowsLaidOut(Join(top) + "\n" + Join(bottom), top, bottom)
  {
    JoinBlocks(top);
    JoinBlocks(bottom);
    TopBlocks(top, Join(bottom));
    BottomBlocks(Join(top), bottom);
  }

  lemma TopBlocks(top: seq<string>, b: string)
    requires FourWide(top) && |Join(top)| == 4 * |top|
    requires forall i :: 0 <= i < |top| ==> Join(top)[4 * i..4 * i + 4] == top[i]
    ensures forall i :: 0 <= i < |top| ==> (Join(top) + "\n" + b)[4 * i..4 * i + 4] == top[i]
  {
    var a := Join(top);
    forall i | 0 <= i < |top|
      ensures (a + "\n" + b)[4 * i..4 * i + 4] == top[i]
    {
      SliceLeft(a, "\n" + b, 4 * i, 4 * i + 4);
      assert a + "\n" + b == a + ("\n" + b);
    }
  }

  lemma BottomBlocks(a: string, bottom: seq<string>)
    requires FourWide(bottom) && |Join(bottom)| == 4 * |bottom| && |a| == 4 * |bottom|
    requires forall i :: 0 <= i < |bottom| ==> Join(bottom)[4 * i..4 * i + 4] == bottom[i]
    ensures forall i :: 0 <= i < |bottom| ==>
      (a + "\n" + Join(bottom))[4 * |bottom| + 1 + 4 * i..4 * |bottom| + 1 + 4 * i + 4] == bottom[i]
  {
    var b, m := Join(bottom), |bottom|;
    forall i | 0 <= i < m
      ensures (a + "\n" + b)[4 * m + 1 + 4 * i..4 * m + 1 + 4 * i + 4] == bottom[i]
    {
      SliceRight(a + "\n", b, 4 * i, 4 * i + 4);
    }
  }

  lemma SliceLeft(x: string, y: string, lo: int, hi: int)
    requires 0 <= lo <= hi <= |x|
    ensures (x + y)[lo..hi] == x[lo..hi]
  {
  }

  lemma SliceRight(x: string, y: string, lo: int, hi: int)
    requires 0 <= lo <= hi <= |y|
    ensures (x + y)[|x| + lo..|x| + hi] == y[lo..hi]
  {
  }

  /** What a top cell shows: blank without a score note, otherwise a name of at most four
      characters right-aligned in four. */
  lemma TopCellContents(p: NotePair)
    ensures p.music.None? ==> TopCell(p) == Blank
    ensures p.music.Some? && |Shown(p.music.value.name)| <= 4 ==>
      var n := Shown(p.music.value.name);
      |TopCell(p)| == 4 && TopCell(p)[4 - |n|..] == n &&
      forall i :: 0 <= i < 4 - |n| ==> TopCell(p)[i] == ' '
  {
  }

  /** What a bottom cell shows: blank without a transcribed note, "null" exactly when the
      pitch lies outside the table's range, and otherwise a table name nearest to the
      pitch, right-aligned in four. */
  lemma BottomCellContents(basePitch: real, p: NotePair)
    requires basePitch > 0.0
    ensures p.transcribed.None? ==> BottomCell(basePitch, p) == Blank
    ensures p.transcribed.Some? ==>
      var f := NoteTable.Build(basePitch).freqs;
      (p.transcribed.value.pitch < f[0] || p.transcribed.value.pitch > f[|f| - 1] <==>
       BottomCell(basePitch, p) == "null")
    ensures p.transcribed.Some? && BottomCell(basePitch, p) != "null" ==>
      exists k :: NoteTable.Nearest(NoteTable.Build(basePitch).freqs, p.transcribed.value.pitch, k) &&
        BottomCell(basePitch, p) == PadLeft4(NoteTable.Build(basePitch).names[k])
  {
    if p.transcribed.Some? {
      NoteTable.BuildIncreasing(basePitch);
      var t := NoteTable.Build(basePitch);
      var r := NoteTable.ClosestNote(t, p.transcribed.value.pitch);
      if r.Some? {
        var k :| NoteTable.Nearest(t.freqs, p.transcribed.value.pitch, k) && r.value == t.names[k];
        TableNamesShort(k);
        PadShortNotNull(r.value);
      }
    }
  }

  /** A name of at most three characters is padded with a leading blank, so it never
      prints as "null". */
  lemma PadShortNotNull(s: string)
    requires |s| <= 3
    ensures PadLeft4(s) != "null"
  {
    assert PadLeft4(s)[0] == ' ';
    assert "null"[0] == 'n';
  }
}
