/** The three line-oriented readers: TranscribedNote.readNotesFromFile, MusicNote.readNotesFromFile
    and SheetMusic.readFromFile. A file is a list of lines; a line that starts with a
    known key sets that key's value to the text after the first ": " (parsed as a double
    for numeric keys), an empty line emits a note built from the values in force, and any
    other line is ignored. Reading the file (and its IOException) happens outside the
    model: the readers take the lines. Double.parseDouble is a parameter, None standing
    for its NumberFormatException. */
module ScoreFiles {
  import opened Results
  import opened Notes

  // ---------------------------------------------------------------------------------
  // String.split(": ") and the field after the key
  // ---------------------------------------------------------------------------------

  /** s holds the separator ": " at i. */
  predicate SepAt(s: string, i: int) {
    0 <= i < |s| - 1 && s[i] == ':' && s[i + 1] == ' '
  }

  predicate NoSep(s: string) {
    forall i :: 0 <= i < |s| - 1 ==> !(s[i] == ':' && s[i + 1] == ' ')
  }

  /** The pieces between the separators, scanning from the left, empty pieces included. */
  function Pieces(s: string): (ps: seq<string>)
    ensures |ps| >= 1
    decreases |s|
  {
    if SepAt(s, 0) then [""] + Pieces(s[2..])
    else if s == [] then [""]
    else
      var rest := Pieces(s[1..]);
      [[s[0]] + rest[0]] + rest[1..]
  }

  /** The pieces put back together with the separator between them. */
  function JoinSep(ps: seq<string>): string
    requires |ps| >= 1
  {
    if |ps| == 1 then ps[0] else ps[0] + ": " + JoinSep(ps[1..])
  }

  /** Splitting loses nothing: joining the pieces gives the string back. */
  lemma {:induction false} PiecesJoin(s: string)
    ensures JoinSep(Pieces(s)) == s
    decreases |s|
  {
    if SepAt(s, 0) {
      PiecesJoin(s[2..]);
      JoinSepCons("", Pieces(s[2..]));
      assert s == ": " + s[2..];
    } else if s != [] {
      PiecesJoin(s[1..]);
      JoinSepExtend(s[0], Pieces(s[1..]));
      assert s == [s[0]] + s[1..];
    }
  }

  lemma JoinSepCons(p: string, ps: seq<string>)
    requires |ps| >= 1
    ensures JoinSep([p] + ps) == p + ": " + JoinSep(ps)
  {
    assert ([p] + ps)[1..] == ps;
  }

  /** A character in front of the first piece is in front of the joined string. */
  lemma JoinSepExtend(c: char, ps: seq<string>)
    requires |ps| >= 1
    ensures JoinSep([[c] + ps[0]] + ps[1..]) == [c] + JoinSep(ps)
  {
    if |ps| > 1 {
      JoinSepCons([c] + ps[0], ps[1..]);
      JoinSepCons(ps[0], ps[1..]);
      assert ps == [ps[0]] + ps[1..];
      var tail := JoinSep(ps[1..]);
      Assoc([c], ps[0], ": ");
      Assoc([c], ps[0] + ": ", tail);
    }
  }

  lemma Assoc(x: string, y: string, z: string)
    ensures (x + y) + z == x + (y + z)
  {
  }

  /** A string without the separator is a single piece. */
  lemma {:induction false} PiecesOfNoSep(s: string)
    requires NoSep(s)
    ensures Pieces(s) == [s]
    decreases |s|
  {
    if s != [] {
      assert !SepAt(s, 0);
      PiecesOfNoSep(s[1..]);
      assert s == [s[0]] + s[1..];
    }
  }

  /** The first separator after a separator-free head splits off that head. */
  lemma {:induction false} PiecesOfHead(a: string, b: string)
    requires NoSep(a)
    ensures Pieces(a + ": " + b) == [a] + Pieces(b)
    decreases |a|
  {
    var s := a + ": " + b;
    if a == [] {
      assert s == ": " + b;
      assert SepAt(s, 0);
      assert s[2..] == b;
    } else {
      assert !SepAt(s, 0);
      assert s[1..] == a[1..] + ": " + b;
      PiecesOfHead(a[1..], b);
      assert [a[0]] + a[1..] == a;
    }
  }

  /** Splitting a join of separator-free pieces gives the pieces back. */
  lemma {:induction false} JoinPieces(ps: seq<string>)
    requires |ps| >= 1
    requires forall k :: 0 <= k < |ps| ==> NoSep(ps[k])
    ensures Pieces(JoinSep(ps)) == ps
    decreases |ps|
  {
    if |ps| == 1 {
      PiecesOfNoSep(ps[0]);
    } else {
      JoinPieces(ps[1..]);
      PiecesOfHead(ps[0], JoinSep(ps[1..]));
    }
  }

  /** The string has no separator exactly when it is a single piece. */
  lemma NoSepSinglePiece(s: string)
    ensures NoSep(s) <==> |Pieces(s)| == 1
  {
    if NoSep(s) {
      PiecesOfNoSep(s);
    } else {
      var i :| 0 <= i < |s| - 1 && s[i] == ':' && s[i + 1] == ' ';
      PiecesHoldSep(s, i);
    }
  }

  /** A separator anywhere makes at least two pieces. */
  lemma {:induction false} PiecesHoldSep(s: string, i: int)
    requires SepAt(s, i)
    ensures |Pieces(s)| >= 2
    decreases |s|
  {
    if !SepAt(s, 0) {
      assert SepAt(s[1..], i - 1);
      PiecesHoldSep(s[1..], i - 1);
    }
  }

  /** Java drops the empty pieces at the end of a split. */
  function DropTrailingEmpty(ps: seq<string>): (r: seq<string>)
    ensures |r| <= |ps| && r == ps[..|r|]
    ensures r == [] || r[|r| - 1] != ""
    ensures forall k :: |r| <= k < |ps| ==> ps[k] == ""
  {
    if ps == [] then []
    else if ps[|ps| - 1] == "" then DropTrailingEmpty(ps[..|ps| - 1])
    else ps
  }

  /** String.split(": "): the string itself when it holds no separator, else its pieces
      without the trailing empty ones. */
  function Split(s: string): seq<string> {
    if NoSep(s) then [s] else DropTrailingEmpty(Pieces(s))
  }

  /** line.split(": ")[1], which fails when the split has fewer than two pieces. */
  function Field(line: string): Result<string> {
    var ps := Split(line);
    if |ps| >= 2 then Success(ps[1]) else Failure(IndexOutOfBounds)
  }

  /** The field is the second piece, and there is one exactly when some piece after the
      first separator is not empty. */
  lemma FieldSpec(line: string)
    ensures Field(line).Success? <==> exists k :: 1 <= k < |Pieces(line)| && Pieces(line)[k] != ""
    ensures Field(line).Success? ==> Field(line).value == Pieces(line)[1]
    ensures Field(line).Failure? ==> Field(line).error == IndexOutOfBounds
  {
    var ps := Pieces(line);
    NoSepSinglePiece(line);
    if !NoSep(line) {
      var r := DropTrailingEmpty(ps);
      if exists k :: 1 <= k < |ps| && ps[k] != "" {
        var k :| 1 <= k < |ps| && ps[k] != "";
        assert |r| > k;
        assert r[1] == ps[1];
      }
    }
  }

  /** "key: value" reads as value when neither holds a separator and the value is not
      empty; with nothing after the separator the read fails. */
  lemma FieldOfKeyValue(key: string, v: string)
    requires key != "" && NoSep(key) && NoSep(v)
    ensures v != "" ==> Field(key + ": " + v) == Success(v)
    ensures v == "" ==> Field(key + ": " + v) == Failure(IndexOutOfBounds)
  {
    var s := key + ": " + v;
    PiecesOfHead(key, v);
    PiecesOfNoSep(v);
    assert SepAt(s, |key|);
    NoSepSinglePiece(s);
  }

  /** A line without the separator has no field. */
  lemma FieldOfBareKey(line: string)
    requires NoSep(line)
    ensures Field(line) == Failure(IndexOutOfBounds)
  {
  }

  // ---------------------------------------------------------------------------------
  // The line scanner shared by the three readers
  // ---------------------------------------------------------------------------------

  /** A key's value: null (a String never set), a string, or a double. */
  datatype Value = Null | Text(text: string) | Number(number: real)

  /** A line key, and whether its field is parsed as a double. */
  datatype Key = Key(prefix: string, numeric: bool)

  /** String.startsWith. */
  predicate StartsWith(s: string, prefix: string) {
    |prefix| <= |s| && s[..|prefix|] == prefix
  }

  /** The first key, from i on, that the line starts with (the if-else chain). */
  function KeyIndexFrom(keys: seq<Key>, line: string, i: nat): (k: int)
    requires i <= |keys|
    ensures k == -1 || i <= k < |keys|
    ensures k == -1 <==> forall a :: i <= a < |keys| ==> !StartsWith(line, keys[a].prefix)
    ensures k >= 0 ==> StartsWith(line, keys[k].prefix)
    ensures k >= 0 ==> forall a :: i <= a < k ==> !StartsWith(line, keys[a].prefix)
    decreases |keys| - i
  {
    if i == |keys| then -1
    else if StartsWith(line, keys[i].prefix) then i
    else KeyIndexFrom(keys, line, i + 1)
  }

  function KeyIndex(keys: seq<Key>, line: string): int {
    KeyIndexFrom(keys, line, 0)
  }

  /** The value a key line gives: its field, parsed for a numeric key. */
  function LineValue(parse: string -> Option<real>, key: Key, line: string): (r: Result<Value>)
    ensures r.Success? ==> Field(line).Success?
    ensures r.Success? && key.numeric ==>
      parse(Field(line).value).Some? && r.value == Number(parse(Field(line).value).value)
    ensures r.Success? && !key.numeric ==> r.value == Text(Field(line).value)
    ensures r.Failure? <==> Field(line).Failure? || (key.numeric && parse(Field(line).value).None?)
    ensures r.Failure? && Field(line).Failure? ==> r.error == IndexOutOfBounds
    ensures r.Failure? && Field(line).Success? ==> r.error == BadNumber
  {
    match Field(line)
    case Failure(e) => FieldSpec(line); Failure(e)
    case Success(f) =>
      if !key.numeric then Success(Text(f))
      else match parse(f)
        case None => Failure(BadNumber)
        case Some(x) => Success(Number(x))
  }

  /** The values in force and the value lists emitted so far, one per empty line. */
  datatype Scan = Scan(values: seq<Value>, blocks: seq<seq<Value>>)

  /** One turn of the reading loop. */
  function Step(parse: string -> Option<real>, keys: seq<Key>, st: Scan, line: string): (r: Result<Scan>)
    requires |st.values| == |keys|
    ensures r.Success? ==> |r.value.values| == |keys|
    ensures r.Success? ==> r.value.blocks == if line == "" then st.blocks + [st.values] else st.blocks
    ensures r.Failure? <==> Bad(parse, keys, line)
  {
    if line == "" then Success(Scan(st.values, st.blocks + [st.values]))
    else
      var k := KeyIndex(keys, line);
      if k == -1 then Success(st)
      else
        match LineValue(parse, keys[k], line)
        case Failure(e) => Failure(e)
        case Success(v) => Success(Scan(st.values[k := v], st.blocks))
  }

  function Init(lines: seq<string>): seq<string>
    requires lines != []
  {
    lines[..|lines| - 1]
  }

  function Last(lines: seq<string>): string
    requires lines != []
  {
    lines[|lines| - 1]
  }

  /** The reading loop over the lines in order, from the defaults; the first exception
      ends it. */
  function ScanLines(parse: string -> Option<real>, keys: seq<Key>, defaults: seq<Value>, lines: seq<string>)
    : (r: Result<Scan>)
    requires |defaults| == |keys|
    ensures r.Success? ==> |r.value.values| == |keys|
    ensures r.Success? ==> forall i :: 0 <= i < |r.value.blocks| ==> |r.value.blocks[i]| == |keys|
    ensures r.Failure? ==> r.error == IndexOutOfBounds || r.error == BadNumber
    decreases |lines|
  {
    if lines == [] then Success(Scan(defaults, []))
    else
      match ScanLines(parse, keys, defaults, Init(lines))
      case Failure(e) => Failure(e)
      case Success(st) => Step(parse, keys, st, Last(lines))
  }

  /** A line that makes the loop throw: a key line whose value cannot be read. */
  predicate Bad(parse: string -> Option<real>, keys: seq<Key>, line: string) {
    line != "" && KeyIndex(keys, line) != -1 && LineValue(parse, keys[KeyIndex(keys, line)], line).Failure?
  }

  /** The error of a bad line. */
  function LineError(parse: string -> Option<real>, keys: seq<Key>, line: string): Error
    requires Bad(parse, keys, line)
  {
    LineValue(parse, keys[KeyIndex(keys, line)], line).error
  }

  /** The number of empty lines. */
  function BlankCount(lines: seq<string>): (n: nat)
    ensures n <= |lines|
    decreases |lines|
  {
    if lines == [] then 0 else BlankCount(Init(lines)) + (if Last(lines) == "" then 1 else 0)
  }

  /** Reading fails exactly when some line is bad, and then with the first bad line's
      error. */
  lemma {:induction false} ScanFailure(parse: string -> Option<real>, keys: seq<Key>, defaults: seq<Value>, lines: seq<string>)
    requires |defaults| == |keys|
    ensures ScanLines(parse, keys, defaults, lines).Failure? <==>
      exists i :: 0 <= i < |lines| && Bad(parse, keys, lines[i])
    ensures ScanLines(parse, keys, defaults, lines).Failure? ==>
      exists i :: 0 <= i < |lines| && Bad(parse, keys, lines[i]) &&
        (forall j :: 0 <= j < i ==> !Bad(parse, keys, lines[j])) &&
        ScanLines(parse, keys, defaults, lines).error == LineError(parse, keys, lines[i])
    decreases |lines|
  {
    if lines != [] {
      var before := Init(lines);
      ScanFailure(parse, keys, defaults, before);
      if ScanLines(parse, keys, defaults, before).Success? {
        FailureAfterGood(parse, keys, defaults, lines);
      } else {
        FailureAfterBad(parse, keys, defaults, lines);
      }
    }
  }

  /** ScanFailure's step when every line before the last reads well. */
  lemma FailureAfterGood(parse: string -> Option<real>, keys: seq<Key>, defaults: seq<Value>, lines: seq<string>)
    requires |defaults| == |keys| && lines != []
    requires ScanLines(parse, keys, defaults, Init(lines)).Success?
    requires forall i :: 0 <= i < |Init(lines)| ==> !Bad(parse, keys, Init(lines)[i])
    ensures ScanLines(parse, keys, defaults, lines).Failure? <==>
      exists i :: 0 <= i < |lines| && Bad(parse, keys, lines[i])
    ensures ScanLines(parse, keys, defaults, lines).Failure? ==>
      exists i :: 0 <= i < |lines| && Bad(parse, keys, lines[i]) &&
        (forall j :: 0 <= j < i ==> !Bad(parse, keys, lines[j])) &&
        ScanLines(parse, keys, defaults, lines).error == LineError(parse, keys, lines[i])
  {
    var st := ScanLines(parse, keys, defaults, Init(lines)).value;
    var r := ScanLines(parse, keys, defaults, lines);
    assert r == Step(parse, keys, st, Last(lines));
    if Bad(parse, keys, Last(lines)) {
      GoodBeforeLast(parse, keys, lines);
      assert Step(parse, keys, st, Last(lines)).error == LineError(parse, keys, Last(lines));
    } else {
      GoodThroughLast(parse, keys, lines);
    }
  }

  /** The lines before the last are the lines of Init. */
  lemma GoodBeforeLast(parse: string -> Option<real>, keys: seq<Key>, lines: seq<string>)
    requires lines != []
    requires forall i :: 0 <= i < |Init(lines)| ==> !Bad(parse, keys, Init(lines)[i])
    ensures lines[|lines| - 1] == Last(lines)
    ensures forall j :: 0 <= j < |lines| - 1 ==> !Bad(parse, keys, lines[j])
  {
    forall j | 0 <= j < |lines| - 1
      ensures !Bad(parse, keys, lines[j])
    {
      assert lines[j] == Init(lines)[j];
    }
  }

  /** No line is bad when none before the last is and the last is not. */
  lemma GoodThroughLast(parse: string -> Option<real>, keys: seq<Key>, lines: seq<string>)
    requires lines != []
    requires forall i :: 0 <= i < |Init(lines)| ==> !Bad(parse, keys, Init(lines)[i])
    requires !Bad(parse, keys, Last(lines))
    ensures forall i :: 0 <= i < |lines| ==> !Bad(parse, keys, lines[i])
  {
    forall i | 0 <= i < |lines|
      ensures !Bad(parse, keys, lines[i])
    {
      if i < |lines| - 1 {
        assert lines[i] == Init(lines)[i];
      } else {
        assert lines[i] == Last(lines);
      }
    }
  }

  /** ScanFailure's step when the read already failed before the last line. */
  lemma FailureAfterBad(parse: string -> Option<real>, keys: seq<Key>, defaults: seq<Value>, lines: seq<string>)
    requires |defaults| == |keys| && lines != []
    requires ScanLines(parse, keys, defaults, Init(lines)).Failure?
    requires exists i :: (0 <= i < |Init(lines)| && Bad(parse, keys, Init(lines)[i]) &&
      (forall j :: 0 <= j < i ==> !Bad(parse, keys, Init(lines)[j])) &&
      ScanLines(parse, keys, defaults, Init(lines)).error == LineError(parse, keys, Init(lines)[i]))
    ensures ScanLines(parse, keys, defaults, lines).Failure?
    ensures exists i :: (0 <= i < |lines| && Bad(parse, keys, lines[i]) &&
      (forall j :: 0 <= j < i ==> !Bad(parse, keys, lines[j])) &&
      ScanLines(parse, keys, defaults, lines).error == LineError(parse, keys, lines[i]))
  {
    var before := Init(lines);
    var i :| 0 <= i < |before| && Bad(parse, keys, before[i]) &&
      (forall j :: 0 <= j < i ==> !Bad(parse, keys, before[j])) &&
      ScanLines(parse, keys, defaults, before).error == LineError(parse, keys, before[i]);
    assert forall j :: 0 <= j <= i ==> lines[j] == before[j];
    assert ScanLines(parse, keys, defaults, lines).error == ScanLines(parse, keys, defaults, before).error;
  }

  /** Every empty line adds one block, and nothing else does. */
  lemma {:induction false} ScanCount(parse: string -> Option<real>, keys: seq<Key>, defaults: seq<Value>, lines: seq<string>)
    requires |defaults| == |keys|
    requires ScanLines(parse, keys, defaults, lines).Success?
    ensures |ScanLines(parse, keys, defaults, lines).value.blocks| == BlankCount(lines)
    decreases |lines|
  {
    if lines != [] {
      ScanCount(parse, keys, defaults, Init(lines));
    }
  }

  /** Keys the reader can tell apart by the first character; then a line starts with at
      most one of them. */
  predicate DistinctInitials(keys: seq<Key>) {
    (forall k :: 0 <= k < |keys| ==> keys[k].prefix != "") &&
    (forall a, b :: 0 <= a < b < |keys| ==> keys[a].prefix[0] != keys[b].prefix[0])
  }

  lemma KeyIndexOfPrefix(keys: seq<Key>, line: string, k: int)
    requires DistinctInitials(keys) && 0 <= k < |keys|
    requires StartsWith(line, keys[k].prefix)
    ensures KeyIndex(keys, line) == k
  {
    var r := KeyIndex(keys, line);
    assert 0 <= r < |keys| && StartsWith(line, keys[r].prefix);
    assert line[0] == keys[r].prefix[0] == keys[k].prefix[0];
  }

  /** The reference for a value in force: what the last line starting with the key gave,
      or the default when no line does. */
  function LastValue(parse: string -> Option<real>, key: Key, default: Value, lines: seq<string>): Value
    decreases |lines|
  {
    if lines == [] then default
    else if Last(lines) != "" && StartsWith(Last(lines), key.prefix) then
      match LineValue(parse, key, Last(lines))
      case Success(v) => v
      case Failure(_) => default
    else LastValue(parse, key, default, Init(lines))
  }

  /** After any successful read, every key holds the value of its last line (the default
      without one): later lines win, and values persist across empty lines. */
  lemma {:induction false} ScanValues(parse: string -> Option<real>, keys: seq<Key>, defaults: seq<Value>, lines: seq<string>)
    requires |defaults| == |keys| && DistinctInitials(keys)
    requires ScanLines(parse, keys, defaults, lines).Success?
    ensures forall k :: 0 <= k < |keys| ==>
      ScanLines(parse, keys, defaults, lines).value.values[k] == LastValue(parse, keys[k], defaults[k], lines)
    decreases |lines|
  {
    if lines != [] {
      var line := Last(lines);
      ScanValues(parse, keys, defaults, Init(lines));
      if line != "" && KeyIndex(keys, line) != -1 {
        var kl := KeyIndex(keys, line);
        forall k | 0 <= k < |keys| && k != kl
          ensures !StartsWith(line, keys[k].prefix)
        {
          if StartsWith(line, keys[k].prefix) {
            KeyIndexOfPrefix(keys, line, k);
          }
        }
      }
    }
  }

  /** A successful read went through every line before the last one successfully. */
  lemma ScanLast(parse: string -> Option<real>, keys: seq<Key>, defaults: seq<Value>, lines: seq<string>)
    requires |defaults| == |keys| && lines != []
    requires ScanLines(parse, keys, defaults, lines).Success?
    ensures ScanLines(parse, keys, defaults, Init(lines)).Success?
    ensures ScanLines(parse, keys, defaults, lines) ==
      Step(parse, keys, ScanLines(parse, keys, defaults, Init(lines)).value, Last(lines))
  {
  }

  /** A successful read of some lines reads every prefix of them, and the blocks of the
      prefix begin the blocks of the whole. */
  lemma {:induction false} ScanPrefix(parse: string -> Option<real>, keys: seq<Key>, defaults: seq<Value>, lines: seq<string>, j: nat)
    requires |defaults| == |keys| && j <= |lines|
    requires ScanLines(parse, keys, defaults, lines).Success?
    ensures ScanLines(parse, keys, defaults, lines[..j]).Success?
    ensures |ScanLines(parse, keys, defaults, lines[..j]).value.blocks| <= |ScanLines(parse, keys, defaults, lines).value.blocks|
    ensures ScanLines(parse, keys, defaults, lines[..j]).value.blocks ==
      ScanLines(parse, keys, defaults, lines).value.blocks[..|ScanLines(parse, keys, defaults, lines[..j]).value.blocks|]
    decreases |lines|
  {
    if j < |lines| {
      ScanLast(parse, keys, defaults, lines);
      ScanPrefix(parse, keys, defaults, Init(lines), j);
      assert Init(lines)[..j] == lines[..j];
    } else {
      assert lines[..j] == lines;
    }
  }

  /** The empty line at j emits the values in force after the lines before it, as block
      number BlankCount(lines[..j]). */
  lemma ScanBlockAt(parse: string -> Option<real>, keys: seq<Key>, defaults: seq<Value>, lines: seq<string>, j: nat)
    requires |defaults| == |keys| && DistinctInitials(keys)
    requires ScanLines(parse, keys, defaults, lines).Success?
    requires j < |lines| && lines[j] == ""
    ensures BlankCount(lines[..j]) < |ScanLines(parse, keys, defaults, lines).value.blocks|
    ensures forall k :: 0 <= k < |keys| ==>
      ScanLines(parse, keys, defaults, lines).value.blocks[BlankCount(lines[..j])][k] ==
        LastValue(parse, keys[k], defaults[k], lines[..j])
  {
    var upTo := lines[..j + 1];
    ScanPrefix(parse, keys, defaults, lines, j + 1);
    assert Init(upTo) == lines[..j];
    assert Last(upTo) == "";
    ScanLast(parse, keys, defaults, upTo);
    var before := ScanLines(parse, keys, defaults, lines[..j]).value;
    var mid := ScanLines(parse, keys, defaults, upTo).value;
    var all := ScanLines(parse, keys, defaults, lines).value;
    assert mid.blocks == before.blocks + [before.values];
    ScanCount(parse, keys, defaults, lines[..j]);
    ScanValues(parse, keys, defaults, lines[..j]);
    var n := BlankCount(lines[..j]);
    assert mid.blocks[n] == before.values;
    assert all.blocks[n] == mid.blocks[n];
  }

  /** Lines after the last empty line emit nothing: a trailing block without an empty
      line after it is dropped. */
  lemma {:induction false} ScanTrailing(parse: string -> Option<real>, keys: seq<Key>, defaults: seq<Value>, lines: seq<string>, tail: seq<string>)
    requires |defaults| == |keys|
    requires forall i :: 0 <= i < |tail| ==> tail[i] != ""
    requires ScanLines(parse, keys, defaults, lines + tail).Success?
    ensures ScanLines(parse, keys, defaults, lines).Success?
    ensures ScanLines(parse, keys, defaults, lines + tail).value.blocks ==
      ScanLines(parse, keys, defaults, lines).value.blocks
    decreases |tail|
  {
    if tail == [] {
      assert lines + tail == lines;
    } else {
      TrailingStep(parse, keys, defaults, lines, tail);
      ScanTrailing(parse, keys, defaults, lines, Init(tail));
    }
  }

  /** One step of ScanTrailing: dropping a last line that is not empty keeps the blocks. */
  lemma TrailingStep(parse: string -> Option<real>, keys: seq<Key>, defaults: seq<Value>, lines: seq<string>, tail: seq<string>)
    requires |defaults| == |keys| && tail != [] && Last(tail) != ""
    requires ScanLines(parse, keys, defaults, lines + tail).Success?
    ensures ScanLines(parse, keys, defaults, lines + Init(tail)).Success?
    ensures ScanLines(parse, keys, defaults, lines + tail).value.blocks ==
      ScanLines(parse, keys, defaults, lines + Init(tail)).value.blocks
  {
    var all := lines + tail;
    assert Init(all) == lines + Init(tail);
    assert Last(all) == Last(tail);
    ScanLast(parse, keys, defaults, all);
  }

  // ---------------------------------------------------------------------------------
  // The three readers
  // ---------------------------------------------------------------------------------

  /** The keys of a transcription file, in the order the loop tests them. */
  const TranscribedKeys: seq<Key> := [Key("Pitch", true), Key("Onset", true), Key("End", true)]

  /** pitch, onset and end all start at 0.0. */
  const TranscribedDefaults: seq<Value> := [Number(0.0), Number(0.0), Number(0.0)]

  /** The double a value holds (every value of a numeric key is one). */
  function Real(v: Value): real {
    if v.Number? then v.number else 0.0
  }

  /** The note an empty line of a transcription file adds: no windows (-1), the onset,
      end and pitch in force. */
  function TranscribedOf(values: seq<Value>): TranscribedNote
    requires |values| == 3
  {
    TranscribedNote(-1, -1, Real(values[1]), Real(values[2]), Real(values[0]))
  }

  /** TranscribedNote.readNotesFromFile. */
  function ReadTranscribedNotes(parse: string -> Option<real>, lines: seq<string>): (r: Result<seq<TranscribedNote>>)
    ensures r.Failure? ==> r.error == IndexOutOfBounds || r.error == BadNumber
  {
    match ScanLines(parse, TranscribedKeys, TranscribedDefaults, lines)
    case Failure(e) => Failure(e)
    case Success(st) =>
      Success(seq(|st.blocks|, i requires 0 <= i < |st.blocks| =>
        TranscribedOf(st.blocks[i])))
  }

  /** The number the last line starting with `prefix` gave, 0.0 when none did. */
  function LastNumber(parse: string -> Option<real>, prefix: string, lines: seq<string>): real {
    Real(LastValue(parse, Key(prefix, true), Number(0.0), lines))
  }

  /** What a transcription file reads as: one note per empty line, in order, each with
      windows -1 and the onset, end and pitch of the last such lines before it (0.0 when
      there is none); the read fails exactly at a bad Pitch, Onset or End line. */
  lemma ReadTranscribedNotesSpec(parse: string -> Option<real>, lines: seq<string>, j: nat)
    ensures ReadTranscribedNotes(parse, lines).Failure? <==>
      exists i :: 0 <= i < |lines| && Bad(parse, TranscribedKeys, lines[i])
    ensures ReadTranscribedNotes(parse, lines).Success? ==>
      |ReadTranscribedNotes(parse, lines).value| == BlankCount(lines)
    ensures ReadTranscribedNotes(parse, lines).Success? && j < |lines| && lines[j] == "" ==>
      var before := lines[..j];
      BlankCount(before) < |ReadTranscribedNotes(parse, lines).value| &&
      ReadTranscribedNotes(parse, lines).value[BlankCount(before)] ==
        TranscribedNote(-1, -1, LastNumber(parse, "Onset", before), LastNumber(parse, "End", before),
          LastNumber(parse, "Pitch", before))
  {
    var keys, defaults := TranscribedKeys, TranscribedDefaults;
    ScanFailure(parse, keys, defaults, lines);
    if ScanLines(parse, keys, defaults, lines).Success? {
      ScanCount(parse, keys, defaults, lines);
      if j < |lines| && lines[j] == "" {
        TranscribedNoteAt(parse, lines, j);
      }
    }
  }

  lemma TranscribedKeysDistinct()
    ensures DistinctInitials(TranscribedKeys)
  {
    assert TranscribedKeys[0].prefix[0] == 'P';
    assert TranscribedKeys[1].prefix[0] == 'O';
    assert TranscribedKeys[2].prefix[0] == 'E';
  }

  /** The note the blank line j adds to a transcription read. */
  lemma TranscribedNoteAt(parse: string -> Option<real>, lines: seq<string>, j: nat)
    requires ScanLines(parse, TranscribedKeys, TranscribedDefaults, lines).Success?
    requires j < |lines| && lines[j] == ""
    ensures var blocks := ScanLines(parse, TranscribedKeys, TranscribedDefaults, lines).value.blocks;
      var before := lines[..j];
      BlankCount(before) < |blocks| &&
      blocks[BlankCount(before)][0] == LastValue(parse, Key("Pitch", true), Number(0.0), before) &&
      blocks[BlankCount(before)][1] == LastValue(parse, Key("Onset", true), Number(0.0), before) &&
      blocks[BlankCount(before)][2] == LastValue(parse, Key("End", true), Number(0.0), before)
  {
    var keys, defaults := TranscribedKeys, TranscribedDefaults;
    TranscribedKeysDistinct();
    ScanBlockAt(parse, keys, defaults, lines, j);
    assert keys[0] == Key("Pitch", true) && defaults[0] == Number(0.0);
    assert keys[1] == Key("Onset", true) && defaults[1] == Number(0.0);
    assert keys[2] == Key("End", true) && defaults[2] == Number(0.0);
  }

  /** The keys of a score file: Name is kept as text, Beats is parsed. */
  const MusicKeys: seq<Key> := [Key("Name", false), Key("Beats", true)]

  /** name starts as null, beats as 0.0. */
  const MusicDefaults: seq<Value> := [Null, Number(0.0)]

  /** The note an empty line of a score file adds. */
  function MusicOf(values: seq<Value>): MusicNote
    requires |values| == 2
  {
    MusicNote(if values[0].Text? then Some(values[0].text) else None, Real(values[1]))
  }

  /** MusicNote.readNotesFromFile. */
  function ReadMusicNotes(parse: string -> Option<real>, lines: seq<string>): (r: Result<seq<MusicNote>>)
    ensures r.Failure? ==> r.error == IndexOutOfBounds || r.error == BadNumber
  {
    match ScanLines(parse, MusicKeys, MusicDefaults, lines)
    case Failure(e) => Failure(e)
    case Success(st) =>
      Success(seq(|st.blocks|, i requires 0 <= i < |st.blocks| =>
        MusicOf(st.blocks[i])))
  }

  /** The name the last line starting with "Name" gave, None (null) when none did. */
  function LastName(parse: string -> Option<real>, lines: seq<string>): Option<string> {
    var v := LastValue(parse, Key("Name", false), Null, lines);
    if v.Text? then Some(v.text) else None
  }

  /** What a score file reads as: one note per empty line, in order, each with the name
      and beats of the last such lines before it (null and 0.0 when there is none); the
      read fails exactly at a Name line without a field or a bad Beats line. */
  lemma ReadMusicNotesSpec(parse: string -> Option<real>, lines: seq<string>, j: nat)
    ensures ReadMusicNotes(parse, lines).Failure? <==>
      exists i :: 0 <= i < |lines| && Bad(parse, MusicKeys, lines[i])
    ensures ReadMusicNotes(parse, lines).Success? ==>
      |ReadMusicNotes(parse, lines).value| == BlankCount(lines)
    ensures ReadMusicNotes(parse, lines).Success? && j < |lines| && lines[j] == "" ==>
      var before := lines[..j];
      BlankCount(before) < |ReadMusicNotes(parse, lines).value| &&
      ReadMusicNotes(parse, lines).value[BlankCount(before)] ==
        MusicNote(LastName(parse, before), LastNumber(parse, "Beats", before))
  {
    var keys, defaults := MusicKeys, MusicDefaults;
    ScanFailure(parse, keys, defaults, lines);
    if ScanLines(parse, keys, defaults, lines).Success? {
      ScanCount(parse, keys, defaults, lines);
      if j < |lines| && lines[j] == "" {
        MusicNoteAt(parse, lines, j);
      }
    }
  }

  lemma MusicKeysDistinct()
    ensures DistinctInitials(MusicKeys)
  {
    assert MusicKeys[0].prefix[0] == 'N';
    assert MusicKeys[1].prefix[0] == 'B';
  }

  /** The note the blank line j adds to a score read. */
  lemma MusicNoteAt(parse: string -> Option<real>, lines: seq<string>, j: nat)
    requires ScanLines(parse, MusicKeys, MusicDefaults, lines).Success?
    requires j < |lines| && lines[j] == ""
    ensures var blocks := ScanLines(parse, MusicKeys, MusicDefaults, lines).value.blocks;
      var before := lines[..j];
      BlankCount(before) < |blocks| &&
      blocks[BlankCount(before)][0] == LastValue(parse, Key("Name", false), Null, before) &&
      blocks[BlankCount(before)][1] == LastValue(parse, Key("Beats", true), Number(0.0), before)
  {
    var keys, defaults := MusicKeys, MusicDefaults;
    MusicKeysDistinct();
    ScanBlockAt(parse, keys, defaults, lines, j);
    assert keys[0] == Key("Name", false) && defaults[0] == Null;
    assert keys[1] == Key("Beats", true) && defaults[1] == Number(0.0);
  }

  /** A score: SheetMusic holds its notes, and getNotes returns them. */
  datatype SheetMusic = SheetMusic(notes: seq<MusicNote>)

  /** SheetMusic.readFromFile: the same loop as MusicNote.readNotesFromFile, wrapped. */
  function ReadSheetMusic(parse: string -> Option<real>, lines: seq<string>): (r: Result<SheetMusic>)
    ensures r.Success? <==> ReadMusicNotes(parse, lines).Success?
    ensures r.Success? ==> r.value.notes == ReadMusicNotes(parse, lines).value
    ensures r.Failure? ==> r.error == ReadMusicNotes(parse, lines).error
  {
    match ScanLines(parse, MusicKeys, MusicDefaults, lines)
    case Failure(e) => Failure(e)
    case Success(st) =>
      Success(SheetMusic(seq(|st.blocks|, i requires 0 <= i < |st.blocks| =>
        MusicOf(st.blocks[i]))))
  }

  /** Lines after the last empty line of a transcription file are lost. */
  lemma TranscribedTrailingDropped(parse: string -> Option<real>, lines: seq<string>, tail: seq<string>)
    requires forall i :: 0 <= i < |tail| ==> tail[i] != ""
    requires ReadTranscribedNotes(parse, lines + tail).Success?
    ensures ReadTranscribedNotes(parse, lines + tail) == ReadTranscribedNotes(parse, lines)
  {
    ScanTrailing(parse, TranscribedKeys, TranscribedDefaults, lines, tail);
  }

  /** Lines after the last empty line of a score file are lost. */
  lemma MusicTrailingDropped(parse: string -> Option<real>, lines: seq<string>, tail: seq<string>)
    requires forall i :: 0 <= i < |tail| ==> tail[i] != ""
    requires ReadMusicNotes(parse, lines + tail).Success?
    ensures ReadMusicNotes(parse, lines + tail) == ReadMusicNotes(parse, lines)
  {
    ScanTrailing(parse, MusicKeys, MusicDefaults, lines, tail);
  }
}
