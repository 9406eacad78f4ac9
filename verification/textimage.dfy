/**
 * `QTextImage::parse` and its overloads (qtextimage.cpp:86-144, qtextimage.h:43-55,
 * 112-118) and `isValid` (qtextimage.cpp:146-148): the scanner's grid handed to
 * the classifier.
 */
module TextImage {
  import opened Options
  import opened Alphabet
  import opened Geometry
  import opened Scanner
  import opened ScannerFacts
  import opened Occurrences
  import opened Classifier
  import opened ClassifierFacts

  /**
   * The parsed image (`QTextImageData`): the grid's extent and its shapes. The
   * extent is a C `int`; only the as-written model ever puts a negative value there.
   */
  datatype Image = Image(rows: int, columns: int, components: seq<Component>)

  /** The image for ragged input: no extent, no shapes. */
  const Null: Image := Image(0, 0, [])

  /** `isValid`: both dimensions non-zero, so the grid has at least one cell. */
  function IsValid(img: Image): (r: bool)
    ensures r <==> img.rows * img.columns != 0
    ensures img == Null ==> !r
  {
    img.rows != 0 && img.columns != 0
  }

  /**
   * The parse with the ragged-input early return producing the empty image. A
   * scan that completes hands its occurrences to the classifier; the shapes are
   * well formed and come in alphabet order of their tags.
   */
  function Parse(text: seq<Byte>): (img: Image)
    ensures img.rows >= 0 && img.columns >= 0
    ensures forall c <- img.components :: WellFormed(c) && InAlphabet(c.glyph)
    ensures forall a, b :: 0 <= a < b < |img.components| ==>
              IndexOf(img.components[a].glyph) < IndexOf(img.components[b].glyph)
  {
    match Scan(text)
    case None => Null
    case Some(g) =>
      ScanObservationBounds(text);
      ClassifyOrdered(g.obs);
      Image(g.rows, g.columns, Classify(g.obs))
  }

  /**
   * The parse as written: the early return hands back a default-constructed
   * image whose `rows` and `columns` were never assigned. Whatever the memory
   * held is passed in as `staleRows` and `staleColumns`.
   */
  function ParseAsWritten(text: seq<Byte>, staleRows: int, staleColumns: int): (img: Image)
    ensures Scan(text).Some? ==> img == Parse(text)
    ensures Scan(text).None? ==> img.components == [] && img.rows == staleRows && img.columns == staleColumns
  {
    match Scan(text)
    case None => Image(staleRows, staleColumns, [])
    case Some(g) =>
      ScanObservationBounds(text);
      Image(g.rows, g.columns, Classify(g.obs))
  }

  /** A short ragged input: a one-column row followed by a two-column row. */
  const Ragged: seq<Byte> := "1\n11\n"

  /**
   * On ragged input the as-written result is valid or not depending on stale
   * memory, while the corrected parse is never valid.
   */
  lemma RaggedValidityIsIndeterminate()
    ensures Scan(Ragged).None?
    ensures IsValid(ParseAsWritten(Ragged, 1, 1)) && !IsValid(ParseAsWritten(Ragged, 0, 0))
    ensures !IsValid(Parse(Ragged))
  {
    var st1 := State(1, 1, 0, [Observation('1', Coord(0, 0))]);
    assert Run(Start, Ragged) == Run(st1, Ragged[2..]);
    var st2 := State(1, 1, 1, [Observation('1', Coord(0, 0)), Observation('1', Coord(0, 1))]);
    assert Run(st1, Ragged[2..]) == Run(st2, Ragged[3..]);
    var st3 := State(1, 1, 2, st2.obs + [Observation('1', Coord(1, 1))]);
    assert Run(st2, Ragged[3..]) == Run(st3, Ragged[4..]);
    assert Run(st3, Ragged[4..]) == None;
  }

  /** Rows that make a valid image: at least one, the first occupying a column, all as wide as the first. */
  predicate Rectangular(rows: seq<seq<Byte>>) {
    rows != [] && Width(rows[0]) != 0 && Uniform(rows, Width(rows[0]))
  }

  /**
   * An image is valid exactly when at least one row was completed, the first
   * completed row occupies a column, and every completed row is as wide as it.
   */
  lemma ParseValidIff(text: seq<Byte>)
    ensures IsValid(Parse(text)) <==> Rectangular(Completed(Split(text)))
  {
    ScanRowWidths(text);
  }

  /** When the end of input completes the last piece, every piece is a row. */
  lemma ParseValidComplete(text: seq<Byte>, rows: seq<seq<Byte>>)
    requires Split(text) == rows && Completed(rows) == rows
    ensures IsValid(Parse(text)) <==> Rectangular(rows)
  {
    ParseValidIff(text);
  }

  /** Empty input parses to an invalid image with no shapes. */
  lemma ParseEmpty()
    ensures Parse([]) == Null && !IsValid(Parse([]))
  {
    ClassifyEmptyIff([]);
  }

  /**
   * A scan that completes yields an image of the grid's extent whose components
   * are the per-glyph description of its occurrences, in alphabet order.
   */
  lemma ParseIsScene(text: seq<Byte>)
    requires Scan(text).Some?
    ensures var g := Scan(text).value;
            Parse(text) == Image(g.rows, g.columns, Scene(g.obs, 0))
  {
    ScanObservationBounds(text);
    ClassifyMatchesScene(Scan(text).value.obs);
  }

  /**
   * A scan that completes yields its grid's extent, and glyph `j` tags exactly the
   * component the per-glyph description gives it.
   */
  lemma ParseByGlyph(text: seq<Byte>, j: nat)
    requires j < Size && Scan(text).Some?
    ensures Recorded(Scan(text).value.obs)
    ensures Parse(text).rows == Scan(text).value.rows && Parse(text).columns == Scan(text).value.columns
    ensures TaggedWith(Parse(text).components, Glyph(j)) == Emitted(Scan(text).value.obs, j)
  {
    ScanObservationBounds(text);
    ClassifyByGlyph(Scan(text).value.obs, j);
  }

  // ---------------------------------------------------------------------------
  // The string overloads.

  /**
   * `QString::toLatin1` of one character. A `QString` holds UTF-16 code units and
   * each unit above 0xFF becomes '?', so a character outside the Basic
   * Multilingual Plane (two units) becomes two of them.
   */
  function Latin1Of(c: char): (r: seq<Byte>)
    ensures 1 <= |r| <= 2
    ensures forall b <- r :: b as int < 256
    ensures c as int < 256 <==> r == [c]
  {
    if c as int < 256 then [c]
    else if c as int < 0x1_0000 then ['?']
    else ['?', '?']
  }

  /** `QString::toLatin1`: character by character. */
  function ToLatin1(s: string): (r: seq<Byte>)
    ensures |s| <= |r| <= 2 * |s|
    ensures forall b <- r :: b as int < 256
    decreases |s|
  {
    if s == [] then [] else Latin1Of(s[0]) + ToLatin1(s[1..])
  }

  lemma {:induction false} ToLatin1Concat(a: string, b: string)
    ensures ToLatin1(a + b) == ToLatin1(a) + ToLatin1(b)
    decreases |a|
  {
    if a == [] {
      assert a + b == b;
    } else {
      assert ToLatin1(a + b) == Latin1Of(a[0]) + ToLatin1(a[1..] + b) by {
        assert (a + b)[0] == a[0] && (a + b)[1..] == a[1..] + b;
      }
      ToLatin1Concat(a[1..], b);
      Regroup(Latin1Of(a[0]), ToLatin1(a[1..]), ToLatin1(b));
    }
  }

  /** Latin-1 text converts to itself; anything else is changed. */
  lemma {:induction false} ToLatin1Identity(s: string)
    ensures ToLatin1(s) == s <==> forall c <- s :: c as int < 256
    decreases |s|
  {
    if s != [] {
      ToLatin1Identity(s[1..]);
      assert s == [s[0]] + s[1..];
      assert forall c <- s[1..] :: c in s;
      assert forall c <- s :: c == s[0] || c in s[1..];
      if s[0] as int < 256 {
        assert ToLatin1(s) == [s[0]] + ToLatin1(s[1..]);
      } else {
        assert ToLatin1(s)[0] == '?' != s[0];
        assert ToLatin1(s) != s && s[0] in s;
      }
    }
  }

  /** Conversion neither creates nor removes row separators. */
  lemma {:induction false} ToLatin1KeepsNewlines(s: string)
    ensures NL in ToLatin1(s) <==> NL in s
    decreases |s|
  {
    if s != [] {
      ToLatin1KeepsNewlines(s[1..]);
      assert s == [s[0]] + s[1..];
    }
  }

  /** Every character of `s` fits in one byte, so `toLatin1` leaves it alone. */
  predicate Latin1(s: string) {
    forall i | 0 <= i < |s| :: s[i] as int < 256
  }

  /** `parse(const QString &)`: the Latin-1 bytes of the text. */
  function ParseString(text: string): (img: Image)
    ensures Latin1(text) ==> img == Parse(text)
  {
    ToLatin1Identity(text);
    Parse(ToLatin1(text))
  }

  /** `QStringList::join('\n')`: the lines with a '\n' between each two. */
  function JoinLines(lines: seq<string>): (r: string)
    ensures |lines| >= 1 ==> |r| == TotalLength(lines) + |lines| - 1
    decreases |lines|
  {
    if |lines| == 0 then []
    else if |lines| == 1 then lines[0]
    else lines[0] + ['\n'] + JoinLines(lines[1..])
  }

  /** The number of characters in all the lines together. */
  function TotalLength(lines: seq<string>): nat
    decreases |lines|
  {
    if lines == [] then 0 else |lines[0]| + TotalLength(lines[1..])
  }

  /**
   * `parse(const QStringList &)`: the lines joined with '\n', then converted. A
   * list of Latin-1 strings parses as the bytes of its lines joined with '\n'.
   */
  function ParseList(lines: seq<string>): (img: Image)
    ensures (forall k :: 0 <= k < |lines| ==> Latin1(lines[k])) ==> Latin1(JoinLines(lines)) && img == Parse(JoinLines(lines))
  {
    JoinKeepsLatin1(lines);
    ParseString(JoinLines(lines))
  }

  /** `JoinLatin1` as an implication, for use inside a function body. */
  lemma JoinKeepsLatin1(lines: seq<string>)
    ensures (forall k :: 0 <= k < |lines| ==> Latin1(lines[k])) ==> Latin1(JoinLines(lines))
  {
    if forall k :: 0 <= k < |lines| ==> Latin1(lines[k]) {
      JoinLatin1(lines);
    }
  }

  /** Joining Latin-1 lines adds only '\n', so the text stays Latin-1. */
  lemma {:induction false} JoinLatin1(lines: seq<string>)
    requires forall k :: 0 <= k < |lines| ==> Latin1(lines[k])
    ensures Latin1(JoinLines(lines))
    decreases |lines|
  {
    if |lines| > 1 {
      JoinLatin1(lines[1..]);
      assert forall k :: 0 <= k < |lines| - 1 ==> lines[1..][k] == lines[k + 1];
      assert JoinLines(lines) == lines[0] + ['\n'] + JoinLines(lines[1..]);
    }
  }

  /** Each string of a list converted on its own. */
  function ToLatin1All(lines: seq<string>): (r: seq<seq<Byte>>)
    ensures |r| == |lines|
    ensures forall k :: 0 <= k < |lines| ==> r[k] == ToLatin1(lines[k])
    decreases |lines|
  {
    if lines == [] then [] else [ToLatin1(lines[0])] + ToLatin1All(lines[1..])
  }

  /** Converting the joined text converts each line and keeps the separators. */
  lemma {:induction false} ToLatin1Join(lines: seq<string>)
    ensures ToLatin1(JoinLines(lines)) == Join(ToLatin1All(lines))
    decreases |lines|
  {
    if |lines| > 1 {
      var head, conv := ToLatin1(lines[0]), ToLatin1All(lines);
      assert conv[0] == head && conv[1..] == ToLatin1All(lines[1..]);
      ToLatin1Join(lines[1..]);
      ToLatin1Concat(lines[0] + ['\n'], JoinLines(lines[1..]));
      ToLatin1Concat(lines[0], ['\n']);
    }
  }

  /**
   * Each string of a list is one piece of the input: with no '\n' inside any
   * of them, the pieces the scanner sees are the converted strings, in order.
   */
  lemma ParseListRows(lines: seq<string>)
    requires |lines| >= 1 && forall l <- lines :: NL !in l
    ensures Split(ToLatin1(JoinLines(lines))) == ToLatin1All(lines)
  {
    var conv := ToLatin1All(lines);
    ToLatin1Join(lines);
    forall s <- conv ensures NL !in s {
      var k :| 0 <= k < |lines| && conv[k] == s;
      ToLatin1KeepsNewlines(lines[k]);
    }
    SplitJoin(conv);
  }

  /**
   * A list of strings, none holding '\n', the last ending in a cell: each string
   * is a row, and the image is valid exactly when all rows have the width of the
   * first and that width is not zero.
   */
  lemma ParseListValidIff(lines: seq<string>)
    requires |lines| >= 1 && forall l <- lines :: NL !in l
    requires Completes(ToLatin1(lines[|lines| - 1]))
    ensures IsValid(ParseList(lines)) <==> Rectangular(ToLatin1All(lines))
  {
    CompletedLines(lines);
    ParseValidComplete(ToLatin1(JoinLines(lines)), ToLatin1All(lines));
  }

  /** The pieces of a list whose last string ends in a cell are its converted strings, the last completing a row. */
  lemma CompletedLines(lines: seq<string>)
    requires |lines| >= 1 && forall l <- lines :: NL !in l
    requires Completes(ToLatin1(lines[|lines| - 1]))
    ensures Split(ToLatin1(JoinLines(lines))) == ToLatin1All(lines)
    ensures Completed(ToLatin1All(lines)) == ToLatin1All(lines)
  {
    LastConverted(lines);
    CompletedAll(ToLatin1All(lines));
    ParseListRows(lines);
  }

  /** The last converted string is the conversion of the last string. */
  lemma LastConverted(lines: seq<string>)
    requires |lines| >= 1
    ensures ToLatin1All(lines)[|lines| - 1] == ToLatin1(lines[|lines| - 1])
  {
  }

  // ---------------------------------------------------------------------------
  // The two loops of `parse`, as imperative code.

  /**
   * The byte loop of `parse` (qtextimage.cpp:88-107). `ok` is false when it
   * returns early on a row of the wrong width.
   */
  method ScanLoop(text: seq<Byte>) returns (ok: bool, g: Grid)
    ensures ok <==> Scan(text).Some?
    ensures ok ==> Scan(text) == Some(g)
  {
    var row, columns, column := 0, 0, 0;
    var obs: seq<Observation> := [];
    var i := 0;
    while i != |text|
      invariant 0 <= i <= |text|
      invariant Run(Start, text) == Run(State(row, columns, column, obs), text[i..])
    {
      var b := text[i];
      var st := State(row, columns, column, obs);
      assert text[i..][0] == b && text[i..][1..] == text[i + 1..];
      if b != NL && IsSpace(b) {
        i := i + 1;
        continue;
      }
      if b != NL {
        if InAlphabet(b) {
          obs := obs + [Observation(b, Coord(column, row))];
        }
        column := column + 1;
      }
      if b == NL || (i == |text| - 1 && column != 0) {
        if row == 0 {
          columns := column;
        } else if column != columns {
          assert Step(st, b, i == |text| - 1) == None;
          return false, Grid(0, 0, []);
        }
        column := 0;
        row := row + 1;
      }
      assert Step(st, b, i == |text| - 1) == Some(State(row, columns, column, obs));
      i := i + 1;
    }
    return true, Grid(row, columns, obs);
  }

  /** The glyph loop of `parse` (qtextimage.cpp:112-142), one `Visit` per glyph. */
  method ClassifyLoop(obs: seq<Observation>) returns (cs: seq<Component>)
    requires Recorded(obs)
    ensures cs == Classify(obs)
  {
    var pass := Pass(Component(Sentinel, Polygon, []), []);
    var k := 0;
    while k != Size
      invariant k <= Size && Ready(obs, k, pass)
      invariant Classify(obs) == ClassifyFrom(obs, k, pass)
      decreases Size - k
    {
      pass := Visit(obs, k, pass);
      k := k + 1;
    }
    cs := pass.out;
  }

  /** `QTextImage::parse(const QByteArray &)`: the byte loop, then the glyph loop. */
  method ParseLoop(text: seq<Byte>) returns (img: Image)
    ensures img == Parse(text)
  {
    var ok, g := ScanLoop(text);
    if !ok {
      return Null;
    }
    ScanObservationBounds(text);
    var cs := ClassifyLoop(g.obs);
    img := Image(g.rows, g.columns, cs);
  }
}
