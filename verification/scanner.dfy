/**
 * The grid scanner: the first loop of `QTextImage::parse` (qtextimage.cpp:88-107).
 *
 * `Run` walks the bytes one at a time exactly as the source loop does. `ScanSpec`
 * describes the same result row by row (the input split at '\n'), and
 * `ScanMatchesSpec` proves that the two agree on every input.
 */
module Scanner {
  import opened Options
  import opened Alphabet
  import opened Geometry

  /**
   * Latin-1 whitespace as `QChar::isSpace` classifies it: tab, line feed,
   * vertical tab, form feed, carriage return, space, NEL and no-break space.
   */
  predicate IsSpace(b: Byte) {
    b == ' ' || ('\t' <= b <= '\r') || b as int == 0x85 || b as int == 0xA0
  }

  /** A byte that occupies a grid column: anything but the row separator and other whitespace. */
  predicate TakesColumn(b: Byte) {
    b != NL && !IsSpace(b)
  }

  /** One recorded glyph occurrence at grid cell `at`. */
  datatype Observation = Observation(glyph: Byte, at: Coord)

  /** The loop's variables: `row`, `columns`, `column` and the recorded occurrences. */
  datatype State = State(row: nat, columns: nat, column: nat, obs: seq<Observation>)

  const Start: State := State(0, 0, 0, [])

  /**
   * Completing a row: the first row fixes the width; a later row of another
   * width stops the scan (`None`).
   */
  function Close(st: State): Option<State> {
    if st.row == 0 then Some(State(1, st.column, 0, st.obs))
    else if st.column != st.columns then None
    else Some(State(st.row + 1, st.columns, 0, st.obs))
  }

  /** One iteration of the loop; `last` says whether `b` is the final byte of the input. */
  function Step(st: State, b: Byte, last: bool): (r: Option<State>)
    ensures r.Some? ==> r.value.row >= st.row && st.obs <= r.value.obs && |r.value.obs| <= |st.obs| + 1
    ensures r.None? ==> (b == NL || last) && st.row != 0
  {
    if b != NL && IsSpace(b) then Some(st)
    else
      var obs := if b != NL && InAlphabet(b) then st.obs + [Observation(b, Coord(st.column, st.row))] else st.obs;
      var column := if b != NL then st.column + 1 else st.column;
      var next := State(st.row, st.columns, column, obs);
      if b == NL || (last && column != 0) then Close(next) else Some(next)
  }

  /** The loop over the remaining bytes `rest`. */
  function Run(st: State, rest: seq<Byte>): (r: Option<State>)
    ensures r.Some? ==> r.value.row >= st.row && st.obs <= r.value.obs && |r.value.obs| <= |st.obs| + |rest|
    decreases |rest|
  {
    if rest == [] then Some(st)
    else
      match Step(st, rest[0], |rest| == 1)
      case None => None
      case Some(st') => Run(st', rest[1..])
  }

  /** A scanned grid: its extent and the occurrences in scan order. */
  datatype Grid = Grid(rows: nat, columns: nat, obs: seq<Observation>)

  /** The scan of a whole input; `None` when the rows are ragged. */
  function Scan(text: seq<Byte>): (r: Option<Grid>)
    ensures r.Some? ==> |r.value.obs| <= |text|
    ensures text == [] ==> r == Some(Grid(0, 0, []))
  {
    match Run(Start, text)
    case None => None
    case Some(st) => Some(Grid(st.row, st.columns, st.obs))
  }

  // ---------------------------------------------------------------------------
  // The row-level description.

  /** The pieces of `t` between '\n' bytes; there is always at least one. */
  function Split(t: seq<Byte>): (segs: seq<seq<Byte>>)
    ensures |segs| >= 1
    ensures forall s <- segs :: NL !in s
    ensures t != [] ==> |segs| > 1 || segs[0] != []
    decreases |t|
  {
    if t == [] then [[]]
    else if t[0] == NL then [[]] + Split(t[1..])
    else
      var s := Split(t[1..]);
      [[t[0]] + s[0]] + s[1..]
  }

  /** The pieces glued back together with '\n' between neighbours. */
  function Join(segs: seq<seq<Byte>>): seq<Byte>
    decreases |segs|
  {
    if |segs| == 0 then []
    else if |segs| == 1 then segs[0]
    else segs[0] + [NL] + Join(segs[1..])
  }

  /** Splitting loses nothing: joining the pieces gives the input back. */
  lemma {:induction false} JoinSplit(t: seq<Byte>)
    ensures Join(Split(t)) == t
    decreases |t|
  {
    if t == [] {
    } else if t[0] == NL {
      JoinSplit(t[1..]);
      assert t == [NL] + t[1..];
    } else {
      var s := Split(t[1..]);
      JoinSplit(t[1..]);
      if |s| == 1 {
        assert t == [t[0]] + s[0];
      } else {
        assert Join(s) == s[0] + [NL] + Join(s[1..]);
        assert t == [t[0]] + t[1..];
        Regroup([t[0]], s[0], [NL]);
        Regroup([t[0]], s[0] + [NL], Join(s[1..]));
      }
    }
  }

  lemma {:induction false} SplitNoNewline(a: seq<Byte>)
    requires NL !in a
    ensures Split(a) == [a]
    decreases |a|
  {
    if a != [] {
      SplitNoNewline(a[1..]);
      assert a == [a[0]] + a[1..];
    }
  }

  lemma {:induction false} SplitAtNewline(a: seq<Byte>, rest: seq<Byte>)
    requires NL !in a
    ensures Split(a + [NL] + rest) == [a] + Split(rest)
    decreases |a|
  {
    var t := a + [NL] + rest;
    if a == [] {
      assert t == [NL] + rest;
      assert t[1..] == rest;
    } else {
      assert t[1..] == a[1..] + [NL] + rest;
      SplitAtNewline(a[1..], rest);
      assert [a[0]] + a[1..] == a;
    }
  }

  /** Joining newline-free pieces and splitting again gives the same pieces. */
  lemma {:induction false} SplitJoin(segs: seq<seq<Byte>>)
    requires |segs| >= 1
    requires forall s <- segs :: NL !in s
    ensures Split(Join(segs)) == segs
    decreases |segs|
  {
    if |segs| == 1 {
      SplitNoNewline(segs[0]);
    } else {
      assert forall s <- segs[1..] :: s in segs;
      SplitJoin(segs[1..]);
      SplitAtNewline(segs[0], Join(segs[1..]));
      assert segs == [segs[0]] + segs[1..];
    }
  }

  /** Number of columns a newline-free piece occupies. */
  function Width(seg: seq<Byte>): nat
    decreases |seg|
  {
    if seg == [] then 0
    else (if TakesColumn(seg[0]) then 1 else 0) + Width(seg[1..])
  }

  /**
   * The glyphs of one piece of row `r`, whose first byte is at column `c0`:
   * every recorded glyph lies in that row, within the columns the piece occupies.
   */
  function RowObs(seg: seq<Byte>, c0: nat, r: nat): (obs: seq<Observation>)
    ensures forall o <- obs :: InAlphabet(o.glyph) && o.at.y == r && c0 <= o.at.x < c0 + Width(seg)
    decreases |seg|
  {
    if seg == [] then []
    else if !TakesColumn(seg[0]) then RowObs(seg[1..], c0, r)
    else
      (if InAlphabet(seg[0]) then [Observation(seg[0], Coord(c0, r))] else [])
      + RowObs(seg[1..], c0 + 1, r)
  }

  /**
   * The glyphs of the pieces `segs`, the first being row `r0`: each lies in one of
   * those rows and within that row's width.
   */
  function ObsOfRows(segs: seq<seq<Byte>>, r0: nat): (obs: seq<Observation>)
    ensures forall o <- obs :: InAlphabet(o.glyph) && r0 <= o.at.y < r0 + |segs|
                                && 0 <= o.at.x < Width(segs[o.at.y - r0])
    decreases |segs|
  {
    if segs == [] then []
    else
      var rest := ObsOfRows(segs[1..], r0 + 1);
      assert forall o <- rest :: segs[1..][o.at.y - (r0 + 1)] == segs[o.at.y - r0];
      RowObs(segs[0], 0, r0) + rest
  }

  /**
   * Whether the final piece is completed by the end of input: it must end in a
   * byte that occupies a column (a trailing blank leaves the row open).
   */
  predicate Completes(seg: seq<Byte>) {
    seg != [] && TakesColumn(seg[|seg| - 1])
  }

  /**
   * The completed rows: every piece followed by '\n', plus the final piece when
   * the end of input completes it.
   */
  function Completed(segs: seq<seq<Byte>>): (done: seq<seq<Byte>>)
    requires |segs| >= 1
    ensures |segs| - 1 <= |done| <= |segs|
    ensures |done| == |segs| <==> Completes(segs[|segs| - 1])
    ensures forall j :: 0 <= j < |done| ==> done[j] == segs[j]
    decreases |segs|
  {
    if |segs| == 1 then (if Completes(segs[0]) then [segs[0]] else [])
    else [segs[0]] + Completed(segs[1..])
  }

  /** When the end of input completes the final piece, every piece is a row. */
  lemma CompletedAll(segs: seq<seq<Byte>>)
    requires |segs| >= 1 && Completes(segs[|segs| - 1])
    ensures Completed(segs) == segs
  {
  }

  predicate Uniform(rows: seq<seq<Byte>>, w: nat) {
    forall j :: 0 <= j < |rows| ==> Width(rows[j]) == w
  }

  /**
   * The scan described by rows: ragged exactly when some completed row differs
   * in width from the first; otherwise as many rows as were completed, as wide
   * as the first, with the glyphs of every piece (the open final piece included).
   */
  function ScanSpec(text: seq<Byte>): Option<Grid> {
    var segs := Split(text);
    var done := Completed(segs);
    if done == [] then Some(Grid(0, 0, ObsOfRows(segs, 0)))
    else if !Uniform(done, Width(done[0])) then None
    else Some(Grid(|done|, Width(done[0]), ObsOfRows(segs, 0)))
  }

  // ---------------------------------------------------------------------------
  // The byte loop agrees with the row-level description.

  /** Consuming a newline-free piece without completing its row. */
  function Advance(st: State, seg: seq<Byte>): State {
    State(st.row, st.columns, st.column + Width(seg), st.obs + RowObs(seg, st.column, st.row))
  }

  /** The loop seen one piece at a time. */
  function RunRows(st: State, segs: seq<seq<Byte>>): Option<State>
    requires |segs| >= 1
    decreases |segs|
  {
    var st1 := Advance(st, segs[0]);
    if |segs| == 1 then (if Completes(segs[0]) then Close(st1) else Some(st1))
    else
      match Close(st1)
      case None => None
      case Some(st2) => RunRows(st2, segs[1..])
  }

  lemma AdvanceByte(st: State, b: Byte, seg: seq<Byte>)
    ensures Advance(st, [b] + seg) == Advance(Advance(st, [b]), seg)
  {
    var t := [b] + seg;
    var w := if TakesColumn(b) then 1 else 0;
    var head := if TakesColumn(b) && InAlphabet(b) then [Observation(b, Coord(st.column, st.row))] else [];
    assert Width(t) == w + Width(seg) by { assert t[0] == b && t[1..] == seg; }
    assert RowObs(t, st.column, st.row) == head + RowObs(seg, st.column + w, st.row) by {
      assert t[0] == b && t[1..] == seg;
    }
    assert Width([b]) == w by { assert [b][1..] == []; }
    assert RowObs([b], st.column, st.row) == head by { assert [b][1..] == []; }
    var mid := State(st.row, st.columns, st.column + w, st.obs + head);
    assert Advance(st, [b]) == mid;
    assert Advance(mid, seg) == State(st.row, st.columns, st.column + w + Width(seg), st.obs + head + RowObs(seg, st.column + w, st.row));
    Regroup(st.obs, head, RowObs(seg, st.column + w, st.row));
  }

  /** Consuming one byte: a column-taking byte advances the column (recording it if it is a glyph). */
  lemma AdvanceSingle(st: State, b: Byte)
    ensures Advance(st, [b]) ==
      if !TakesColumn(b) then st
      else State(st.row, st.columns, st.column + 1,
                 if InAlphabet(b) then st.obs + [Observation(b, Coord(st.column, st.row))] else st.obs)
    ensures TakesColumn(b) ==> Step(st, b, false) == Some(Advance(st, [b]))
  {
    assert [b][0] == b && [b][1..] == [];
    assert Width([b]) == (if TakesColumn(b) then 1 else 0) + Width([]);
    var head := if TakesColumn(b) && InAlphabet(b) then [Observation(b, Coord(st.column, st.row))] else [];
    assert RowObs([b], st.column, st.row) == head + [];
    assert head + [] == head;
    assert st.obs + [] == st.obs;
  }

  /** `RunRows` sees its first piece only through `Advance` and `Completes`. */
  lemma RunRowsSameHead(st: State, x: seq<Byte>, st': State, y: seq<Byte>, rest: seq<seq<Byte>>)
    requires Advance(st, x) == Advance(st', y)
    requires rest == [] ==> (Completes(x) <==> Completes(y))
    ensures RunRows(st, [x] + rest) == RunRows(st', [y] + rest)
  {
    assert ([x] + rest)[0] == x && ([x] + rest)[1..] == rest;
    assert ([y] + rest)[0] == y && ([y] + rest)[1..] == rest;
  }

  /** The piece split off the front of `t` when `t` starts with a byte other than '\n'. */
  lemma SplitCons(t: seq<Byte>)
    requires t != [] && t[0] != NL
    ensures Split(t) == [[t[0]] + Split(t[1..])[0]] + Split(t[1..])[1..]
  {
  }

  /** Running byte by byte is running piece by piece. */
  lemma {:induction false} RunByRows(st: State, t: seq<Byte>)
    ensures Run(st, t) == RunRows(st, Split(t))
    decreases |t|
  {
    if t == [] {
      assert Advance(st, []) == st;
    } else if t[0] == NL {
      if Close(st).Some? {
        RunByRows(Close(st).value, t[1..]);
      }
      RunByRowsNewline(st, t);
    } else {
      var b := t[0];
      var s := Split(t[1..]);
      var st' := if IsSpace(b) then st else Advance(st, [b]);
      SplitCons(t);
      AdvanceByte(st, b, s[0]);
      AdvanceSingle(st, b);
      if IsSpace(b) {
        assert Run(st, t) == Run(st, t[1..]);
        RunByRows(st, t[1..]);
        assert |s| == 1 ==> s[0] != [] || t[1..] == [];
        RunRowsSameHead(st, [b] + s[0], st, s[0], s[1..]);
        assert [s[0]] + s[1..] == s;
      } else if |t| == 1 {
        RunByRowsLastByte(st, b);
        assert t == [b];
      } else {
        assert Run(st, t) == Run(st', t[1..]);
        RunByRows(st', t[1..]);
        RunRowsSameHead(st, [b] + s[0], st', s[0], s[1..]);
        assert [s[0]] + s[1..] == s;
      }
    }
  }

  lemma RunByRowsNewline(st: State, t: seq<Byte>)
    requires t != [] && t[0] == NL
    requires Close(st).Some? ==> Run(Close(st).value, t[1..]) == RunRows(Close(st).value, Split(t[1..]))
    ensures Run(st, t) == RunRows(st, Split(t))
  {
    var s := Split(t[1..]);
    assert Advance(st, []) == st;
    assert State(st.row, st.columns, st.column, st.obs) == st;
    assert Split(t) == [[]] + s;
    assert Split(t)[1..] == s;
  }

  lemma RunByRowsLastByte(st: State, b: Byte)
    requires TakesColumn(b)
    ensures Run(st, [b]) == RunRows(st, Split([b]))
  {
    assert [b][1..] == [];
    var none: seq<seq<Byte>> := [[]];
    assert Split([b]) == [[b] + none[0]] + none[1..];
    assert [b] + none[0] == [b];
    assert none[1..] == [];
    assert [[b]] + none[1..] == [[b]];
    AdvanceSingle(st, b);
    match Close(Advance(st, [b]))
    case None =>
    case Some(st2) => assert Run(st2, []) == Some(st2);
  }

  lemma UniformCons(x: seq<Byte>, rest: seq<seq<Byte>>, w: nat)
    ensures Uniform([x] + rest, w) <==> Width(x) == w && Uniform(rest, w)
  {
    var all := [x] + rest;
    if Width(x) == w && Uniform(rest, w) {
      forall j | 0 <= j < |all| ensures Width(all[j]) == w {
        if j > 0 { assert all[j] == rest[j - 1]; }
      }
    }
    if Uniform(all, w) {
      assert all[0] == x;
      forall j | 0 <= j < |rest| ensures Width(rest[j]) == w {
        assert rest[j] == all[j + 1];
      }
    }
  }

  /** What the rows from `st` on produce, when `st` is past the first row and at a row start. */
  function AfterFirst(st: State, segs: seq<seq<Byte>>): Option<State>
    requires |segs| >= 1
  {
    if !Uniform(Completed(segs), st.columns) then None
    else Some(State(st.row + |Completed(segs)|, st.columns,
                    if Completes(segs[|segs| - 1]) then 0 else Width(segs[|segs| - 1]),
                    st.obs + ObsOfRows(segs, st.row)))
  }

  /** After the first row, each completed row must match the width fixed by it. */
  lemma {:induction false} RowsAfterFirst(st: State, segs: seq<seq<Byte>>)
    requires |segs| >= 1 && st.row >= 1 && st.column == 0
    ensures RunRows(st, segs) == AfterFirst(st, segs)
    decreases |segs|
  {
    if |segs| == 1 {
      LastRowAfterFirst(st, segs);
    } else {
      var st1 := Advance(st, segs[0]);
      if Width(segs[0]) == st.columns {
        RowsAfterFirst(State(st.row + 1, st.columns, 0, st1.obs), segs[1..]);
      }
      NextRowAfterFirst(st, segs);
    }
  }

  lemma LastRowAfterFirst(st: State, segs: seq<seq<Byte>>)
    requires |segs| == 1 && st.row >= 1 && st.column == 0
    ensures RunRows(st, segs) == AfterFirst(st, segs)
  {
    ObsOfOneRow(segs, st.row);
    var st1 := Advance(st, segs[0]);
    assert st1 == State(st.row, st.columns, Width(segs[0]), st.obs + ObsOfRows(segs, st.row));
    if Completes(segs[0]) {
      UniformCons(segs[0], [], st.columns);
      assert Completed(segs) == [segs[0]] + [];
    } else {
      assert Completed(segs) == [];
    }
  }

  lemma NextRowAfterFirst(st: State, segs: seq<seq<Byte>>)
    requires |segs| > 1 && st.row >= 1 && st.column == 0
    requires var st1 := Advance(st, segs[0]);
      Width(segs[0]) == st.columns ==>
        RunRows(State(st.row + 1, st.columns, 0, st1.obs), segs[1..])
        == AfterFirst(State(st.row + 1, st.columns, 0, st1.obs), segs[1..])
    ensures RunRows(st, segs) == AfterFirst(st, segs)
  {
    var st1 := Advance(st, segs[0]);
    if Width(segs[0]) == st.columns {
      var st2 := State(st.row + 1, st.columns, 0, st1.obs);
      assert Close(st1) == Some(st2);
      assert RunRows(st, segs) == RunRows(st2, segs[1..]);
      AfterFirstCons(st, segs);
    } else {
      assert Close(st1) == None;
      assert Completed(segs) == [segs[0]] + Completed(segs[1..]);
      UniformCons(segs[0], Completed(segs[1..]), st.columns);
    }
  }

  /** A first row of the fixed width moves `AfterFirst` on to the next row. */
  lemma AfterFirstCons(st: State, segs: seq<seq<Byte>>)
    requires |segs| > 1 && Width(segs[0]) == st.columns
    ensures AfterFirst(State(st.row + 1, st.columns, 0, st.obs + RowObs(segs[0], 0, st.row)), segs[1..])
            == AfterFirst(st, segs)
  {
    var rest := Completed(segs[1..]);
    assert Completed(segs) == [segs[0]] + rest;
    UniformCons(segs[0], rest, st.columns);
    assert segs[1..][|segs[1..]| - 1] == segs[|segs| - 1];
    ObsOfRowsCons(segs, st.row);
    Regroup(st.obs, RowObs(segs[0], 0, st.row), ObsOfRows(segs[1..], st.row + 1));
  }

  /** The glyphs of the first row come before those of the rows after it. */
  lemma ObsOfRowsCons(segs: seq<seq<Byte>>, r: nat)
    requires segs != []
    ensures ObsOfRows(segs, r) == RowObs(segs[0], 0, r) + ObsOfRows(segs[1..], r + 1)
  {
  }

  lemma ObsOfOneRow(segs: seq<seq<Byte>>, r: nat)
    requires |segs| == 1
    ensures ObsOfRows(segs, r) == RowObs(segs[0], 0, r)
  {
    assert segs[1..] == [];
    assert ObsOfRows(segs, r) == RowObs(segs[0], 0, r) + ObsOfRows([], r + 1);
    assert RowObs(segs[0], 0, r) + [] == RowObs(segs[0], 0, r);
  }

  /** From the start state: the first completed row fixes the width the others must match. */
  lemma RowsFromStart(segs: seq<seq<Byte>>)
    requires |segs| >= 1
    ensures var done := Completed(segs);
      RunRows(Start, segs) ==
      if done == [] then Some(State(0, 0, Width(segs[0]), ObsOfRows(segs, 0)))
      else if !Uniform(done, Width(done[0])) then None
      else Some(State(|done|, Width(done[0]),
                      if Completes(segs[|segs| - 1]) then 0 else Width(segs[|segs| - 1]),
                      ObsOfRows(segs, 0)))
  {
    var done := Completed(segs);
    var st1 := Advance(Start, segs[0]);
    assert st1 == State(0, 0, Width(segs[0]), RowObs(segs[0], 0, 0)) by {
      assert [] + RowObs(segs[0], 0, 0) == RowObs(segs[0], 0, 0);
    }
    if |segs| == 1 {
      ObsOfOneRow(segs, 0);
    } else {
      var st2 := State(1, Width(segs[0]), 0, st1.obs);
      assert Close(st1) == Some(st2);
      RowsAfterFirst(st2, segs[1..]);
      var rest := Completed(segs[1..]);
      assert done == [segs[0]] + rest;
      UniformCons(segs[0], rest, Width(segs[0]));
      ObsOfRowsCons(segs, 0);
      assert segs[1..][|segs[1..]| - 1] == segs[|segs| - 1];
    }
  }

  /** The byte loop and the row-level description agree on every input. */
  lemma ScanMatchesSpec(text: seq<Byte>)
    ensures Scan(text) == ScanSpec(text)
  {
    RunByRows(Start, text);
    RowsFromStart(Split(text));
  }
}

/** What the scan promises about rows, widths and recorded glyphs, derived from `ScanSpec`. */
module ScannerFacts {
  import opened Options
  import opened Alphabet
  import opened Geometry
  import opened Scanner

  /**
   * A scan fails exactly when some completed row differs in width from the
   * first; on success there are as many rows as completed rows, all of them
   * exactly `columns` wide, and no completed row means no columns.
   */
  lemma ScanRowWidths(text: seq<Byte>)
    ensures var done := Completed(Split(text));
      && (Scan(text).None? <==> exists j :: 0 <= j < |done| && Width(done[j]) != Width(done[0]))
      && (Scan(text).Some? ==>
            && Scan(text).value.rows == |done|
            && (forall j :: 0 <= j < |done| ==> Width(done[j]) == Scan(text).value.columns)
            && (done == [] ==> Scan(text).value.columns == 0))
  {
    ScanMatchesSpec(text);
  }

  /**
   * Every recorded glyph is in the alphabet and lies in the grid: its row is at
   * most `rows` (equal only for an open final row), and on a completed row its
   * column is below `columns`.
   */
  lemma ScanObservationBounds(text: seq<Byte>)
    requires Scan(text).Some?
    ensures var g := Scan(text).value;
      forall o <- g.obs :: InAlphabet(o.glyph) && 0 <= o.at.x && 0 <= o.at.y <= g.rows
                           && (o.at.y < g.rows ==> o.at.x < g.columns)
  {
    ScanMatchesSpec(text);
    var segs := Split(text);
    var done := Completed(segs);
    var g := Scan(text).value;
    forall o <- g.obs
      ensures InAlphabet(o.glyph) && 0 <= o.at.x && 0 <= o.at.y <= g.rows
              && (o.at.y < g.rows ==> o.at.x < g.columns)
    {
      if o.at.y < g.rows {
        assert done[o.at.y] == segs[o.at.y];
      }
    }
  }

  /** Glyphs are recorded only from the pieces of the input, one row index per piece. */
  lemma ScanRecordsEveryPiece(text: seq<Byte>)
    requires Scan(text).Some?
    ensures Scan(text).value.obs == ObsOfRows(Split(text), 0)
  {
    ScanMatchesSpec(text);
  }

  /**
   * An input ending in a blank other than '\n' leaves its final piece open: that
   * piece is not a row, so its width is never checked.
   */
  lemma TrailingBlankLeavesRowOpen(a: seq<Byte>, b: Byte)
    requires IsSpace(b) && b != NL
    requires Scan(a + [b]).Some?
    ensures Scan(a + [b]).value.rows == |Split(a + [b])| - 1
  {
    ScanMatchesSpec(a + [b]);
    var t := a + [b];
    var segs := Split(t);
    JoinSplit(t);
    LastPieceEndsInput(segs, t);
  }

  /** The last piece of a split is a suffix of the input. */
  lemma {:induction false} LastPieceEndsInput(segs: seq<seq<Byte>>, t: seq<Byte>)
    requires |segs| >= 1 && Join(segs) == t
    requires t != [] && t[|t| - 1] != NL
    ensures segs[|segs| - 1] != [] && segs[|segs| - 1][|segs[|segs| - 1]| - 1] == t[|t| - 1]
    decreases |segs|
  {
    if |segs| > 1 {
      var tail := Join(segs[1..]);
      assert t == segs[0] + [NL] + tail;
      if tail != [] {
        assert t[|t| - 1] == tail[|tail| - 1];
        LastPieceEndsInput(segs[1..], tail);
      }
    }
  }

  /** Dropping a blank (not the last byte, not '\n') changes nothing from any state. */
  lemma {:induction false} RunSkipsBlank(st: State, a: seq<Byte>, b: Byte, c: seq<Byte>)
    requires IsSpace(b) && b != NL && c != []
    ensures Run(st, a + [b] + c) == Run(st, a + c)
    decreases |a|
  {
    var t := a + [b] + c;
    if a == [] {
      assert t == [b] + c && t[1..] == c;
      assert a + c == c;
      assert Step(st, b, |t| == 1) == Some(st);
    } else {
      assert t[0] == a[0] && t[1..] == a[1..] + [b] + c;
      assert (a + c)[0] == a[0] && (a + c)[1..] == a[1..] + c;
      match Step(st, a[0], false)
      case None =>
      case Some(st') => RunSkipsBlank(st', a[1..], b, c);
    }
  }

  /** Whitespace other than '\n' takes no column: removing it (short of the last byte) leaves the scan unchanged. */
  lemma WhitespaceIsTransparent(a: seq<Byte>, b: Byte, c: seq<Byte>)
    requires IsSpace(b) && b != NL && c != []
    ensures Scan(a + [b] + c) == Scan(a + c)
  {
    RunSkipsBlank(Start, a, b, c);
  }

  lemma {:induction false} RunBlankCells(st: State, a: seq<Byte>, b: Byte, b': Byte, c: seq<Byte>)
    requires TakesColumn(b) && TakesColumn(b') && !InAlphabet(b) && !InAlphabet(b')
    ensures Run(st, a + [b] + c) == Run(st, a + [b'] + c)
    decreases |a|
  {
    var t := a + [b] + c;
    var t' := a + [b'] + c;
    if a == [] {
      assert t == [b] + c && t[1..] == c;
      assert t' == [b'] + c && t'[1..] == c;
      assert Step(st, b, |t| == 1) == Step(st, b', |t'| == 1);
    } else {
      assert t[0] == a[0] && t[1..] == a[1..] + [b] + c;
      assert t'[0] == a[0] && t'[1..] == a[1..] + [b'] + c;
      match Step(st, a[0], |t| == 1)
      case None =>
      case Some(st') => RunBlankCells(st', a[1..], b, b', c);
    }
  }

  /**
   * A byte that is neither whitespace nor a glyph is a blank cell: it takes a
   * column but records nothing, so any two such bytes are interchangeable.
   */
  lemma BlankCellsInterchangeable(a: seq<Byte>, b: Byte, b': Byte, c: seq<Byte>)
    requires TakesColumn(b) && TakesColumn(b') && !InAlphabet(b) && !InAlphabet(b')
    ensures Scan(a + [b] + c) == Scan(a + [b'] + c)
  {
    RunBlankCells(Start, a, b, b', c);
  }
}
