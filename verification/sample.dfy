/**
 * The sample of the `render` documentation: an 11x11 circle of '1' crossed by
 * the lines '2' and '3', with '#' cells that are no glyph, traced through the
 * row-level scanner and the per-glyph scene.
 *
 * This module proves one concrete example and models no code of its own. The
 * result is `ParseSample` at the end of the file, with `ParseSampleString` for
 * the documented `QString` call. Most of the file, the "Row by row" section, is
 * eleven blocks of the same shape, one per row. Each block evaluates the
 * scanner and the glyph tallies on one literal row. The statements are
 * deliberately small and concrete so that each proof obligation about the
 * literal text stays cheap. The sections after it chain the rows together:
 * "The scan of the sample" gives the 11x11 grid, "Per-glyph tallies" collects
 * the cells of '1', '2' and '3', and "The scene of the sample" turns them into
 * the three components.
 */
module Sample {
  import opened Options
  import opened Alphabet
  import opened Geometry
  import opened Scanner
  import opened Occurrences
  import opened Classifier
  import opened ClassifierFacts
  import opened TextImage

  /** The eleven rows of the sample, as they are written in the documentation. */
  const Rows: seq<seq<Byte>> := [
    ". . . . 1 1 1 . . . .",
    ". . 1 . . . . . 1 . .",
    ". 1 . . . . . . . 1 .",
    "1 . . 2 . . . 3 . . 1",
    "1 . . . # . # . . . 1",
    "1 . . . . # . . . . 1",
    "1 . . . # . # . . . 1",
    "1 . . 3 . . . 2 . . 1",
    ". 1 . . . . . . . 1 .",
    ". . 1 . . . . . 1 . .",
    ". . . 1 1 1 1 1 . . ."
  ]

  /** The sample text: each row ended by '\n'. */
  const Text: seq<Byte> := Join(Rows + [""])

  // ---------------------------------------------------------------------------
  // Index-based readings of the scanner's and the multi-hash's recursive
  // definitions. They walk concrete text one index at a time instead of
  // slicing it, and each agrees with the definition it reads.

  function WidthFrom(seg: seq<Byte>, i: nat): nat
    decreases |seg| - i
  {
    if i >= |seg| then 0 else (if TakesColumn(seg[i]) then 1 else 0) + WidthFrom(seg, i + 1)
  }

  lemma {:induction false} WidthFromIsWidth(seg: seq<Byte>, i: nat)
    requires i <= |seg|
    ensures WidthFrom(seg, i) == Width(seg[i..])
    decreases |seg| - i
  {
    if i < |seg| {
      WidthFromIsWidth(seg, i + 1);
      assert seg[i..][0] == seg[i] && seg[i..][1..] == seg[i + 1..];
    }
  }

  function RowObsFrom(seg: seq<Byte>, i: nat, c: nat, r: nat): seq<Observation>
    decreases |seg| - i
  {
    if i >= |seg| then []
    else if !TakesColumn(seg[i]) then RowObsFrom(seg, i + 1, c, r)
    else (if InAlphabet(seg[i]) then [Observation(seg[i], Coord(c, r))] else []) + RowObsFrom(seg, i + 1, c + 1, r)
  }

  lemma {:induction false} RowObsFromIsRowObs(seg: seq<Byte>, i: nat, c: nat, r: nat)
    requires i <= |seg|
    ensures RowObsFrom(seg, i, c, r) == RowObs(seg[i..], c, r)
    decreases |seg| - i
  {
    if i < |seg| {
      RowObsFromIsRowObs(seg, i + 1, c, r);
      RowObsFromIsRowObs(seg, i + 1, c + 1, r);
      assert seg[i..][0] == seg[i] && seg[i..][1..] == seg[i + 1..];
    }
  }

  function ObsOfRowsFrom(segs: seq<seq<Byte>>, k: nat): seq<Observation>
    decreases |segs| - k
  {
    if k >= |segs| then [] else RowObs(segs[k], 0, k) + ObsOfRowsFrom(segs, k + 1)
  }

  lemma {:induction false} ObsOfRowsFromIsObsOfRows(segs: seq<seq<Byte>>, k: nat)
    requires k <= |segs|
    ensures ObsOfRowsFrom(segs, k) == ObsOfRows(segs[k..], k)
    decreases |segs| - k
  {
    if k < |segs| {
      ObsOfRowsFromIsObsOfRows(segs, k + 1);
      ObsOfRowsCons(segs[k..], k);
      assert segs[k..][0] == segs[k] && segs[k..][1..] == segs[k + 1..];
    }
  }

  // ---------------------------------------------------------------------------
  // Row by row. For each row k, the lemmas suffixed k: Chars read the row's
  // characters off its literal in three stretches; Width and Glyphs evaluate
  // the scanner on any row with those characters; WidthAt, ObsAt and TallyAt
  // apply them to piece k of the sample, and Tally tallies the row's glyphs.

  lemma Chars0a(seg: seq<Byte>)
    requires seg == ". . . . 1 1 1 . . . ."
    ensures |seg| == 21 && seg[0] == '.' && seg[1] == ' ' && seg[2] == '.' && seg[3] == ' ' && seg[4] == '.' && seg[5] == ' ' && seg[6] == '.'
  {
  }

  lemma Chars0b(seg: seq<Byte>)
    requires seg == ". . . . 1 1 1 . . . ."
    ensures |seg| == 21 && seg[7] == ' ' && seg[8] == '1' && seg[9] == ' ' && seg[10] == '1' && seg[11] == ' ' && seg[12] == '1' && seg[13] == ' '
  {
  }

  lemma Chars0c(seg: seq<Byte>)
    requires seg == ". . . . 1 1 1 . . . ."
    ensures |seg| == 21 && seg[14] == '.' && seg[15] == ' ' && seg[16] == '.' && seg[17] == ' ' && seg[18] == '.' && seg[19] == ' ' && seg[20] == '.'
  {
  }

  lemma Width0(seg: seq<Byte>)
    requires |seg| == 21 && seg[0] == '.' && seg[1] == ' ' && seg[2] == '.' && seg[3] == ' ' && seg[4] == '.' && seg[5] == ' ' && seg[6] == '.' && seg[7] == ' ' && seg[8] == '1' && seg[9] == ' ' && seg[10] == '1' && seg[11] == ' ' && seg[12] == '1' && seg[13] == ' ' && seg[14] == '.' && seg[15] == ' ' && seg[16] == '.' && seg[17] == ' ' && seg[18] == '.' && seg[19] == ' ' && seg[20] == '.'
    ensures Width(seg) == 11 && NL !in seg
  {
    assert WidthFrom(seg, 20) == 1;
    assert WidthFrom(seg, 19) == 1;
    assert WidthFrom(seg, 18) == 2;
    assert WidthFrom(seg, 17) == 2;
    assert WidthFrom(seg, 16) == 3;
    assert WidthFrom(seg, 15) == 3;
    assert WidthFrom(seg, 14) == 4;
    assert WidthFrom(seg, 13) == 4;
    assert WidthFrom(seg, 12) == 5;
    assert WidthFrom(seg, 11) == 5;
    assert WidthFrom(seg, 10) == 6;
    assert WidthFrom(seg, 9) == 6;
    assert WidthFrom(seg, 8) == 7;
    assert WidthFrom(seg, 7) == 7;
    assert WidthFrom(seg, 6) == 8;
    assert WidthFrom(seg, 5) == 8;
    assert WidthFrom(seg, 4) == 9;
    assert WidthFrom(seg, 3) == 9;
    assert WidthFrom(seg, 2) == 10;
    assert WidthFrom(seg, 1) == 10;
    assert WidthFrom(seg, 0) == 11;
    WidthFromIsWidth(seg, 0);
    assert seg[0..] == seg;
  }

  lemma GlyphsTail0(seg: seq<Byte>)
    requires |seg| == 21 && seg[10] == '1' && seg[11] == ' ' && seg[12] == '1' && seg[13] == ' ' && seg[14] == '.' && seg[15] == ' ' && seg[16] == '.' && seg[17] == ' ' && seg[18] == '.' && seg[19] == ' ' && seg[20] == '.'
    ensures RowObsFrom(seg, 10, 5, 0) == [Observation('1', Coord(5, 0)), Observation('1', Coord(6, 0))]
  {
    assert RowObsFrom(seg, 20, 10, 0) == [];
    assert RowObsFrom(seg, 19, 10, 0) == [];
    assert RowObsFrom(seg, 18, 9, 0) == [];
    assert RowObsFrom(seg, 17, 9, 0) == [];
    assert RowObsFrom(seg, 16, 8, 0) == [];
    assert RowObsFrom(seg, 15, 8, 0) == [];
    assert RowObsFrom(seg, 14, 7, 0) == [];
    assert RowObsFrom(seg, 13, 7, 0) == [];
    assert RowObsFrom(seg, 12, 6, 0) == [Observation('1', Coord(6, 0))];
    assert RowObsFrom(seg, 11, 6, 0) == [Observation('1', Coord(6, 0))];
  }

  lemma Glyphs0(seg: seq<Byte>)
    requires |seg| == 21 && seg[0] == '.' && seg[1] == ' ' && seg[2] == '.' && seg[3] == ' ' && seg[4] == '.' && seg[5] == ' ' && seg[6] == '.' && seg[7] == ' ' && seg[8] == '1' && seg[9] == ' ' && seg[10] == '1' && seg[11] == ' ' && seg[12] == '1' && seg[13] == ' ' && seg[14] == '.' && seg[15] == ' ' && seg[16] == '.' && seg[17] == ' ' && seg[18] == '.' && seg[19] == ' ' && seg[20] == '.'
    ensures RowObs(seg, 0, 0) == [Observation('1', Coord(4, 0)), Observation('1', Coord(5, 0)), Observation('1', Coord(6, 0))]
  {
    GlyphsTail0(seg);
    assert RowObsFrom(seg, 9, 5, 0) == [Observation('1', Coord(5, 0)), Observation('1', Coord(6, 0))];
    assert RowObsFrom(seg, 8, 4, 0) == [Observation('1', Coord(4, 0)), Observation('1', Coord(5, 0)), Observation('1', Coord(6, 0))];
    assert RowObsFrom(seg, 7, 4, 0) == [Observation('1', Coord(4, 0)), Observation('1', Coord(5, 0)), Observation('1', Coord(6, 0))];
    assert RowObsFrom(seg, 6, 3, 0) == [Observation('1', Coord(4, 0)), Observation('1', Coord(5, 0)), Observation('1', Coord(6, 0))];
    assert RowObsFrom(seg, 5, 3, 0) == [Observation('1', Coord(4, 0)), Observation('1', Coord(5, 0)), Observation('1', Coord(6, 0))];
    assert RowObsFrom(seg, 4, 2, 0) == [Observation('1', Coord(4, 0)), Observation('1', Coord(5, 0)), Observation('1', Coord(6, 0))];
    assert RowObsFrom(seg, 3, 2, 0) == [Observation('1', Coord(4, 0)), Observation('1', Coord(5, 0)), Observation('1', Coord(6, 0))];
    assert RowObsFrom(seg, 2, 1, 0) == [Observation('1', Coord(4, 0)), Observation('1', Coord(5, 0)), Observation('1', Coord(6, 0))];
    assert RowObsFrom(seg, 1, 1, 0) == [Observation('1', Coord(4, 0)), Observation('1', Coord(5, 0)), Observation('1', Coord(6, 0))];
    assert RowObsFrom(seg, 0, 0, 0) == [Observation('1', Coord(4, 0)), Observation('1', Coord(5, 0)), Observation('1', Coord(6, 0))];
    RowObsFromIsRowObs(seg, 0, 0, 0);
    assert seg[0..] == seg;
  }

  lemma WidthAt0(segs: seq<seq<Byte>>)
    requires segs == Rows + [""]
    ensures Width(segs[0]) == 11 && NL !in segs[0]
  {
    Chars0a(segs[0]);
    Chars0b(segs[0]);
    Chars0c(segs[0]);
    Width0(segs[0]);
  }

  lemma ObsAt0(segs: seq<seq<Byte>>)
    requires segs == Rows + [""]
    ensures RowObs(segs[0], 0, 0) == [Observation('1', Coord(4, 0)), Observation('1', Coord(5, 0)), Observation('1', Coord(6, 0))]
  {
    Chars0a(segs[0]);
    Chars0b(segs[0]);
    Chars0c(segs[0]);
    Glyphs0(segs[0]);
  }

  lemma Tally0()
    ensures Tallied([Observation('1', Coord(4, 0)), Observation('1', Coord(5, 0)), Observation('1', Coord(6, 0))], [Coord(4, 0), Coord(5, 0), Coord(6, 0)], [], [])
  {
  }

  lemma TallyAt0(segs: seq<seq<Byte>>)
    requires segs == Rows + [""]
    ensures Tallied(RowObs(segs[0], 0, 0), [Coord(4, 0), Coord(5, 0), Coord(6, 0)], [], [])
  {
    ObsAt0(segs);
    Tally0();
  }

  lemma Chars1a(seg: seq<Byte>)
    requires seg == ". . 1 . . . . . 1 . ."
    ensures |seg| == 21 && seg[0] == '.' && seg[1] == ' ' && seg[2] == '.' && seg[3] == ' ' && seg[4] == '1' && seg[5] == ' ' && seg[6] == '.'
  {
  }

  lemma Chars1b(seg: seq<Byte>)
    requires seg == ". . 1 . . . . . 1 . ."
    ensures |seg| == 21 && seg[7] == ' ' && seg[8] == '.' && seg[9] == ' ' && seg[10] == '.' && seg[11] == ' ' && seg[12] == '.' && seg[13] == ' '
  {
  }

  lemma Chars1c(seg: seq<Byte>)
    requires seg == ". . 1 . . . . . 1 . ."
    ensures |seg| == 21 && seg[14] == '.' && seg[15] == ' ' && seg[16] == '1' && seg[17] == ' ' && seg[18] == '.' && seg[19] == ' ' && seg[20] == '.'
  {
  }

  lemma Width1(seg: seq<Byte>)
    requires |seg| == 21 && seg[0] == '.' && seg[1] == ' ' && seg[2] == '.' && seg[3] == ' ' && seg[4] == '1' && seg[5] == ' ' && seg[6] == '.' && seg[7] == ' ' && seg[8] == '.' && seg[9] == ' ' && seg[10] == '.' && seg[11] == ' ' && seg[12] == '.' && seg[13] == ' ' && seg[14] == '.' && seg[15] == ' ' && seg[16] == '1' && seg[17] == ' ' && seg[18] == '.' && seg[19] == ' ' && seg[20] == '.'
    ensures Width(seg) == 11 && NL !in seg
  {
    assert WidthFrom(seg, 20) == 1;
    assert WidthFrom(seg, 19) == 1;
    assert WidthFrom(seg, 18) == 2;
    assert WidthFrom(seg, 17) == 2;
    assert WidthFrom(seg, 16) == 3;
    assert WidthFrom(seg, 15) == 3;
    assert WidthFrom(seg, 14) == 4;
    assert WidthFrom(seg, 13) == 4;
    assert WidthFrom(seg, 12) == 5;
    assert WidthFrom(seg, 11) == 5;
    assert WidthFrom(seg, 10) == 6;
    assert WidthFrom(seg, 9) == 6;
    assert WidthFrom(seg, 8) == 7;
    assert WidthFrom(seg, 7) == 7;
    assert WidthFrom(seg, 6) == 8;
    assert WidthFrom(seg, 5) == 8;
    assert WidthFrom(seg, 4) == 9;
    assert WidthFrom(seg, 3) == 9;
    assert WidthFrom(seg, 2) == 10;
    assert WidthFrom(seg, 1) == 10;
    assert WidthFrom(seg, 0) == 11;
    WidthFromIsWidth(seg, 0);
    assert seg[0..] == seg;
  }

  lemma GlyphsTail1(seg: seq<Byte>)
    requires |seg| == 21 && seg[10] == '.' && seg[11] == ' ' && seg[12] == '.' && seg[13] == ' ' && seg[14] == '.' && seg[15] == ' ' && seg[16] == '1' && seg[17] == ' ' && seg[18] == '.' && seg[19] == ' ' && seg[20] == '.'
    ensures RowObsFrom(seg, 10, 5, 1) == [Observation('1', Coord(8, 1))]
  {
    assert RowObsFrom(seg, 20, 10, 1) == [];
    assert RowObsFrom(seg, 19, 10, 1) == [];
    assert RowObsFrom(seg, 18, 9, 1) == [];
    assert RowObsFrom(seg, 17, 9, 1) == [];
    assert RowObsFrom(seg, 16, 8, 1) == [Observation('1', Coord(8, 1))];
    assert RowObsFrom(seg, 15, 8, 1) == [Observation('1', Coord(8, 1))];
    assert RowObsFrom(seg, 14, 7, 1) == [Observation('1', Coord(8, 1))];
    assert RowObsFrom(seg, 13, 7, 1) == [Observation('1', Coord(8, 1))];
    assert RowObsFrom(seg, 12, 6, 1) == [Observation('1', Coord(8, 1))];
    assert RowObsFrom(seg, 11, 6, 1) == [Observation('1', Coord(8, 1))];
  }

  lemma Glyphs1(seg: seq<Byte>)
    requires |seg| == 21 && seg[0] == '.' && seg[1] == ' ' && seg[2] == '.' && seg[3] == ' ' && seg[4] == '1' && seg[5] == ' ' && seg[6] == '.' && seg[7] == ' ' && seg[8] == '.' && seg[9] == ' ' && seg[10] == '.' && seg[11] == ' ' && seg[12] == '.' && seg[13] == ' ' && seg[14] == '.' && seg[15] == ' ' && seg[16] == '1' && seg[17] == ' ' && seg[18] == '.' && seg[19] == ' ' && seg[20] == '.'
    ensures RowObs(seg, 0, 1) == [Observation('1', Coord(2, 1)), Observation('1', Coord(8, 1))]
  {
    GlyphsTail1(seg);
    assert RowObsFrom(seg, 9, 5, 1) == [Observation('1', Coord(8, 1))];
    assert RowObsFrom(seg, 8, 4, 1) == [Observation('1', Coord(8, 1))];
    assert RowObsFrom(seg, 7, 4, 1) == [Observation('1', Coord(8, 1))];
    assert RowObsFrom(seg, 6, 3, 1) == [Observation('1', Coord(8, 1))];
    assert RowObsFrom(seg, 5, 3, 1) == [Observation('1', Coord(8, 1))];
    assert RowObsFrom(seg, 4, 2, 1) == [Observation('1', Coord(2, 1)), Observation('1', Coord(8, 1))];
    assert RowObsFrom(seg, 3, 2, 1) == [Observation('1', Coord(2, 1)), Observation('1', Coord(8, 1))];
    assert RowObsFrom(seg, 2, 1, 1) == [Observation('1', Coord(2, 1)), Observation('1', Coord(8, 1))];
    assert RowObsFrom(seg, 1, 1, 1) == [Observation('1', Coord(2, 1)), Observation('1', Coord(8, 1))];
    assert RowObsFrom(seg, 0, 0, 1) == [Observation('1', Coord(2, 1)), Observation('1', Coord(8, 1))];
    RowObsFromIsRowObs(seg, 0, 0, 1);
    assert seg[0..] == seg;
  }

  lemma WidthAt1(segs: seq<seq<Byte>>)
    requires segs == Rows + [""]
    ensures Width(segs[1]) == 11 && NL !in segs[1]
  {
    Chars1a(segs[1]);
    Chars1b(segs[1]);
    Chars1c(segs[1]);
    Width1(segs[1]);
  }

  lemma ObsAt1(segs: seq<seq<Byte>>)
    requires segs == Rows + [""]
    ensures RowObs(segs[1], 0, 1) == [Observation('1', Coord(2, 1)), Observation('1', Coord(8, 1))]
  {
    Chars1a(segs[1]);
    Chars1b(segs[1]);
    Chars1c(segs[1]);
    Glyphs1(segs[1]);
  }

  lemma Tally1()
    ensures Tallied([Observation('1', Coord(2, 1)), Observation('1', Coord(8, 1))], [Coord(2, 1), Coord(8, 1)], [], [])
  {
  }

  lemma TallyAt1(segs: seq<seq<Byte>>)
    requires segs == Rows + [""]
    ensures Tallied(RowObs(segs[1], 0, 1), [Coord(2, 1), Coord(8, 1)], [], [])
  {
    ObsAt1(segs);
    Tally1();
  }

  lemma Chars2a(seg: seq<Byte>)
    requires seg == ". 1 . . . . . . . 1 ."
    ensures |seg| == 21 && seg[0] == '.' && seg[1] == ' ' && seg[2] == '1' && seg[3] == ' ' && seg[4] == '.' && seg[5] == ' ' && seg[6] == '.'
  {
  }

  lemma Chars2b(seg: seq<Byte>)
    requires seg == ". 1 . . . . . . . 1 ."
    ensures |seg| == 21 && seg[7] == ' ' && seg[8] == '.' && seg[9] == ' ' && seg[10] == '.' && seg[11] == ' ' && seg[12] == '.' && seg[13] == ' '
  {
  }

  lemma Chars2c(seg: seq<Byte>)
    requires seg == ". 1 . . . . . . . 1 ."
    ensures |seg| == 21 && seg[14] == '.' && seg[15] == ' ' && seg[16] == '.' && seg[17] == ' ' && seg[18] == '1' && seg[19] == ' ' && seg[20] == '.'
  {
  }

  lemma Width2(seg: seq<Byte>)
    requires |seg| == 21 && seg[0] == '.' && seg[1] == ' ' && seg[2] == '1' && seg[3] == ' ' && seg[4] == '.' && seg[5] == ' ' && seg[6] == '.' && seg[7] == ' ' && seg[8] == '.' && seg[9] == ' ' && seg[10] == '.' && seg[11] == ' ' && seg[12] == '.' && seg[13] == ' ' && seg[14] == '.' && seg[15] == ' ' && seg[16] == '.' && seg[17] == ' ' && seg[18] == '1' && seg[19] == ' ' && seg[20] == '.'
    ensures Width(seg) == 11 && NL !in seg
  {
    assert WidthFrom(seg, 20) == 1;
    assert WidthFrom(seg, 19) == 1;
    assert WidthFrom(seg, 18) == 2;
    assert WidthFrom(seg, 17) == 2;
    assert WidthFrom(seg, 16) == 3;
    assert WidthFrom(seg, 15) == 3;
    assert WidthFrom(seg, 14) == 4;
    assert WidthFrom(seg, 13) == 4;
    assert WidthFrom(seg, 12) == 5;
    assert WidthFrom(seg, 11) == 5;
    assert WidthFrom(seg, 10) == 6;
    assert WidthFrom(seg, 9) == 6;
    assert WidthFrom(seg, 8) == 7;
    assert WidthFrom(seg, 7) == 7;
    assert WidthFrom(seg, 6) == 8;
    assert WidthFrom(seg, 5) == 8;
    assert WidthFrom(seg, 4) == 9;
    assert WidthFrom(seg, 3) == 9;
    assert WidthFrom(seg, 2) == 10;
    assert WidthFrom(seg, 1) == 10;
    assert WidthFrom(seg, 0) == 11;
    WidthFromIsWidth(seg, 0);
    assert seg[0..] == seg;
  }

  lemma GlyphsTail2(seg: seq<Byte>)
    requires |seg| == 21 && seg[10] == '.' && seg[11] == ' ' && seg[12] == '.' && seg[13] == ' ' && seg[14] == '.' && seg[15] == ' ' && seg[16] == '.' && seg[17] == ' ' && seg[18] == '1' && seg[19] == ' ' && seg[20] == '.'
    ensures RowObsFrom(seg, 10, 5, 2) == [Observation('1', Coord(9, 2))]
  {
    assert RowObsFrom(seg, 20, 10, 2) == [];
    assert RowObsFrom(seg, 19, 10, 2) == [];
    assert RowObsFrom(seg, 18, 9, 2) == [Observation('1', Coord(9, 2))];
    assert RowObsFrom(seg, 17, 9, 2) == [Observation('1', Coord(9, 2))];
    assert RowObsFrom(seg, 16, 8, 2) == [Observation('1', Coord(9, 2))];
    assert RowObsFrom(seg, 15, 8, 2) == [Observation('1', Coord(9, 2))];
    assert RowObsFrom(seg, 14, 7, 2) == [Observation('1', Coord(9, 2))];
    assert RowObsFrom(seg, 13, 7, 2) == [Observation('1', Coord(9, 2))];
    assert RowObsFrom(seg, 12, 6, 2) == [Observation('1', Coord(9, 2))];
    assert RowObsFrom(seg, 11, 6, 2) == [Observation('1', Coord(9, 2))];
  }

  lemma Glyphs2(seg: seq<Byte>)
    requires |seg| == 21 && seg[0] == '.' && seg[1] == ' ' && seg[2] == '1' && seg[3] == ' ' && seg[4] == '.' && seg[5] == ' ' && seg[6] == '.' && seg[7] == ' ' && seg[8] == '.' && seg[9] == ' ' && seg[10] == '.' && seg[11] == ' ' && seg[12] == '.' && seg[13] == ' ' && seg[14] == '.' && seg[15] == ' ' && seg[16] == '.' && seg[17] == ' ' && seg[18] == '1' && seg[19] == ' ' && seg[20] == '.'
    ensures RowObs(seg, 0, 2) == [Observation('1', Coord(1, 2)), Observation('1', Coord(9, 2))]
  {
    GlyphsTail2(seg);
    assert RowObsFrom(seg, 9, 5, 2) == [Observation('1', Coord(9, 2))];
    assert RowObsFrom(seg, 8, 4, 2) == [Observation('1', Coord(9, 2))];
    assert RowObsFrom(seg, 7, 4, 2) == [Observation('1', Coord(9, 2))];
    assert RowObsFrom(seg, 6, 3, 2) == [Observation('1', Coord(9, 2))];
    assert RowObsFrom(seg, 5, 3, 2) == [Observation('1', Coord(9, 2))];
    assert RowObsFrom(seg, 4, 2, 2) == [Observation('1', Coord(9, 2))];
    assert RowObsFrom(seg, 3, 2, 2) == [Observation('1', Coord(9, 2))];
    assert RowObsFrom(seg, 2, 1, 2) == [Observation('1', Coord(1, 2)), Observation('1', Coord(9, 2))];
    assert RowObsFrom(seg, 1, 1, 2) == [Observation('1', Coord(1, 2)), Observation('1', Coord(9, 2))];
    assert RowObsFrom(seg, 0, 0, 2) == [Observation('1', Coord(1, 2)), Observation('1', Coord(9, 2))];
    RowObsFromIsRowObs(seg, 0, 0, 2);
    assert seg[0..] == seg;
  }

  lemma WidthAt2(segs: seq<seq<Byte>>)
    requires segs == Rows + [""]
    ensures Width(segs[2]) == 11 && NL !in segs[2]
  {
    Chars2a(segs[2]);
    Chars2b(segs[2]);
    Chars2c(segs[2]);
    Width2(segs[2]);
  }

  lemma ObsAt2(segs: seq<seq<Byte>>)
    requires segs == Rows + [""]
    ensures RowObs(segs[2], 0, 2) == [Observation('1', Coord(1, 2)), Observation('1', Coord(9, 2))]
  {
    Chars2a(segs[2]);
    Chars2b(segs[2]);
    Chars2c(segs[2]);
    Glyphs2(segs[2]);
  }

  lemma Tally2()
    ensures Tallied([Observation('1', Coord(1, 2)), Observation('1', Coord(9, 2))], [Coord(1, 2), Coord(9, 2)], [], [])
  {
  }

  lemma TallyAt2(segs: seq<seq<Byte>>)
    requires segs == Rows + [""]
    ensures Tallied(RowObs(segs[2], 0, 2), [Coord(1, 2), Coord(9, 2)], [], [])
  {
    ObsAt2(segs);
    Tally2();
  }

  lemma Chars3a(seg: seq<Byte>)
    requires seg == "1 . . 2 . . . 3 . . 1"
    ensures |seg| == 21 && seg[0] == '1' && seg[1] == ' ' && seg[2] == '.' && seg[3] == ' ' && seg[4] == '.' && seg[5] == ' ' && seg[6] == '2'
  {
  }

  lemma Chars3b(seg: seq<Byte>)
    requires seg == "1 . . 2 . . . 3 . . 1"
    ensures |seg| == 21 && seg[7] == ' ' && seg[8] == '.' && seg[9] == ' ' && seg[10] == '.' && seg[11] == ' ' && seg[12] == '.' && seg[13] == ' '
  {
  }

  lemma Chars3c(seg: seq<Byte>)
    requires seg == "1 . . 2 . . . 3 . . 1"
    ensures |seg| == 21 && seg[14] == '3' && seg[15] == ' ' && seg[16] == '.' && seg[17] == ' ' && seg[18] == '.' && seg[19] == ' ' && seg[20] == '1'
  {
  }

  lemma Width3(seg: seq<Byte>)
    requires |seg| == 21 && seg[0] == '1' && seg[1] == ' ' && seg[2] == '.' && seg[3] == ' ' && seg[4] == '.' && seg[5] == ' ' && seg[6] == '2' && seg[7] == ' ' && seg[8] == '.' && seg[9] == ' ' && seg[10] == '.' && seg[11] == ' ' && seg[12] == '.' && seg[13] == ' ' && seg[14] == '3' && seg[15] == ' ' && seg[16] == '.' && seg[17] == ' ' && seg[18] == '.' && seg[19] == ' ' && seg[20] == '1'
    ensures Width(seg) == 11 && NL !in seg
  {
    assert WidthFrom(seg, 20) == 1;
    assert WidthFrom(seg, 19) == 1;
    assert WidthFrom(seg, 18) == 2;
    assert WidthFrom(seg, 17) == 2;
    assert WidthFrom(seg, 16) == 3;
    assert WidthFrom(seg, 15) == 3;
    assert WidthFrom(seg, 14) == 4;
    assert WidthFrom(seg, 13) == 4;
    assert WidthFrom(seg, 12) == 5;
    assert WidthFrom(seg, 11) == 5;
    assert WidthFrom(seg, 10) == 6;
    assert WidthFrom(seg, 9) == 6;
    assert WidthFrom(seg, 8) == 7;
    assert WidthFrom(seg, 7) == 7;
    assert WidthFrom(seg, 6) == 8;
    assert WidthFrom(seg, 5) == 8;
    assert WidthFrom(seg, 4) == 9;
    assert WidthFrom(seg, 3) == 9;
    assert WidthFrom(seg, 2) == 10;
    assert WidthFrom(seg, 1) == 10;
    assert WidthFrom(seg, 0) == 11;
    WidthFromIsWidth(seg, 0);
    assert seg[0..] == seg;
  }

  lemma GlyphsTail3(seg: seq<Byte>)
    requires |seg| == 21 && seg[10] == '.' && seg[11] == ' ' && seg[12] == '.' && seg[13] == ' ' && seg[14] == '3' && seg[15] == ' ' && seg[16] == '.' && seg[17] == ' ' && seg[18] == '.' && seg[19] == ' ' && seg[20] == '1'
    ensures RowObsFrom(seg, 10, 5, 3) == [Observation('3', Coord(7, 3)), Observation('1', Coord(10, 3))]
  {
    assert RowObsFrom(seg, 20, 10, 3) == [Observation('1', Coord(10, 3))];
    assert RowObsFrom(seg, 19, 10, 3) == [Observation('1', Coord(10, 3))];
    assert RowObsFrom(seg, 18, 9, 3) == [Observation('1', Coord(10, 3))];
    assert RowObsFrom(seg, 17, 9, 3) == [Observation('1', Coord(10, 3))];
    assert RowObsFrom(seg, 16, 8, 3) == [Observation('1', Coord(10, 3))];
    assert RowObsFrom(seg, 15, 8, 3) == [Observation('1', Coord(10, 3))];
    assert RowObsFrom(seg, 14, 7, 3) == [Observation('3', Coord(7, 3)), Observation('1', Coord(10, 3))];
    assert RowObsFrom(seg, 13, 7, 3) == [Observation('3', Coord(7, 3)), Observation('1', Coord(10, 3))];
    assert RowObsFrom(seg, 12, 6, 3) == [Observation('3', Coord(7, 3)), Observation('1', Coord(10, 3))];
    assert RowObsFrom(seg, 11, 6, 3) == [Observation('3', Coord(7, 3)), Observation('1', Coord(10, 3))];
  }

  lemma Glyphs3(seg: seq<Byte>)
    requires |seg| == 21 && seg[0] == '1' && seg[1] == ' ' && seg[2] == '.' && seg[3] == ' ' && seg[4] == '.' && seg[5] == ' ' && seg[6] == '2' && seg[7] == ' ' && seg[8] == '.' && seg[9] == ' ' && seg[10] == '.' && seg[11] == ' ' && seg[12] == '.' && seg[13] == ' ' && seg[14] == '3' && seg[15] == ' ' && seg[16] == '.' && seg[17] == ' ' && seg[18] == '.' && seg[19] == ' ' && seg[20] == '1'
    ensures RowObs(seg, 0, 3) == [Observation('1', Coord(0, 3)), Observation('2', Coord(3, 3)), Observation('3', Coord(7, 3)), Observation('1', Coord(10, 3))]
  {
    GlyphsTail3(seg);
    assert RowObsFrom(seg, 9, 5, 3) == [Observation('3', Coord(7, 3)), Observation('1', Coord(10, 3))];
    assert RowObsFrom(seg, 8, 4, 3) == [Observation('3', Coord(7, 3)), Observation('1', Coord(10, 3))];
    assert RowObsFrom(seg, 7, 4, 3) == [Observation('3', Coord(7, 3)), Observation('1', Coord(10, 3))];
    assert RowObsFrom(seg, 6, 3, 3) == [Observation('2', Coord(3, 3)), Observation('3', Coord(7, 3)), Observation('1', Coord(10, 3))];
    assert RowObsFrom(seg, 5, 3, 3) == [Observation('2', Coord(3, 3)), Observation('3', Coord(7, 3)), Observation('1', Coord(10, 3))];
    assert RowObsFrom(seg, 4, 2, 3) == [Observation('2', Coord(3, 3)), Observation('3', Coord(7, 3)), Observation('1', Coord(10, 3))];
    assert RowObsFrom(seg, 3, 2, 3) == [Observation('2', Coord(3, 3)), Observation('3', Coord(7, 3)), Observation('1', Coord(10, 3))];
    assert RowObsFrom(seg, 2, 1, 3) == [Observation('2', Coord(3, 3)), Observation('3', Coord(7, 3)), Observation('1', Coord(10, 3))];
    assert RowObsFrom(seg, 1, 1, 3) == [Observation('2', Coord(3, 3)), Observation('3', Coord(7, 3)), Observation('1', Coord(10, 3))];
    assert RowObsFrom(seg, 0, 0, 3) == [Observation('1', Coord(0, 3)), Observation('2', Coord(3, 3)), Observation('3', Coord(7, 3)), Observation('1', Coord(10, 3))];
    RowObsFromIsRowObs(seg, 0, 0, 3);
    assert seg[0..] == seg;
  }

  lemma WidthAt3(segs: seq<seq<Byte>>)
    requires segs == Rows + [""]
    ensures Width(segs[3]) == 11 && NL !in segs[3]
  {
    Chars3a(segs[3]);
    Chars3b(segs[3]);
    Chars3c(segs[3]);
    Width3(segs[3]);
  }

  lemma ObsAt3(segs: seq<seq<Byte>>)
    requires segs == Rows + [""]
    ensures RowObs(segs[3], 0, 3) == [Observation('1', Coord(0, 3)), Observation('2', Coord(3, 3)), Observation('3', Coord(7, 3)), Observation('1', Coord(10, 3))]
  {
    Chars3a(segs[3]);
    Chars3b(segs[3]);
    Chars3c(segs[3]);
    Glyphs3(segs[3]);
  }

  lemma Tally3()
    ensures Tallied([Observation('1', Coord(0, 3)), Observation('2', Coord(3, 3)), Observation('3', Coord(7, 3)), Observation('1', Coord(10, 3))], [Coord(0, 3), Coord(10, 3)], [Coord(3, 3)], [Coord(7, 3)])
  {
  }

  lemma TallyAt3(segs: seq<seq<Byte>>)
    requires segs == Rows + [""]
    ensures Tallied(RowObs(segs[3], 0, 3), [Coord(0, 3), Coord(10, 3)], [Coord(3, 3)], [Coord(7, 3)])
  {
    ObsAt3(segs);
    Tally3();
  }

  lemma Chars4a(seg: seq<Byte>)
    requires seg == "1 . . . # . # . . . 1"
    ensures |seg| == 21 && seg[0] == '1' && seg[1] == ' ' && seg[2] == '.' && seg[3] == ' ' && seg[4] == '.' && seg[5] == ' ' && seg[6] == '.'
  {
  }

  lemma Chars4b(seg: seq<Byte>)
    requires seg == "1 . . . # . # . . . 1"
    ensures |seg| == 21 && seg[7] == ' ' && seg[8] == '#' && seg[9] == ' ' && seg[10] == '.' && seg[11] == ' ' && seg[12] == '#' && seg[13] == ' '
  {
  }

  lemma Chars4c(seg: seq<Byte>)
    requires seg == "1 . . . # . # . . . 1"
    ensures |seg| == 21 && seg[14] == '.' && seg[15] == ' ' && seg[16] == '.' && seg[17] == ' ' && seg[18] == '.' && seg[19] == ' ' && seg[20] == '1'
  {
  }

  lemma Width4(seg: seq<Byte>)
    requires |seg| == 21 && seg[0] == '1' && seg[1] == ' ' && seg[2] == '.' && seg[3] == ' ' && seg[4] == '.' && seg[5] == ' ' && seg[6] == '.' && seg[7] == ' ' && seg[8] == '#' && seg[9] == ' ' && seg[10] == '.' && seg[11] == ' ' && seg[12] == '#' && seg[13] == ' ' && seg[14] == '.' && seg[15] == ' ' && seg[16] == '.' && seg[17] == ' ' && seg[18] == '.' && seg[19] == ' ' && seg[20] == '1'
    ensures Width(seg) == 11 && NL !in seg
  {
    assert WidthFrom(seg, 20) == 1;
    assert WidthFrom(seg, 19) == 1;
    assert WidthFrom(seg, 18) == 2;
    assert WidthFrom(seg, 17) == 2;
    assert WidthFrom(seg, 16) == 3;
    assert WidthFrom(seg, 15) == 3;
    assert WidthFrom(seg, 14) == 4;
    assert WidthFrom(seg, 13) == 4;
    assert WidthFrom(seg, 12) == 5;
    assert WidthFrom(seg, 11) == 5;
    assert WidthFrom(seg, 10) == 6;
    assert WidthFrom(seg, 9) == 6;
    assert WidthFrom(seg, 8) == 7;
    assert WidthFrom(seg, 7) == 7;
    assert WidthFrom(seg, 6) == 8;
    assert WidthFrom(seg, 5) == 8;
    assert WidthFrom(seg, 4) == 9;
    assert WidthFrom(seg, 3) == 9;
    assert WidthFrom(seg, 2) == 10;
    assert WidthFrom(seg, 1) == 10;
    assert WidthFrom(seg, 0) == 11;
    WidthFromIsWidth(seg, 0);
    assert seg[0..] == seg;
  }

  lemma GlyphsTail4(seg: seq<Byte>)
    requires |seg| == 21 && seg[10] == '.' && seg[11] == ' ' && seg[12] == '#' && seg[13] == ' ' && seg[14] == '.' && seg[15] == ' ' && seg[16] == '.' && seg[17] == ' ' && seg[18] == '.' && seg[19] == ' ' && seg[20] == '1'
    ensures RowObsFrom(seg, 10, 5, 4) == [Observation('1', Coord(10, 4))]
  {
    assert RowObsFrom(seg, 20, 10, 4) == [Observation('1', Coord(10, 4))];
    assert RowObsFrom(seg, 19, 10, 4) == [Observation('1', Coord(10, 4))];
    assert RowObsFrom(seg, 18, 9, 4) == [Observation('1', Coord(10, 4))];
    assert RowObsFrom(seg, 17, 9, 4) == [Observation('1', Coord(10, 4))];
    assert RowObsFrom(seg, 16, 8, 4) == [Observation('1', Coord(10, 4))];
    assert RowObsFrom(seg, 15, 8, 4) == [Observation('1', Coord(10, 4))];
    assert RowObsFrom(seg, 14, 7, 4) == [Observation('1', Coord(10, 4))];
    assert RowObsFrom(seg, 13, 7, 4) == [Observation('1', Coord(10, 4))];
    assert RowObsFrom(seg, 12, 6, 4) == [Observation('1', Coord(10, 4))];
    assert RowObsFrom(seg, 11, 6, 4) == [Observation('1', Coord(10, 4))];
  }

  lemma Glyphs4(seg: seq<Byte>)
    requires |seg| == 21 && seg[0] == '1' && seg[1] == ' ' && seg[2] == '.' && seg[3] == ' ' && seg[4] == '.' && seg[5] == ' ' && seg[6] == '.' && seg[7] == ' ' && seg[8] == '#' && seg[9] == ' ' && seg[10] == '.' && seg[11] == ' ' && seg[12] == '#' && seg[13] == ' ' && seg[14] == '.' && seg[15] == ' ' && seg[16] == '.' && seg[17] == ' ' && seg[18] == '.' && seg[19] == ' ' && seg[20] == '1'
    ensures RowObs(seg, 0, 4) == [Observation('1', Coord(0, 4)), Observation('1', Coord(10, 4))]
  {
    GlyphsTail4(seg);
    assert RowObsFrom(seg, 9, 5, 4) == [Observation('1', Coord(10, 4))];
    assert RowObsFrom(seg, 8, 4, 4) == [Observation('1', Coord(10, 4))];
    assert RowObsFrom(seg, 7, 4, 4) == [Observation('1', Coord(10, 4))];
    assert RowObsFrom(seg, 6, 3, 4) == [Observation('1', Coord(10, 4))];
    assert RowObsFrom(seg, 5, 3, 4) == [Observation('1', Coord(10, 4))];
    assert RowObsFrom(seg, 4, 2, 4) == [Observation('1', Coord(10, 4))];
    assert RowObsFrom(seg, 3, 2, 4) == [Observation('1', Coord(10, 4))];
    assert RowObsFrom(seg, 2, 1, 4) == [Observation('1', Coord(10, 4))];
    assert RowObsFrom(seg, 1, 1, 4) == [Observation('1', Coord(10, 4))];
    assert RowObsFrom(seg, 0, 0, 4) == [Observation('1', Coord(0, 4)), Observation('1', Coord(10, 4))];
    RowObsFromIsRowObs(seg, 0, 0, 4);
    assert seg[0..] == seg;
  }

  lemma WidthAt4(segs: seq<seq<Byte>>)
    requires segs == Rows + [""]
    ensures Width(segs[4]) == 11 && NL !in segs[4]
  {
    Chars4a(segs[4]);
    Chars4b(segs[4]);
    Chars4c(segs[4]);
    Width4(segs[4]);
  }

  lemma ObsAt4(segs: seq<seq<Byte>>)
    requires segs == Rows + [""]
    ensures RowObs(segs[4], 0, 4) == [Observation('1', Coord(0, 4)), Observation('1', Coord(10, 4))]
  {
    Chars4a(segs[4]);
    Chars4b(segs[4]);
    Chars4c(segs[4]);
    Glyphs4(segs[4]);
  }

  lemma Tally4()
    ensures Tallied([Observation('1', Coord(0, 4)), Observation('1', Coord(10, 4))], [Coord(0, 4), Coord(10, 4)], [], [])
  {
  }

  lemma TallyAt4(segs: seq<seq<Byte>>)
    requires segs == Rows + [""]
    ensures Tallied(RowObs(segs[4], 0, 4), [Coord(0, 4), Coord(10, 4)], [], [])
  {
    ObsAt4(segs);
    Tally4();
  }

  lemma Chars5a(seg: seq<Byte>)
    requires seg == "1 . . . . # . . . . 1"
    ensures |seg| == 21 && seg[0] == '1' && seg[1] == ' ' && seg[2] == '.' && seg[3] == ' ' && seg[4] == '.' && seg[5] == ' ' && seg[6] == '.'
  {
  }

  lemma Chars5b(seg: seq<Byte>)
    requires seg == "1 . . . . # . . . . 1"
    ensures |seg| == 21 && seg[7] == ' ' && seg[8] == '.' && seg[9] == ' ' && seg[10] == '#' && seg[11] == ' ' && seg[12] == '.' && seg[13] == ' '
  {
  }

  lemma Chars5c(seg: seq<Byte>)
    requires seg == "1 . . . . # . . . . 1"
    ensures |seg| == 21 && seg[14] == '.' && seg[15] == ' ' && seg[16] == '.' && seg[17] == ' ' && seg[18] == '.' && seg[19] == ' ' && seg[20] == '1'
  {
  }

  lemma Width5(seg: seq<Byte>)
    requires |seg| == 21 && seg[0] == '1' && seg[1] == ' ' && seg[2] == '.' && seg[3] == ' ' && seg[4] == '.' && seg[5] == ' ' && seg[6] == '.' && seg[7] == ' ' && seg[8] == '.' && seg[9] == ' ' && seg[10] == '#' && seg[11] == ' ' && seg[12] == '.' && seg[13] == ' ' && seg[14] == '.' && seg[15] == ' ' && seg[16] == '.' && seg[17] == ' ' && seg[18] == '.' && seg[19] == ' ' && seg[20] == '1'
    ensures Width(seg) == 11 && NL !in seg
  {
    assert WidthFrom(seg, 20) == 1;
    assert WidthFrom(seg, 19) == 1;
    assert WidthFrom(seg, 18) == 2;
    assert WidthFrom(seg, 17) == 2;
    assert WidthFrom(seg, 16) == 3;
    assert WidthFrom(seg, 15) == 3;
    assert WidthFrom(seg, 14) == 4;
    assert WidthFrom(seg, 13) == 4;
    assert WidthFrom(seg, 12) == 5;
    assert WidthFrom(seg, 11) == 5;
    assert WidthFrom(seg, 10) == 6;
    assert WidthFrom(seg, 9) == 6;
    assert WidthFrom(seg, 8) == 7;
    assert WidthFrom(seg, 7) == 7;
    assert WidthFrom(seg, 6) == 8;
    assert WidthFrom(seg, 5) == 8;
    assert WidthFrom(seg, 4) == 9;
    assert WidthFrom(seg, 3) == 9;
    assert WidthFrom(seg, 2) == 10;
    assert WidthFrom(seg, 1) == 10;
    assert WidthFrom(seg, 0) == 11;
    WidthFromIsWidth(seg, 0);
    assert seg[0..] == seg;
  }

  lemma GlyphsTail5(seg: seq<Byte>)
    requires |seg| == 21 && seg[10] == '#' && seg[11] == ' ' && seg[12] == '.' && seg[13] == ' ' && seg[14] == '.' && seg[15] == ' ' && seg[16] == '.' && seg[17] == ' ' && seg[18] == '.' && seg[19] == ' ' && seg[20] == '1'
    ensures RowObsFrom(seg, 10, 5, 5) == [Observation('1', Coord(10, 5))]
  {
    assert RowObsFrom(seg, 20, 10, 5) == [Observation('1', Coord(10, 5))];
    assert RowObsFrom(seg, 19, 10, 5) == [Observation('1', Coord(10, 5))];
    assert RowObsFrom(seg, 18, 9, 5) == [Observation('1', Coord(10, 5))];
    assert RowObsFrom(seg, 17, 9, 5) == [Observation('1', Coord(10, 5))];
    assert RowObsFrom(seg, 16, 8, 5) == [Observation('1', Coord(10, 5))];
    assert RowObsFrom(seg, 15, 8, 5) == [Observation('1', Coord(10, 5))];
    assert RowObsFrom(seg, 14, 7, 5) == [Observation('1', Coord(10, 5))];
    assert RowObsFrom(seg, 13, 7, 5) == [Observation('1', Coord(10, 5))];
    assert RowObsFrom(seg, 12, 6, 5) == [Observation('1', Coord(10, 5))];
    assert RowObsFrom(seg, 11, 6, 5) == [Observation('1', Coord(10, 5))];
  }

  lemma Glyphs5(seg: seq<Byte>)
    requires |seg| == 21 && seg[0] == '1' && seg[1] == ' ' && seg[2] == '.' && seg[3] == ' ' && seg[4] == '.' && seg[5] == ' ' && seg[6] == '.' && seg[7] == ' ' && seg[8] == '.' && seg[9] == ' ' && seg[10] == '#' && seg[11] == ' ' && seg[12] == '.' && seg[13] == ' ' && seg[14] == '.' && seg[15] == ' ' && seg[16] == '.' && seg[17] == ' ' && seg[18] == '.' && seg[19] == ' ' && seg[20] == '1'
    ensures RowObs(seg, 0, 5) == [Observation('1', Coord(0, 5)), Observation('1', Coord(10, 5))]
  {
    GlyphsTail5(seg);
    assert RowObsFrom(seg, 9, 5, 5) == [Observation('1', Coord(10, 5))];
    assert RowObsFrom(seg, 8, 4, 5) == [Observation('1', Coord(10, 5))];
    assert RowObsFrom(seg, 7, 4, 5) == [Observation('1', Coord(10, 5))];
    assert RowObsFrom(seg, 6, 3, 5) == [Observation('1', Coord(10, 5))];
    assert RowObsFrom(seg, 5, 3, 5) == [Observation('1', Coord(10, 5))];
    assert RowObsFrom(seg, 4, 2, 5) == [Observation('1', Coord(10, 5))];
    assert RowObsFrom(seg, 3, 2, 5) == [Observation('1', Coord(10, 5))];
    assert RowObsFrom(seg, 2, 1, 5) == [Observation('1', Coord(10, 5))];
    assert RowObsFrom(seg, 1, 1, 5) == [Observation('1', Coord(10, 5))];
    assert RowObsFrom(seg, 0, 0, 5) == [Observation('1', Coord(0, 5)), Observation('1', Coord(10, 5))];
    RowObsFromIsRowObs(seg, 0, 0, 5);
    assert seg[0..] == seg;
  }

  lemma WidthAt5(segs: seq<seq<Byte>>)
    requires segs == Rows + [""]
    ensures Width(segs[5]) == 11 && NL !in segs[5]
  {
    Chars5a(segs[5]);
    Chars5b(segs[5]);
    Chars5c(segs[5]);
    Width5(segs[5]);
  }

  lemma ObsAt5(segs: seq<seq<Byte>>)
    requires segs == Rows + [""]
    ensures RowObs(segs[5], 0, 5) == [Observation('1', Coord(0, 5)), Observation('1', Coord(10, 5))]
  {
    Chars5a(segs[5]);
    Chars5b(segs[5]);
    Chars5c(segs[5]);
    Glyphs5(segs[5]);
  }

  lemma Tally5()
    ensures Tallied([Observation('1', Coord(0, 5)), Observation('1', Coord(10, 5))], [Coord(0, 5), Coord(10, 5)], [], [])
  {
  }

  lemma TallyAt5(segs: seq<seq<Byte>>)
    requires segs == Rows + [""]
    ensures Tallied(RowObs(segs[5], 0, 5), [Coord(0, 5), Coord(10, 5)], [], [])
  {
    ObsAt5(segs);
    Tally5();
  }

  lemma Chars6a(seg: seq<Byte>)
    requires seg == "1 . . . # . # . . . 1"
    ensures |seg| == 21 && seg[0] == '1' && seg[1] == ' ' && seg[2] == '.' && seg[3] == ' ' && seg[4] == '.' && seg[5] == ' ' && seg[6] == '.'
  {
  }

  lemma Chars6b(seg: seq<Byte>)
    requires seg == "1 . . . # . # . . . 1"
    ensures |seg| == 21 && seg[7] == ' ' && seg[8] == '#' && seg[9] == ' ' && seg[10] == '.' && seg[11] == ' ' && seg[12] == '#' && seg[13] == ' '
  {
  }

  lemma Chars6c(seg: seq<Byte>)
    requires seg == "1 . . . # . # . . . 1"
    ensures |seg| == 21 && seg[14] == '.' && seg[15] == ' ' && seg[16] == '.' && seg[17] == ' ' && seg[18] == '.' && seg[19] == ' ' && seg[20] == '1'
  {
  }

  lemma Width6(seg: seq<Byte>)
    requires |seg| == 21 && seg[0] == '1' && seg[1] == ' ' && seg[2] == '.' && seg[3] == ' ' && seg[4] == '.' && seg[5] == ' ' && seg[6] == '.' && seg[7] == ' ' && seg[8] == '#' && seg[9] == ' ' && seg[10] == '.' && seg[11] == ' ' && seg[12] == '#' && seg[13] == ' ' && seg[14] == '.' && seg[15] == ' ' && seg[16] == '.' && seg[17] == ' ' && seg[18] == '.' && seg[19] == ' ' && seg[20] == '1'
    ensures Width(seg) == 11 && NL !in seg
  {
    assert WidthFrom(seg, 20) == 1;
    assert WidthFrom(seg, 19) == 1;
    assert WidthFrom(seg, 18) == 2;
    assert WidthFrom(seg, 17) == 2;
    assert WidthFrom(seg, 16) == 3;
    assert WidthFrom(seg, 15) == 3;
    assert WidthFrom(seg, 14) == 4;
    assert WidthFrom(seg, 13) == 4;
    assert WidthFrom(seg, 12) == 5;
    assert WidthFrom(seg, 11) == 5;
    assert WidthFrom(seg, 10) == 6;
    assert WidthFrom(seg, 9) == 6;
    assert WidthFrom(seg, 8) == 7;
    assert WidthFrom(seg, 7) == 7;
    assert WidthFrom(seg, 6) == 8;
    assert WidthFrom(seg, 5) == 8;
    assert WidthFrom(seg, 4) == 9;
    assert WidthFrom(seg, 3) == 9;
    assert WidthFrom(seg, 2) == 10;
    assert WidthFrom(seg, 1) == 10;
    assert WidthFrom(seg, 0) == 11;
    WidthFromIsWidth(seg, 0);
    assert seg[0..] == seg;
  }

  lemma GlyphsTail6(seg: seq<Byte>)
    requires |seg| == 21 && seg[10] == '.' && seg[11] == ' ' && seg[12] == '#' && seg[13] == ' ' && seg[14] == '.' && seg[15] == ' ' && seg[16] == '.' && seg[17] == ' ' && seg[18] == '.' && seg[19] == ' ' && seg[20] == '1'
    ensures RowObsFrom(seg, 10, 5, 6) == [Observation('1', Coord(10, 6))]
  {
    assert RowObsFrom(seg, 20, 10, 6) == [Observation('1', Coord(10, 6))];
    assert RowObsFrom(seg, 19, 10, 6) == [Observation('1', Coord(10, 6))];
    assert RowObsFrom(seg, 18, 9, 6) == [Observation('1', Coord(10, 6))];
    assert RowObsFrom(seg, 17, 9, 6) == [Observation('1', Coord(10, 6))];
    assert RowObsFrom(seg, 16, 8, 6) == [Observation('1', Coord(10, 6))];
    assert RowObsFrom(seg, 15, 8, 6) == [Observation('1', Coord(10, 6))];
    assert RowObsFrom(seg, 14, 7, 6) == [Observation('1', Coord(10, 6))];
    assert RowObsFrom(seg, 13, 7, 6) == [Observation('1', Coord(10, 6))];
    assert RowObsFrom(seg, 12, 6, 6) == [Observation('1', Coord(10, 6))];
    assert RowObsFrom(seg, 11, 6, 6) == [Observation('1', Coord(10, 6))];
  }

  lemma Glyphs6(seg: seq<Byte>)
    requires |seg| == 21 && seg[0] == '1' && seg[1] == ' ' && seg[2] == '.' && seg[3] == ' ' && seg[4] == '.' && seg[5] == ' ' && seg[6] == '.' && seg[7] == ' ' && seg[8] == '#' && seg[9] == ' ' && seg[10] == '.' && seg[11] == ' ' && seg[12] == '#' && seg[13] == ' ' && seg[14] == '.' && seg[15] == ' ' && seg[16] == '.' && seg[17] == ' ' && seg[18] == '.' && seg[19] == ' ' && seg[20] == '1'
    ensures RowObs(seg, 0, 6) == [Observation('1', Coord(0, 6)), Observation('1', Coord(10, 6))]
  {
    GlyphsTail6(seg);
    assert RowObsFrom(seg, 9, 5, 6) == [Observation('1', Coord(10, 6))];
    assert RowObsFrom(seg, 8, 4, 6) == [Observation('1', Coord(10, 6))];
    assert RowObsFrom(seg, 7, 4, 6) == [Observation('1', Coord(10, 6))];
    assert RowObsFrom(seg, 6, 3, 6) == [Observation('1', Coord(10, 6))];
    assert RowObsFrom(seg, 5, 3, 6) == [Observation('1', Coord(10, 6))];
    assert RowObsFrom(seg, 4, 2, 6) == [Observation('1', Coord(10, 6))];
    assert RowObsFrom(seg, 3, 2, 6) == [Observation('1', Coord(10, 6))];
    assert RowObsFrom(seg, 2, 1, 6) == [Observation('1', Coord(10, 6))];
    assert RowObsFrom(seg, 1, 1, 6) == [Observation('1', Coord(10, 6))];
    assert RowObsFrom(seg, 0, 0, 6) == [Observation('1', Coord(0, 6)), Observation('1', Coord(10, 6))];
    RowObsFromIsRowObs(seg, 0, 0, 6);
    assert seg[0..] == seg;
  }

  lemma WidthAt6(segs: seq<seq<Byte>>)
    requires segs == Rows + [""]
    ensures Width(segs[6]) == 11 && NL !in segs[6]
  {
    Chars6a(segs[6]);
    Chars6b(segs[6]);
    Chars6c(segs[6]);
    Width6(segs[6]);
  }

  lemma ObsAt6(segs: seq<seq<Byte>>)
    requires segs == Rows + [""]
    ensures RowObs(segs[6], 0, 6) == [Observation('1', Coord(0, 6)), Observation('1', Coord(10, 6))]
  {
    Chars6a(segs[6]);
    Chars6b(segs[6]);
    Chars6c(segs[6]);
    Glyphs6(segs[6]);
  }

  lemma Tally6()
    ensures Tallied([Observation('1', Coord(0, 6)), Observation('1', Coord(10, 6))], [Coord(0, 6), Coord(10, 6)], [], [])
  {
  }

  lemma TallyAt6(segs: seq<seq<Byte>>)
    requires segs == Rows + [""]
    ensures Tallied(RowObs(segs[6], 0, 6), [Coord(0, 6), Coord(10, 6)], [], [])
  {
    ObsAt6(segs);
    Tally6();
  }

  lemma Chars7a(seg: seq<Byte>)
    requires seg == "1 . . 3 . . . 2 . . 1"
    ensures |seg| == 21 && seg[0] == '1' && seg[1] == ' ' && seg[2] == '.' && seg[3] == ' ' && seg[4] == '.' && seg[5] == ' ' && seg[6] == '3'
  {
  }

  lemma Chars7b(seg: seq<Byte>)
    requires seg == "1 . . 3 . . . 2 . . 1"
    ensures |seg| == 21 && seg[7] == ' ' && seg[8] == '.' && seg[9] == ' ' && seg[10] == '.' && seg[11] == ' ' && seg[12] == '.' && seg[13] == ' '
  {
  }

  lemma Chars7c(seg: seq<Byte>)
    requires seg == "1 . . 3 . . . 2 . . 1"
    ensures |seg| == 21 && seg[14] == '2' && seg[15] == ' ' && seg[16] == '.' && seg[17] == ' ' && seg[18] == '.' && seg[19] == ' ' && seg[20] == '1'
  {
  }

  lemma Width7(seg: seq<Byte>)
    requires |seg| == 21 && seg[0] == '1' && seg[1] == ' ' && seg[2] == '.' && seg[3] == ' ' && seg[4] == '.' && seg[5] == ' ' && seg[6] == '3' && seg[7] == ' ' && seg[8] == '.' && seg[9] == ' ' && seg[10] == '.' && seg[11] == ' ' && seg[12] == '.' && seg[13] == ' ' && seg[14] == '2' && seg[15] == ' ' && seg[16] == '.' && seg[17] == ' ' && seg[18] == '.' && seg[19] == ' ' && seg[20] == '1'
    ensures Width(seg) == 11 && NL !in seg
  {
    assert WidthFrom(seg, 20) == 1;
    assert WidthFrom(seg, 19) == 1;
    assert WidthFrom(seg, 18) == 2;
    assert WidthFrom(seg, 17) == 2;
    assert WidthFrom(seg, 16) == 3;
    assert WidthFrom(seg, 15) == 3;
    assert WidthFrom(seg, 14) == 4;
    assert WidthFrom(seg, 13) == 4;
    assert WidthFrom(seg, 12) == 5;
    assert WidthFrom(seg, 11) == 5;
    assert WidthFrom(seg, 10) == 6;
    assert WidthFrom(seg, 9) == 6;
    assert WidthFrom(seg, 8) == 7;
    assert WidthFrom(seg, 7) == 7;
    assert WidthFrom(seg, 6) == 8;
    assert WidthFrom(seg, 5) == 8;
    assert WidthFrom(seg, 4) == 9;
    assert WidthFrom(seg, 3) == 9;
    assert WidthFrom(seg, 2) == 10;
    assert WidthFrom(seg, 1) == 10;
    assert WidthFrom(seg, 0) == 11;
    WidthFromIsWidth(seg, 0);
    assert seg[0..] == seg;
  }

  lemma GlyphsTail7(seg: seq<Byte>)
    requires |seg| == 21 && seg[10] == '.' && seg[11] == ' ' && seg[12] == '.' && seg[13] == ' ' && seg[14] == '2' && seg[15] == ' ' && seg[16] == '.' && seg[17] == ' ' && seg[18] == '.' && seg[19] == ' ' && seg[20] == '1'
    ensures RowObsFrom(seg, 10, 5, 7) == [Observation('2', Coord(7, 7)), Observation('1', Coord(10, 7))]
  {
    assert RowObsFrom(seg, 20, 10, 7) == [Observation('1', Coord(10, 7))];
    assert RowObsFrom(seg, 19, 10, 7) == [Observation('1', Coord(10, 7))];
    assert RowObsFrom(seg, 18, 9, 7) == [Observation('1', Coord(10, 7))];
    assert RowObsFrom(seg, 17, 9, 7) == [Observation('1', Coord(10, 7))];
    assert RowObsFrom(seg, 16, 8, 7) == [Observation('1', Coord(10, 7))];
    assert RowObsFrom(seg, 15, 8, 7) == [Observation('1', Coord(10, 7))];
    assert RowObsFrom(seg, 14, 7, 7) == [Observation('2', Coord(7, 7)), Observation('1', Coord(10, 7))];
    assert RowObsFrom(seg, 13, 7, 7) == [Observation('2', Coord(7, 7)), Observation('1', Coord(10, 7))];
    assert RowObsFrom(seg, 12, 6, 7) == [Observation('2', Coord(7, 7)), Observation('1', Coord(10, 7))];
    assert RowObsFrom(seg, 11, 6, 7) == [Observation('2', Coord(7, 7)), Observation('1', Coord(10, 7))];
  }

  lemma Glyphs7(seg: seq<Byte>)
    requires |seg| == 21 && seg[0] == '1' && seg[1] == ' ' && seg[2] == '.' && seg[3] == ' ' && seg[4] == '.' && seg[5] == ' ' && seg[6] == '3' && seg[7] == ' ' && seg[8] == '.' && seg[9] == ' ' && seg[10] == '.' && seg[11] == ' ' && seg[12] == '.' && seg[13] == ' ' && seg[14] == '2' && seg[15] == ' ' && seg[16] == '.' && seg[17] == ' ' && seg[18] == '.' && seg[19] == ' ' && seg[20] == '1'
    ensures RowObs(seg, 0, 7) == [Observation('1', Coord(0, 7)), Observation('3', Coord(3, 7)), Observation('2', Coord(7, 7)), Observation('1', Coord(10, 7))]
  {
    GlyphsTail7(seg);
    assert RowObsFrom(seg, 9, 5, 7) == [Observation('2', Coord(7, 7)), Observation('1', Coord(10, 7))];
    assert RowObsFrom(seg, 8, 4, 7) == [Observation('2', Coord(7, 7)), Observation('1', Coord(10, 7))];
    assert RowObsFrom(seg, 7, 4, 7) == [Observation('2', Coord(7, 7)), Observation('1', Coord(10, 7))];
    assert RowObsFrom(seg, 6, 3, 7) == [Observation('3', Coord(3, 7)), Observation('2', Coord(7, 7)), Observation('1', Coord(10, 7))];
    assert RowObsFrom(seg, 5, 3, 7) == [Observation('3', Coord(3, 7)), Observation('2', Coord(7, 7)), Observation('1', Coord(10, 7))];
    assert RowObsFrom(seg, 4, 2, 7) == [Observation('3', Coord(3, 7)), Observation('2', Coord(7, 7)), Observation('1', Coord(10, 7))];
    assert RowObsFrom(seg, 3, 2, 7) == [Observation('3', Coord(3, 7)), Observation('2', Coord(7, 7)), Observation('1', Coord(10, 7))];
    assert RowObsFrom(seg, 2, 1, 7) == [Observation('3', Coord(3, 7)), Observation('2', Coord(7, 7)), Observation('1', Coord(10, 7))];
    assert RowObsFrom(seg, 1, 1, 7) == [Observation('3', Coord(3, 7)), Observation('2', Coord(7, 7)), Observation('1', Coord(10, 7))];
    assert RowObsFrom(seg, 0, 0, 7) == [Observation('1', Coord(0, 7)), Observation('3', Coord(3, 7)), Observation('2', Coord(7, 7)), Observation('1', Coord(10, 7))];
    RowObsFromIsRowObs(seg, 0, 0, 7);
    assert seg[0..] == seg;
  }

  lemma WidthAt7(segs: seq<seq<Byte>>)
    requires segs == Rows + [""]
    ensures Width(segs[7]) == 11 && NL !in segs[7]
  {
    Chars7a(segs[7]);
    Chars7b(segs[7]);
    Chars7c(segs[7]);
    Width7(segs[7]);
  }

  lemma ObsAt7(segs: seq<seq<Byte>>)
    requires segs == Rows + [""]
    ensures RowObs(segs[7], 0, 7) == [Observation('1', Coord(0, 7)), Observation('3', Coord(3, 7)), Observation('2', Coord(7, 7)), Observation('1', Coord(10, 7))]
  {
    Chars7a(segs[7]);
    Chars7b(segs[7]);
    Chars7c(segs[7]);
    Glyphs7(segs[7]);
  }

  lemma Tally7()
    ensures Tallied([Observation('1', Coord(0, 7)), Observation('3', Coord(3, 7)), Observation('2', Coord(7, 7)), Observation('1', Coord(10, 7))], [Coord(0, 7), Coord(10, 7)], [Coord(7, 7)], [Coord(3, 7)])
  {
  }

  lemma TallyAt7(segs: seq<seq<Byte>>)
    requires segs == Rows + [""]
    ensures Tallied(RowObs(segs[7], 0, 7), [Coord(0, 7), Coord(10, 7)], [Coord(7, 7)], [Coord(3, 7)])
  {
    ObsAt7(segs);
    Tally7();
  }

  lemma Chars8a(seg: seq<Byte>)
    requires seg == ". 1 . . . . . . . 1 ."
    ensures |seg| == 21 && seg[0] == '.' && seg[1] == ' ' && seg[2] == '1' && seg[3] == ' ' && seg[4] == '.' && seg[5] == ' ' && seg[6] == '.'
  {
  }

  lemma Chars8b(seg: seq<Byte>)
    requires seg == ". 1 . . . . . . . 1 ."
    ensures |seg| == 21 && seg[7] == ' ' && seg[8] == '.' && seg[9] == ' ' && seg[10] == '.' && seg[11] == ' ' && seg[12] == '.' && seg[13] == ' '
  {
  }

  lemma Chars8c(seg: seq<Byte>)
    requires seg == ". 1 . . . . . . . 1 ."
    ensures |seg| == 21 && seg[14] == '.' && seg[15] == ' ' && seg[16] == '.' && seg[17] == ' ' && seg[18] == '1' && seg[19] == ' ' && seg[20] == '.'
  {
  }

  lemma Width8(seg: seq<Byte>)
    requires |seg| == 21 && seg[0] == '.' && seg[1] == ' ' && seg[2] == '1' && seg[3] == ' ' && seg[4] == '.' && seg[5] == ' ' && seg[6] == '.' && seg[7] == ' ' && seg[8] == '.' && seg[9] == ' ' && seg[10] == '.' && seg[11] == ' ' && seg[12] == '.' && seg[13] == ' ' && seg[14] == '.' && seg[15] == ' ' && seg[16] == '.' && seg[17] == ' ' && seg[18] == '1' && seg[19] == ' ' && seg[20] == '.'
    ensures Width(seg) == 11 && NL !in seg
  {
    assert WidthFrom(seg, 20) == 1;
    assert WidthFrom(seg, 19) == 1;
    assert WidthFrom(seg, 18) == 2;
    assert WidthFrom(seg, 17) == 2;
    assert WidthFrom(seg, 16) == 3;
    assert WidthFrom(seg, 15) == 3;
    assert WidthFrom(seg, 14) == 4;
    assert WidthFrom(seg, 13) == 4;
    assert WidthFrom(seg, 12) == 5;
    assert WidthFrom(seg, 11) == 5;
    assert WidthFrom(seg, 10) == 6;
    assert WidthFrom(seg, 9) == 6;
    assert WidthFrom(seg, 8) == 7;
    assert WidthFrom(seg, 7) == 7;
    assert WidthFrom(seg, 6) == 8;
    assert WidthFrom(seg, 5) == 8;
    assert WidthFrom(seg, 4) == 9;
    assert WidthFrom(seg, 3) == 9;
    assert WidthFrom(seg, 2) == 10;
    assert WidthFrom(seg, 1) == 10;
    assert WidthFrom(seg, 0) == 11;
    WidthFromIsWidth(seg, 0);
    assert seg[0..] == seg;
  }

  lemma GlyphsTail8(seg: seq<Byte>)
    requires |seg| == 21 && seg[10] == '.' && seg[11] == ' ' && seg[12] == '.' && seg[13] == ' ' && seg[14] == '.' && seg[15] == ' ' && seg[16] == '.' && seg[17] == ' ' && seg[18] == '1' && seg[19] == ' ' && seg[20] == '.'
    ensures RowObsFrom(seg, 10, 5, 8) == [Observation('1', Coord(9, 8))]
  {
    assert RowObsFrom(seg, 20, 10, 8) == [];
    assert RowObsFrom(seg, 19, 10, 8) == [];
    assert RowObsFrom(seg, 18, 9, 8) == [Observation('1', Coord(9, 8))];
    assert RowObsFrom(seg, 17, 9, 8) == [Observation('1', Coord(9, 8))];
    assert RowObsFrom(seg, 16, 8, 8) == [Observation('1', Coord(9, 8))];
    assert RowObsFrom(seg, 15, 8, 8) == [Observation('1', Coord(9, 8))];
    assert RowObsFrom(seg, 14, 7, 8) == [Observation('1', Coord(9, 8))];
    assert RowObsFrom(seg, 13, 7, 8) == [Observation('1', Coord(9, 8))];
    assert RowObsFrom(seg, 12, 6, 8) == [Observation('1', Coord(9, 8))];
    assert RowObsFrom(seg, 11, 6, 8) == [Observation('1', Coord(9, 8))];
  }

  lemma Glyphs8(seg: seq<Byte>)
    requires |seg| == 21 && seg[0] == '.' && seg[1] == ' ' && seg[2] == '1' && seg[3] == ' ' && seg[4] == '.' && seg[5] == ' ' && seg[6] == '.' && seg[7] == ' ' && seg[8] == '.' && seg[9] == ' ' && seg[10] == '.' && seg[11] == ' ' && seg[12] == '.' && seg[13] == ' ' && seg[14] == '.' && seg[15] == ' ' && seg[16] == '.' && seg[17] == ' ' && seg[18] == '1' && seg[19] == ' ' && seg[20] == '.'
    ensures RowObs(seg, 0, 8) == [Observation('1', Coord(1, 8)), Observation('1', Coord(9, 8))]
  {
    GlyphsTail8(seg);
    assert RowObsFrom(seg, 9, 5, 8) == [Observation('1', Coord(9, 8))];
    assert RowObsFrom(seg, 8, 4, 8) == [Observation('1', Coord(9, 8))];
    assert RowObsFrom(seg, 7, 4, 8) == [Observation('1', Coord(9, 8))];
    assert RowObsFrom(seg, 6, 3, 8) == [Observation('1', Coord(9, 8))];
    assert RowObsFrom(seg, 5, 3, 8) == [Observation('1', Coord(9, 8))];
    assert RowObsFrom(seg, 4, 2, 8) == [Observation('1', Coord(9, 8))];
    assert RowObsFrom(seg, 3, 2, 8) == [Observation('1', Coord(9, 8))];
    assert RowObsFrom(seg, 2, 1, 8) == [Observation('1', Coord(1, 8)), Observation('1', Coord(9, 8))];
    assert RowObsFrom(seg, 1, 1, 8) == [Observation('1', Coord(1, 8)), Observation('1', Coord(9, 8))];
    assert RowObsFrom(seg, 0, 0, 8) == [Observation('1', Coord(1, 8)), Observation('1', Coord(9, 8))];
    RowObsFromIsRowObs(seg, 0, 0, 8);
    assert seg[0..] == seg;
  }

  lemma WidthAt8(segs: seq<seq<Byte>>)
    requires segs == Rows + [""]
    ensures Width(segs[8]) == 11 && NL !in segs[8]
  {
    Chars8a(segs[8]);
    Chars8b(segs[8]);
    Chars8c(segs[8]);
    Width8(segs[8]);
  }

  lemma ObsAt8(segs: seq<seq<Byte>>)
    requires segs == Rows + [""]
    ensures RowObs(segs[8], 0, 8) == [Observation('1', Coord(1, 8)), Observation('1', Coord(9, 8))]
  {
    Chars8a(segs[8]);
    Chars8b(segs[8]);
    Chars8c(segs[8]);
    Glyphs8(segs[8]);
  }

  lemma Tally8()
    ensures Tallied([Observation('1', Coord(1, 8)), Observation('1', Coord(9, 8))], [Coord(1, 8), Coord(9, 8)], [], [])
  {
  }

  lemma TallyAt8(segs: seq<seq<Byte>>)
    requires segs == Rows + [""]
    ensures Tallied(RowObs(segs[8], 0, 8), [Coord(1, 8), Coord(9, 8)], [], [])
  {
    ObsAt8(segs);
    Tally8();
  }

  lemma Chars9a(seg: seq<Byte>)
    requires seg == ". . 1 . . . . . 1 . ."
    ensures |seg| == 21 && seg[0] == '.' && seg[1] == ' ' && seg[2] == '.' && seg[3] == ' ' && seg[4] == '1' && seg[5] == ' ' && seg[6] == '.'
  {
  }

  lemma Chars9b(seg: seq<Byte>)
    requires seg == ". . 1 . . . . . 1 . ."
    ensures |seg| == 21 && seg[7] == ' ' && seg[8] == '.' && seg[9] == ' ' && seg[10] == '.' && seg[11] == ' ' && seg[12] == '.' && seg[13] == ' '
  {
  }

  lemma Chars9c(seg: seq<Byte>)
    requires seg == ". . 1 . . . . . 1 . ."
    ensures |seg| == 21 && seg[14] == '.' && seg[15] == ' ' && seg[16] == '1' && seg[17] == ' ' && seg[18] == '.' && seg[19] == ' ' && seg[20] == '.'
  {
  }

  lemma Width9(seg: seq<Byte>)
    requires |seg| == 21 && seg[0] == '.' && seg[1] == ' ' && seg[2] == '.' && seg[3] == ' ' && seg[4] == '1' && seg[5] == ' ' && seg[6] == '.' && seg[7] == ' ' && seg[8] == '.' && seg[9] == ' ' && seg[10] == '.' && seg[11] == ' ' && seg[12] == '.' && seg[13] == ' ' && seg[14] == '.' && seg[15] == ' ' && seg[16] == '1' && seg[17] == ' ' && seg[18] == '.' && seg[19] == ' ' && seg[20] == '.'
    ensures Width(seg) == 11 && NL !in seg
  {
    assert WidthFrom(seg, 20) == 1;
    assert WidthFrom(seg, 19) == 1;
    assert WidthFrom(seg, 18) == 2;
    assert WidthFrom(seg, 17) == 2;
    assert WidthFrom(seg, 16) == 3;
    assert WidthFrom(seg, 15) == 3;
    assert WidthFrom(seg, 14) == 4;
    assert WidthFrom(seg, 13) == 4;
    assert WidthFrom(seg, 12) == 5;
    assert WidthFrom(seg, 11) == 5;
    assert WidthFrom(seg, 10) == 6;
    assert WidthFrom(seg, 9) == 6;
    assert WidthFrom(seg, 8) == 7;
    assert WidthFrom(seg, 7) == 7;
    assert WidthFrom(seg, 6) == 8;
    assert WidthFrom(seg, 5) == 8;
    assert WidthFrom(seg, 4) == 9;
    assert WidthFrom(seg, 3) == 9;
    assert WidthFrom(seg, 2) == 10;
    assert WidthFrom(seg, 1) == 10;
    assert WidthFrom(seg, 0) == 11;
    WidthFromIsWidth(seg, 0);
    assert seg[0..] == seg;
  }

  lemma GlyphsTail9(seg: seq<Byte>)
    requires |seg| == 21 && seg[10] == '.' && seg[11] == ' ' && seg[12] == '.' && seg[13] == ' ' && seg[14] == '.' && seg[15] == ' ' && seg[16] == '1' && seg[17] == ' ' && seg[18] == '.' && seg[19] == ' ' && seg[20] == '.'
    ensures RowObsFrom(seg, 10, 5, 9) == [Observation('1', Coord(8, 9))]
  {
    assert RowObsFrom(seg, 20, 10, 9) == [];
    assert RowObsFrom(seg, 19, 10, 9) == [];
    assert RowObsFrom(seg, 18, 9, 9) == [];
    assert RowObsFrom(seg, 17, 9, 9) == [];
    assert RowObsFrom(seg, 16, 8, 9) == [Observation('1', Coord(8, 9))];
    assert RowObsFrom(seg, 15, 8, 9) == [Observation('1', Coord(8, 9))];
    assert RowObsFrom(seg, 14, 7, 9) == [Observation('1', Coord(8, 9))];
    assert RowObsFrom(seg, 13, 7, 9) == [Observation('1', Coord(8, 9))];
    assert RowObsFrom(seg, 12, 6, 9) == [Observation('1', Coord(8, 9))];
    assert RowObsFrom(seg, 11, 6, 9) == [Observation('1', Coord(8, 9))];
  }

  lemma Glyphs9(seg: seq<Byte>)
    requires |seg| == 21 && seg[0] == '.' && seg[1] == ' ' && seg[2] == '.' && seg[3] == ' ' && seg[4] == '1' && seg[5] == ' ' && seg[6] == '.' && seg[7] == ' ' && seg[8] == '.' && seg[9] == ' ' && seg[10] == '.' && seg[11] == ' ' && seg[12] == '.' && seg[13] == ' ' && seg[14] == '.' && seg[15] == ' ' && seg[16] == '1' && seg[17] == ' ' && seg[18] == '.' && seg[19] == ' ' && seg[20] == '.'
    ensures RowObs(seg, 0, 9) == [Observation('1', Coord(2, 9)), Observation('1', Coord(8, 9))]
  {
    GlyphsTail9(seg);
    assert RowObsFrom(seg, 9, 5, 9) == [Observation('1', Coord(8, 9))];
    assert RowObsFrom(seg, 8, 4, 9) == [Observation('1', Coord(8, 9))];
    assert RowObsFrom(seg, 7, 4, 9) == [Observation('1', Coord(8, 9))];
    assert RowObsFrom(seg, 6, 3, 9) == [Observation('1', Coord(8, 9))];
    assert RowObsFrom(seg, 5, 3, 9) == [Observation('1', Coord(8, 9))];
    assert RowObsFrom(seg, 4, 2, 9) == [Observation('1', Coord(2, 9)), Observation('1', Coord(8, 9))];
    assert RowObsFrom(seg, 3, 2, 9) == [Observation('1', Coord(2, 9)), Observation('1', Coord(8, 9))];
    assert RowObsFrom(seg, 2, 1, 9) == [Observation('1', Coord(2, 9)), Observation('1', Coord(8, 9))];
    assert RowObsFrom(seg, 1, 1, 9) == [Observation('1', Coord(2, 9)), Observation('1', Coord(8, 9))];
    assert RowObsFrom(seg, 0, 0, 9) == [Observation('1', Coord(2, 9)), Observation('1', Coord(8, 9))];
    RowObsFromIsRowObs(seg, 0, 0, 9);
    assert seg[0..] == seg;
  }

  lemma WidthAt9(segs: seq<seq<Byte>>)
    requires segs == Rows + [""]
    ensures Width(segs[9]) == 11 && NL !in segs[9]
  {
    Chars9a(segs[9]);
    Chars9b(segs[9]);
    Chars9c(segs[9]);
    Width9(segs[9]);
  }

  lemma ObsAt9(segs: seq<seq<Byte>>)
    requires segs == Rows + [""]
    ensures RowObs(segs[9], 0, 9) == [Observation('1', Coord(2, 9)), Observation('1', Coord(8, 9))]
  {
    Chars9a(segs[9]);
    Chars9b(segs[9]);
    Chars9c(segs[9]);
    Glyphs9(segs[9]);
  }

  lemma Tally9()
    ensures Tallied([Observation('1', Coord(2, 9)), Observation('1', Coord(8, 9))], [Coord(2, 9), Coord(8, 9)], [], [])
  {
  }

  lemma TallyAt9(segs: seq<seq<Byte>>)
    requires segs == Rows + [""]
    ensures Tallied(RowObs(segs[9], 0, 9), [Coord(2, 9), Coord(8, 9)], [], [])
  {
    ObsAt9(segs);
    Tally9();
  }

  lemma Chars10a(seg: seq<Byte>)
    requires seg == ". . . 1 1 1 1 1 . . ."
    ensures |seg| == 21 && seg[0] == '.' && seg[1] == ' ' && seg[2] == '.' && seg[3] == ' ' && seg[4] == '.' && seg[5] == ' ' && seg[6] == '1'
  {
  }

  lemma Chars10b(seg: seq<Byte>)
    requires seg == ". . . 1 1 1 1 1 . . ."
    ensures |seg| == 21 && seg[7] == ' ' && seg[8] == '1' && seg[9] == ' ' && seg[10] == '1' && seg[11] == ' ' && seg[12] == '1' && seg[13] == ' '
  {
  }

  lemma Chars10c(seg: seq<Byte>)
    requires seg == ". . . 1 1 1 1 1 . . ."
    ensures |seg| == 21 && seg[14] == '1' && seg[15] == ' ' && seg[16] == '.' && seg[17] == ' ' && seg[18] == '.' && seg[19] == ' ' && seg[20] == '.'
  {
  }

  lemma Width10(seg: seq<Byte>)
    requires |seg| == 21 && seg[0] == '.' && seg[1] == ' ' && seg[2] == '.' && seg[3] == ' ' && seg[4] == '.' && seg[5] == ' ' && seg[6] == '1' && seg[7] == ' ' && seg[8] == '1' && seg[9] == ' ' && seg[10] == '1' && seg[11] == ' ' && seg[12] == '1' && seg[13] == ' ' && seg[14] == '1' && seg[15] == ' ' && seg[16] == '.' && seg[17] == ' ' && seg[18] == '.' && seg[19] == ' ' && seg[20] == '.'
    ensures Width(seg) == 11 && NL !in seg
  {
    assert WidthFrom(seg, 20) == 1;
    assert WidthFrom(seg, 19) == 1;
    assert WidthFrom(seg, 18) == 2;
    assert WidthFrom(seg, 17) == 2;
    assert WidthFrom(seg, 16) == 3;
    assert WidthFrom(seg, 15) == 3;
    assert WidthFrom(seg, 14) == 4;
    assert WidthFrom(seg, 13) == 4;
    assert WidthFrom(seg, 12) == 5;
    assert WidthFrom(seg, 11) == 5;
    assert WidthFrom(seg, 10) == 6;
    assert WidthFrom(seg, 9) == 6;
    assert WidthFrom(seg, 8) == 7;
    assert WidthFrom(seg, 7) == 7;
    assert WidthFrom(seg, 6) == 8;
    assert WidthFrom(seg, 5) == 8;
    assert WidthFrom(seg, 4) == 9;
    assert WidthFrom(seg, 3) == 9;
    assert WidthFrom(seg, 2) == 10;
    assert WidthFrom(seg, 1) == 10;
    assert WidthFrom(seg, 0) == 11;
    WidthFromIsWidth(seg, 0);
    assert seg[0..] == seg;
  }

  lemma GlyphsTail10(seg: seq<Byte>)
    requires |seg| == 21 && seg[10] == '1' && seg[11] == ' ' && seg[12] == '1' && seg[13] == ' ' && seg[14] == '1' && seg[15] == ' ' && seg[16] == '.' && seg[17] == ' ' && seg[18] == '.' && seg[19] == ' ' && seg[20] == '.'
    ensures RowObsFrom(seg, 10, 5, 10) == [Observation('1', Coord(5, 10)), Observation('1', Coord(6, 10)), Observation('1', Coord(7, 10))]
  {
    assert RowObsFrom(seg, 20, 10, 10) == [];
    assert RowObsFrom(seg, 19, 10, 10) == [];
    assert RowObsFrom(seg, 18, 9, 10) == [];
    assert RowObsFrom(seg, 17, 9, 10) == [];
    assert RowObsFrom(seg, 16, 8, 10) == [];
    assert RowObsFrom(seg, 15, 8, 10) == [];
    assert RowObsFrom(seg, 14, 7, 10) == [Observation('1', Coord(7, 10))];
    assert RowObsFrom(seg, 13, 7, 10) == [Observation('1', Coord(7, 10))];
    assert RowObsFrom(seg, 12, 6, 10) == [Observation('1', Coord(6, 10)), Observation('1', Coord(7, 10))];
    assert RowObsFrom(seg, 11, 6, 10) == [Observation('1', Coord(6, 10)), Observation('1', Coord(7, 10))];
  }

  lemma Glyphs10(seg: seq<Byte>)
    requires |seg| == 21 && seg[0] == '.' && seg[1] == ' ' && seg[2] == '.' && seg[3] == ' ' && seg[4] == '.' && seg[5] == ' ' && seg[6] == '1' && seg[7] == ' ' && seg[8] == '1' && seg[9] == ' ' && seg[10] == '1' && seg[11] == ' ' && seg[12] == '1' && seg[13] == ' ' && seg[14] == '1' && seg[15] == ' ' && seg[16] == '.' && seg[17] == ' ' && seg[18] == '.' && seg[19] == ' ' && seg[20] == '.'
    ensures RowObs(seg, 0, 10) == [Observation('1', Coord(3, 10)), Observation('1', Coord(4, 10)), Observation('1', Coord(5, 10)), Observation('1', Coord(6, 10)), Observation('1', Coord(7, 10))]
  {
    GlyphsTail10(seg);
    assert RowObsFrom(seg, 9, 5, 10) == [Observation('1', Coord(5, 10)), Observation('1', Coord(6, 10)), Observation('1', Coord(7, 10))];
    assert RowObsFrom(seg, 8, 4, 10) == [Observation('1', Coord(4, 10)), Observation('1', Coord(5, 10)), Observation('1', Coord(6, 10)), Observation('1', Coord(7, 10))];
    assert RowObsFrom(seg, 7, 4, 10) == [Observation('1', Coord(4, 10)), Observation('1', Coord(5, 10)), Observation('1', Coord(6, 10)), Observation('1', Coord(7, 10))];
    assert RowObsFrom(seg, 6, 3, 10) == [Observation('1', Coord(3, 10)), Observation('1', Coord(4, 10)), Observation('1', Coord(5, 10)), Observation('1', Coord(6, 10)), Observation('1', Coord(7, 10))];
    assert RowObsFrom(seg, 5, 3, 10) == [Observation('1', Coord(3, 10)), Observation('1', Coord(4, 10)), Observation('1', Coord(5, 10)), Observation('1', Coord(6, 10)), Observation('1', Coord(7, 10))];
    assert RowObsFrom(seg, 4, 2, 10) == [Observation('1', Coord(3, 10)), Observation('1', Coord(4, 10)), Observation('1', Coord(5, 10)), Observation('1', Coord(6, 10)), Observation('1', Coord(7, 10))];
    assert RowObsFrom(seg, 3, 2, 10) == [Observation('1', Coord(3, 10)), Observation('1', Coord(4, 10)), Observation('1', Coord(5, 10)), Observation('1', Coord(6, 10)), Observation('1', Coord(7, 10))];
    assert RowObsFrom(seg, 2, 1, 10) == [Observation('1', Coord(3, 10)), Observation('1', Coord(4, 10)), Observation('1', Coord(5, 10)), Observation('1', Coord(6, 10)), Observation('1', Coord(7, 10))];
    assert RowObsFrom(seg, 1, 1, 10) == [Observation('1', Coord(3, 10)), Observation('1', Coord(4, 10)), Observation('1', Coord(5, 10)), Observation('1', Coord(6, 10)), Observation('1', Coord(7, 10))];
    assert RowObsFrom(seg, 0, 0, 10) == [Observation('1', Coord(3, 10)), Observation('1', Coord(4, 10)), Observation('1', Coord(5, 10)), Observation('1', Coord(6, 10)), Observation('1', Coord(7, 10))];
    RowObsFromIsRowObs(seg, 0, 0, 10);
    assert seg[0..] == seg;
  }

  lemma WidthAt10(segs: seq<seq<Byte>>)
    requires segs == Rows + [""]
    ensures Width(segs[10]) == 11 && NL !in segs[10]
  {
    Chars10a(segs[10]);
    Chars10b(segs[10]);
    Chars10c(segs[10]);
    Width10(segs[10]);
  }

  lemma ObsAt10(segs: seq<seq<Byte>>)
    requires segs == Rows + [""]
    ensures RowObs(segs[10], 0, 10) == [Observation('1', Coord(3, 10)), Observation('1', Coord(4, 10)), Observation('1', Coord(5, 10)), Observation('1', Coord(6, 10)), Observation('1', Coord(7, 10))]
  {
    Chars10a(segs[10]);
    Chars10b(segs[10]);
    Chars10c(segs[10]);
    Glyphs10(segs[10]);
  }

  lemma Tally10()
    ensures Tallied([Observation('1', Coord(3, 10)), Observation('1', Coord(4, 10)), Observation('1', Coord(5, 10)), Observation('1', Coord(6, 10)), Observation('1', Coord(7, 10))], [Coord(3, 10), Coord(4, 10), Coord(5, 10), Coord(6, 10), Coord(7, 10)], [], [])
  {
  }

  lemma TallyAt10(segs: seq<seq<Byte>>)
    requires segs == Rows + [""]
    ensures Tallied(RowObs(segs[10], 0, 10), [Coord(3, 10), Coord(4, 10), Coord(5, 10), Coord(6, 10), Coord(7, 10)], [], [])
  {
    ObsAt10(segs);
    Tally10();
  }

  // ---------------------------------------------------------------------------
  // The scan of the sample.

  lemma GatherWidths0(segs: seq<seq<Byte>>)
    requires |segs| == 12
    requires Width(segs[0]) == 11 && NL !in segs[0]
    requires Width(segs[1]) == 11 && NL !in segs[1]
    requires Width(segs[2]) == 11 && NL !in segs[2]
    requires Width(segs[3]) == 11 && NL !in segs[3]
    ensures forall k :: 0 <= k < 4 ==> Width(segs[k]) == 11 && NL !in segs[k]
  {
  }

  /** Rows 0 to 3 are eleven cells wide and hold no line break. */
  lemma WidthPart0(segs: seq<seq<Byte>>)
    requires segs == Rows + [""]
    ensures forall k :: 0 <= k < 4 ==> Width(segs[k]) == 11 && NL !in segs[k]
  {
    WidthAt0(segs);
    WidthAt1(segs);
    WidthAt2(segs);
    WidthAt3(segs);
    GatherWidths0(segs);
  }

  lemma GatherWidths4(segs: seq<seq<Byte>>)
    requires |segs| == 12
    requires Width(segs[4]) == 11 && NL !in segs[4]
    requires Width(segs[5]) == 11 && NL !in segs[5]
    requires Width(segs[6]) == 11 && NL !in segs[6]
    requires Width(segs[7]) == 11 && NL !in segs[7]
    ensures forall k :: 4 <= k < 8 ==> Width(segs[k]) == 11 && NL !in segs[k]
  {
  }

  /** Rows 4 to 7 are eleven cells wide and hold no line break. */
  lemma WidthPart4(segs: seq<seq<Byte>>)
    requires segs == Rows + [""]
    ensures forall k :: 4 <= k < 8 ==> Width(segs[k]) == 11 && NL !in segs[k]
  {
    WidthAt4(segs);
    WidthAt5(segs);
    WidthAt6(segs);
    WidthAt7(segs);
    GatherWidths4(segs);
  }

  lemma GatherWidths8(segs: seq<seq<Byte>>)
    requires |segs| == 12
    requires Width(segs[8]) == 11 && NL !in segs[8]
    requires Width(segs[9]) == 11 && NL !in segs[9]
    requires Width(segs[10]) == 11 && NL !in segs[10]
    ensures forall k :: 8 <= k < 11 ==> Width(segs[k]) == 11 && NL !in segs[k]
  {
  }

  /** Rows 8 to 10 are eleven cells wide and hold no line break. */
  lemma WidthPart8(segs: seq<seq<Byte>>)
    requires segs == Rows + [""]
    ensures forall k :: 8 <= k < 11 ==> Width(segs[k]) == 11 && NL !in segs[k]
  {
    WidthAt8(segs);
    WidthAt9(segs);
    WidthAt10(segs);
    GatherWidths8(segs);
  }

  lemma RowsChain(segs: seq<seq<Byte>>)
    requires |segs| == 12 && segs[11] == []
    requires forall k :: 0 <= k < 4 ==> Width(segs[k]) == 11 && NL !in segs[k]
    requires forall k :: 4 <= k < 8 ==> Width(segs[k]) == 11 && NL !in segs[k]
    requires forall k :: 8 <= k < 11 ==> Width(segs[k]) == 11 && NL !in segs[k]
    ensures forall s <- segs :: NL !in s
    ensures |Completed(segs)| == 11 && Uniform(Completed(segs), 11)
  {
    assert !Completes(segs[11]);
  }

  /**
   * The sample text splits into its rows and the empty piece after the final
   * '\n', and scans to an 11x11 grid holding the glyphs of those pieces.
   */
  lemma SampleScan(text: seq<Byte>, segs: seq<seq<Byte>>)
    requires text == Text && segs == Rows + [""]
    ensures Split(text) == segs
    ensures Scan(text) == Some(Grid(11, 11, ObsOfRows(segs, 0)))
  {
    WidthPart0(segs);
    WidthPart4(segs);
    WidthPart8(segs);
    RowsChain(segs);
    SplitJoin(segs);
    ScanMatchesSpec(text);
  }


  // ---------------------------------------------------------------------------
  // Per-glyph tallies, gathered row by row over the pieces.

  /** Past the eleventh row there is only the empty final piece, which records nothing. */
  lemma RowsEnd(segs: seq<seq<Byte>>)
    requires |segs| == 12 && segs[11] == []
    ensures ObsOfRowsFrom(segs, 11) == []
  {
    assert ObsOfRowsFrom(segs, 12) == [];
  }

  /** The first three glyphs of the alphabet, '1', '2' and '3': the only ones the sample uses. */
  predicate Early(o: Observation) {
    IndexOf(o.glyph) < 3
  }

  /** No glyph past '3' occurs: the recursive reading, which concrete recordings evaluate directly. */
  predicate AllEarly(obs: seq<Observation>)
    decreases |obs|
  {
    obs == [] || (Early(obs[0]) && AllEarly(obs[1..]))
  }

  /** The recursive reading holds of a concatenation when it holds of both parts. */
  lemma {:induction false} AllEarlyConcat(a: seq<Observation>, b: seq<Observation>)
    requires AllEarly(a) && AllEarly(b)
    ensures AllEarly(a + b)
    decreases |a|
  {
    if a == [] {
      assert a + b == b;
    } else {
      AllEarlyConcat(a[1..], b);
      assert (a + b)[0] == a[0] && (a + b)[1..] == a[1..] + b;
    }
  }

  /** The recursive reading gives the quantified one. */
  lemma {:induction false} AllEarlyHolds(obs: seq<Observation>)
    requires AllEarly(obs)
    ensures forall o <- obs :: Early(o)
    decreases |obs|
  {
    if obs != [] {
      AllEarlyHolds(obs[1..]);
      assert obs == [obs[0]] + obs[1..];
    }
  }

  /** What the classifier needs to know of a stretch of the recording. */
  datatype Tally = Tally(ones: seq<Coord>, twos: seq<Coord>, threes: seq<Coord>, early: bool)

  /** The cells of '1', '2' and '3' in scan order, and whether no glyph past '3' occurs. */
  function TallyOf(obs: seq<Observation>): Tally {
    Tally(Positions(obs, '1'), Positions(obs, '2'), Positions(obs, '3'), AllEarly(obs))
  }

  /** `obs` has exactly these cells of '1', '2' and '3' and no glyph past '3'. */
  predicate Tallied(obs: seq<Observation>, ones: seq<Coord>, twos: seq<Coord>, threes: seq<Coord>) {
    TallyOf(obs) == Tally(ones, twos, threes, true)
  }

  /** Tallies add up over consecutive stretches of the recording. */
  lemma TalliedConcat(a: seq<Observation>, b: seq<Observation>, p1: seq<Coord>, p2: seq<Coord>, p3: seq<Coord>,
                      q1: seq<Coord>, q2: seq<Coord>, q3: seq<Coord>)
    requires Tallied(a, p1, p2, p3) && Tallied(b, q1, q2, q3)
    ensures Tallied(a + b, p1 + q1, p2 + q2, p3 + q3)
  {
    PositionsConcat(a, b, '1');
    PositionsConcat(a, b, '2');
    PositionsConcat(a, b, '3');
    AllEarlyConcat(a, b);
  }

  /** Row `k` put before the rows after it: their tallies concatenate. */
  lemma TallyStep(segs: seq<seq<Byte>>, k: nat, next: nat, p1: seq<Coord>, p2: seq<Coord>, p3: seq<Coord>,
                  q1: seq<Coord>, q2: seq<Coord>, q3: seq<Coord>)
    requires k < |segs| && next == k + 1
    requires Tallied(RowObs(segs[k], 0, k), p1, p2, p3) && Tallied(ObsOfRowsFrom(segs, next), q1, q2, q3)
    ensures Tallied(ObsOfRowsFrom(segs, k), p1 + q1, p2 + q2, p3 + q3)
  {
    TalliedConcat(RowObs(segs[k], 0, k), ObsOfRowsFrom(segs, k + 1), p1, p2, p3, q1, q2, q3);
  }

  /** The last row alone, since the piece after it records nothing. */
  lemma TallyLast(segs: seq<seq<Byte>>, p1: seq<Coord>, p2: seq<Coord>, p3: seq<Coord>)
    requires |segs| == 12 && segs[11] == [] && Tallied(RowObs(segs[10], 0, 10), p1, p2, p3)
    ensures Tallied(ObsOfRowsFrom(segs, 10), p1, p2, p3)
  {
    RowsEnd(segs);
    assert ObsOfRowsFrom(segs, 10) == RowObs(segs[10], 0, 10) + [];
    assert RowObs(segs[10], 0, 10) + [] == RowObs(segs[10], 0, 10);
  }

  /** The tally of row 10. */
  lemma TallyPart10(segs: seq<seq<Byte>>)
    requires segs == Rows + [""]
    ensures Tallied(ObsOfRowsFrom(segs, 10), [Coord(3, 10), Coord(4, 10), Coord(5, 10), Coord(6, 10), Coord(7, 10)], [], [])
  {
    TallyAt10(segs);
    TallyLast(segs, [Coord(3, 10), Coord(4, 10), Coord(5, 10), Coord(6, 10), Coord(7, 10)], [], []);
  }

  /** The tally of rows 9 to 10. */
  lemma TallyPart9(segs: seq<seq<Byte>>)
    requires segs == Rows + [""]
    ensures Tallied(ObsOfRowsFrom(segs, 9), [Coord(2, 9), Coord(8, 9)] + ([Coord(3, 10), Coord(4, 10), Coord(5, 10), Coord(6, 10), Coord(7, 10)]), [] + ([]), [] + ([]))
  {
    TallyAt9(segs);
    TallyPart10(segs);
    TallyStep(segs, 9, 10, [Coord(2, 9), Coord(8, 9)], [], [], [Coord(3, 10), Coord(4, 10), Coord(5, 10), Coord(6, 10), Coord(7, 10)], [], []);
  }

  /** The tally of rows 8 to 10. */
  lemma TallyPart8(segs: seq<seq<Byte>>)
    requires segs == Rows + [""]
    ensures Tallied(ObsOfRowsFrom(segs, 8), [Coord(1, 8), Coord(9, 8)] + ([Coord(2, 9), Coord(8, 9)] + ([Coord(3, 10), Coord(4, 10), Coord(5, 10), Coord(6, 10), Coord(7, 10)])), [] + ([] + ([])), [] + ([] + ([])))
  {
    TallyAt8(segs);
    TallyPart9(segs);
    TallyStep(segs, 8, 9, [Coord(1, 8), Coord(9, 8)], [], [], [Coord(2, 9), Coord(8, 9)] + ([Coord(3, 10), Coord(4, 10), Coord(5, 10), Coord(6, 10), Coord(7, 10)]), [] + ([]), [] + ([]));
  }

  /** The tally of rows 7 to 10. */
  lemma TallyPart7(segs: seq<seq<Byte>>)
    requires segs == Rows + [""]
    ensures Tallied(ObsOfRowsFrom(segs, 7), [Coord(0, 7), Coord(10, 7)] + ([Coord(1, 8), Coord(9, 8)] + ([Coord(2, 9), Coord(8, 9)] + ([Coord(3, 10), Coord(4, 10), Coord(5, 10), Coord(6, 10), Coord(7, 10)]))), [Coord(7, 7)] + ([] + ([] + ([]))), [Coord(3, 7)] + ([] + ([] + ([]))))
  {
    TallyAt7(segs);
    TallyPart8(segs);
    TallyStep(segs, 7, 8, [Coord(0, 7), Coord(10, 7)], [Coord(7, 7)], [Coord(3, 7)], [Coord(1, 8), Coord(9, 8)] + ([Coord(2, 9), Coord(8, 9)] + ([Coord(3, 10), Coord(4, 10), Coord(5, 10), Coord(6, 10), Coord(7, 10)])), [] + ([] + ([])), [] + ([] + ([])));
  }

  /** The tally of rows 6 to 10. */
  lemma TallyPart6(segs: seq<seq<Byte>>)
    requires segs == Rows + [""]
    ensures Tallied(ObsOfRowsFrom(segs, 6), [Coord(0, 6), Coord(10, 6)] + ([Coord(0, 7), Coord(10, 7)] + ([Coord(1, 8), Coord(9, 8)] + ([Coord(2, 9), Coord(8, 9)] + ([Coord(3, 10), Coord(4, 10), Coord(5, 10), Coord(6, 10), Coord(7, 10)])))), [] + ([Coord(7, 7)] + ([] + ([] + ([])))), [] + ([Coord(3, 7)] + ([] + ([] + ([])))))
  {
    TallyAt6(segs);
    TallyPart7(segs);
    TallyStep(segs, 6, 7, [Coord(0, 6), Coord(10, 6)], [], [], [Coord(0, 7), Coord(10, 7)] + ([Coord(1, 8), Coord(9, 8)] + ([Coord(2, 9), Coord(8, 9)] + ([Coord(3, 10), Coord(4, 10), Coord(5, 10), Coord(6, 10), Coord(7, 10)]))), [Coord(7, 7)] + ([] + ([] + ([]))), [Coord(3, 7)] + ([] + ([] + ([]))));
  }

  /** The tally of rows 5 to 10. */
  lemma TallyPart5(segs: seq<seq<Byte>>)
    requires segs == Rows + [""]
    ensures Tallied(ObsOfRowsFrom(segs, 5), [Coord(0, 5), Coord(10, 5)] + ([Coord(0, 6), Coord(10, 6)] + ([Coord(0, 7), Coord(10, 7)] + ([Coord(1, 8), Coord(9, 8)] + ([Coord(2, 9), Coord(8, 9)] + ([Coord(3, 10), Coord(4, 10), Coord(5, 10), Coord(6, 10), Coord(7, 10)]))))), [] + ([] + ([Coord(7, 7)] + ([] + ([] + ([]))))), [] + ([] + ([Coord(3, 7)] + ([] + ([] + ([]))))))
  {
    TallyAt5(segs);
    TallyPart6(segs);
    TallyStep(segs, 5, 6, [Coord(0, 5), Coord(10, 5)], [], [], [Coord(0, 6), Coord(10, 6)] + ([Coord(0, 7), Coord(10, 7)] + ([Coord(1, 8), Coord(9, 8)] + ([Coord(2, 9), Coord(8, 9)] + ([Coord(3, 10), Coord(4, 10), Coord(5, 10), Coord(6, 10), Coord(7, 10)])))), [] + ([Coord(7, 7)] + ([] + ([] + ([])))), [] + ([Coord(3, 7)] + ([] + ([] + ([])))));
  }

  /** The tally of rows 4 to 10. */
  lemma TallyPart4(segs: seq<seq<Byte>>)
    requires segs == Rows + [""]
    ensures Tallied(ObsOfRowsFrom(segs, 4), [Coord(0, 4), Coord(10, 4)] + ([Coord(0, 5), Coord(10, 5)] + ([Coord(0, 6), Coord(10, 6)] + ([Coord(0, 7), Coord(10, 7)] + ([Coord(1, 8), Coord(9, 8)] + ([Coord(2, 9), Coord(8, 9)] + ([Coord(3, 10), Coord(4, 10), Coord(5, 10), Coord(6, 10), Coord(7, 10)])))))), [] + ([] + ([] + ([Coord(7, 7)] + ([] + ([] + ([])))))), [] + ([] + ([] + ([Coord(3, 7)] + ([] + ([] + ([])))))))
  {
    TallyAt4(segs);
    TallyPart5(segs);
    TallyStep(segs, 4, 5, [Coord(0, 4), Coord(10, 4)], [], [], [Coord(0, 5), Coord(10, 5)] + ([Coord(0, 6), Coord(10, 6)] + ([Coord(0, 7), Coord(10, 7)] + ([Coord(1, 8), Coord(9, 8)] + ([Coord(2, 9), Coord(8, 9)] + ([Coord(3, 10), Coord(4, 10), Coord(5, 10), Coord(6, 10), Coord(7, 10)]))))), [] + ([] + ([Coord(7, 7)] + ([] + ([] + ([]))))), [] + ([] + ([Coord(3, 7)] + ([] + ([] + ([]))))));
  }

  /** The tally of rows 3 to 10. */
  lemma TallyPart3(segs: seq<seq<Byte>>)
    requires segs == Rows + [""]
    ensures Tallied(ObsOfRowsFrom(segs, 3), [Coord(0, 3), Coord(10, 3)] + ([Coord(0, 4), Coord(10, 4)] + ([Coord(0, 5), Coord(10, 5)] + ([Coord(0, 6), Coord(10, 6)] + ([Coord(0, 7), Coord(10, 7)] + ([Coord(1, 8), Coord(9, 8)] + ([Coord(2, 9), Coord(8, 9)] + ([Coord(3, 10), Coord(4, 10), Coord(5, 10), Coord(6, 10), Coord(7, 10)]))))))), [Coord(3, 3)] + ([] + ([] + ([] + ([Coord(7, 7)] + ([] + ([] + ([]))))))), [Coord(7, 3)] + ([] + ([] + ([] + ([Coord(3, 7)] + ([] + ([] + ([]))))))))
  {
    TallyAt3(segs);
    TallyPart4(segs);
    TallyStep(segs, 3, 4, [Coord(0, 3), Coord(10, 3)], [Coord(3, 3)], [Coord(7, 3)], [Coord(0, 4), Coord(10, 4)] + ([Coord(0, 5), Coord(10, 5)] + ([Coord(0, 6), Coord(10, 6)] + ([Coord(0, 7), Coord(10, 7)] + ([Coord(1, 8), Coord(9, 8)] + ([Coord(2, 9), Coord(8, 9)] + ([Coord(3, 10), Coord(4, 10), Coord(5, 10), Coord(6, 10), Coord(7, 10)])))))), [] + ([] + ([] + ([Coord(7, 7)] + ([] + ([] + ([])))))), [] + ([] + ([] + ([Coord(3, 7)] + ([] + ([] + ([])))))));
  }

  /** The tally of rows 2 to 10. */
  lemma TallyPart2(segs: seq<seq<Byte>>)
    requires segs == Rows + [""]
    ensures Tallied(ObsOfRowsFrom(segs, 2), [Coord(1, 2), Coord(9, 2)] + ([Coord(0, 3), Coord(10, 3)] + ([Coord(0, 4), Coord(10, 4)] + ([Coord(0, 5), Coord(10, 5)] + ([Coord(0, 6), Coord(10, 6)] + ([Coord(0, 7), Coord(10, 7)] + ([Coord(1, 8), Coord(9, 8)] + ([Coord(2, 9), Coord(8, 9)] + ([Coord(3, 10), Coord(4, 10), Coord(5, 10), Coord(6, 10), Coord(7, 10)])))))))), [] + ([Coord(3, 3)] + ([] + ([] + ([] + ([Coord(7, 7)] + ([] + ([] + ([])))))))), [] + ([Coord(7, 3)] + ([] + ([] + ([] + ([Coord(3, 7)] + ([] + ([] + ([])))))))))
  {
    TallyAt2(segs);
    TallyPart3(segs);
    TallyStep(segs, 2, 3, [Coord(1, 2), Coord(9, 2)], [], [], [Coord(0, 3), Coord(10, 3)] + ([Coord(0, 4), Coord(10, 4)] + ([Coord(0, 5), Coord(10, 5)] + ([Coord(0, 6), Coord(10, 6)] + ([Coord(0, 7), Coord(10, 7)] + ([Coord(1, 8), Coord(9, 8)] + ([Coord(2, 9), Coord(8, 9)] + ([Coord(3, 10), Coord(4, 10), Coord(5, 10), Coord(6, 10), Coord(7, 10)]))))))), [Coord(3, 3)] + ([] + ([] + ([] + ([Coord(7, 7)] + ([] + ([] + ([]))))))), [Coord(7, 3)] + ([] + ([] + ([] + ([Coord(3, 7)] + ([] + ([] + ([]))))))));
  }

  /** The tally of rows 1 to 10. */
  lemma TallyPart1(segs: seq<seq<Byte>>)
    requires segs == Rows + [""]
    ensures Tallied(ObsOfRowsFrom(segs, 1), [Coord(2, 1), Coord(8, 1)] + ([Coord(1, 2), Coord(9, 2)] + ([Coord(0, 3), Coord(10, 3)] + ([Coord(0, 4), Coord(10, 4)] + ([Coord(0, 5), Coord(10, 5)] + ([Coord(0, 6), Coord(10, 6)] + ([Coord(0, 7), Coord(10, 7)] + ([Coord(1, 8), Coord(9, 8)] + ([Coord(2, 9), Coord(8, 9)] + ([Coord(3, 10), Coord(4, 10), Coord(5, 10), Coord(6, 10), Coord(7, 10)]))))))))), [] + ([] + ([Coord(3, 3)] + ([] + ([] + ([] + ([Coord(7, 7)] + ([] + ([] + ([]))))))))), [] + ([] + ([Coord(7, 3)] + ([] + ([] + ([] + ([Coord(3, 7)] + ([] + ([] + ([]))))))))))
  {
    TallyAt1(segs);
    TallyPart2(segs);
    TallyStep(segs, 1, 2, [Coord(2, 1), Coord(8, 1)], [], [], [Coord(1, 2), Coord(9, 2)] + ([Coord(0, 3), Coord(10, 3)] + ([Coord(0, 4), Coord(10, 4)] + ([Coord(0, 5), Coord(10, 5)] + ([Coord(0, 6), Coord(10, 6)] + ([Coord(0, 7), Coord(10, 7)] + ([Coord(1, 8), Coord(9, 8)] + ([Coord(2, 9), Coord(8, 9)] + ([Coord(3, 10), Coord(4, 10), Coord(5, 10), Coord(6, 10), Coord(7, 10)])))))))), [] + ([Coord(3, 3)] + ([] + ([] + ([] + ([Coord(7, 7)] + ([] + ([] + ([])))))))), [] + ([Coord(7, 3)] + ([] + ([] + ([] + ([Coord(3, 7)] + ([] + ([] + ([])))))))));
  }

  /** The tally of rows 0 to 10. */
  lemma TallyPart0(segs: seq<seq<Byte>>)
    requires segs == Rows + [""]
    ensures Tallied(ObsOfRowsFrom(segs, 0), [Coord(4, 0), Coord(5, 0), Coord(6, 0)] + ([Coord(2, 1), Coord(8, 1)] + ([Coord(1, 2), Coord(9, 2)] + ([Coord(0, 3), Coord(10, 3)] + ([Coord(0, 4), Coord(10, 4)] + ([Coord(0, 5), Coord(10, 5)] + ([Coord(0, 6), Coord(10, 6)] + ([Coord(0, 7), Coord(10, 7)] + ([Coord(1, 8), Coord(9, 8)] + ([Coord(2, 9), Coord(8, 9)] + ([Coord(3, 10), Coord(4, 10), Coord(5, 10), Coord(6, 10), Coord(7, 10)])))))))))), [] + ([] + ([] + ([Coord(3, 3)] + ([] + ([] + ([] + ([Coord(7, 7)] + ([] + ([] + ([])))))))))), [] + ([] + ([] + ([Coord(7, 3)] + ([] + ([] + ([] + ([Coord(3, 7)] + ([] + ([] + ([])))))))))))
  {
    TallyAt0(segs);
    TallyPart1(segs);
    TallyStep(segs, 0, 1, [Coord(4, 0), Coord(5, 0), Coord(6, 0)], [], [], [Coord(2, 1), Coord(8, 1)] + ([Coord(1, 2), Coord(9, 2)] + ([Coord(0, 3), Coord(10, 3)] + ([Coord(0, 4), Coord(10, 4)] + ([Coord(0, 5), Coord(10, 5)] + ([Coord(0, 6), Coord(10, 6)] + ([Coord(0, 7), Coord(10, 7)] + ([Coord(1, 8), Coord(9, 8)] + ([Coord(2, 9), Coord(8, 9)] + ([Coord(3, 10), Coord(4, 10), Coord(5, 10), Coord(6, 10), Coord(7, 10)]))))))))), [] + ([] + ([Coord(3, 3)] + ([] + ([] + ([] + ([Coord(7, 7)] + ([] + ([] + ([]))))))))), [] + ([] + ([Coord(7, 3)] + ([] + ([] + ([] + ([Coord(3, 7)] + ([] + ([] + ([]))))))))));
  }

  // ---------------------------------------------------------------------------
  // The scene of the sample.

  /** The circle's box (the whole grid), then the two diagonals with their end points newest first. */
  const SampleComponents: seq<Component> := [
    Component('1', Ellipse, [Coord(0, 0), Coord(10, 10)]),
    Component('2', Line, [Coord(7, 7), Coord(3, 3)]),
    Component('3', Line, [Coord(3, 7), Coord(7, 3)])
  ]

  /** Three or more cells of glyph `j` make it tag an ellipse spanned by their bounding box. */
  lemma EllipseAt(obs: seq<Observation>, j: nat)
    requires j < Size && |Values(obs, Glyph(j))| >= 3
    ensures Emitted(obs, j) == [Component(Glyph(j), Ellipse, RectPoints(Values(obs, Glyph(j))))]
  {
  }

  /** Two cells of glyph `j` make it tag a line between them, in the multi-hash's order. */
  lemma LineAt(obs: seq<Observation>, j: nat)
    requires j < Size && |Values(obs, Glyph(j))| == 2
    ensures Emitted(obs, j) == [Component(Glyph(j), Line, Values(obs, Glyph(j)))]
  {
  }

  /** The scene from glyph `i` on: what glyph `i` tags, then the scene from the glyph after it. */
  lemma SceneStep(obs: seq<Observation>, i: nat, next: nat)
    requires i < Size && next == i + 1
    ensures Scene(obs, i) == Emitted(obs, i) + Scene(obs, next)
  {
  }

  /** When only the first three glyphs occur, each tagging one shape, the scene is those three. */
  lemma SceneOfThree(obs: seq<Observation>, a: Component, b: Component, c: Component)
    requires forall o <- obs :: Early(o)
    requires Emitted(obs, 0) == [a] && Emitted(obs, 1) == [b] && Emitted(obs, 2) == [c]
    ensures Scene(obs, 0) == [a, b, c]
  {
    SceneGap(obs, 3, Size);
    assert Scene(obs, Size) == [];
    SceneStep(obs, 2, 3);
    SceneStep(obs, 1, 2);
    SceneStep(obs, 0, 1);
    assert [a] + ([b] + ([c] + [])) == [a, b, c];
  }

  lemma SampleEmitted(obs: seq<Observation>)
    requires |Values(obs, '1')| >= 3 && Tight(Box(0, 0, 10, 10), Values(obs, '1'))
    requires Values(obs, '2') == [Coord(7, 7), Coord(3, 3)] && Values(obs, '3') == [Coord(3, 7), Coord(7, 3)]
    ensures Emitted(obs, 0) == [SampleComponents[0]]
    ensures Emitted(obs, 1) == [SampleComponents[1]]
    ensures Emitted(obs, 2) == [SampleComponents[2]]
  {
    TightIsRectPoints(Box(0, 0, 10, 10), Values(obs, '1'));
    assert Glyph(0) == '1' && Glyph(1) == '2' && Glyph(2) == '3';
    EllipseAt(obs, 0);
    LineAt(obs, 1);
    LineAt(obs, 2);
  }

  /**
   * Any recording that uses only '1', '2' and '3', with at least three '1' cells
   * whose bounding box is columns and rows 0 to 10, and with these two cells
   * each of '2' and '3', classifies to the sample's three shapes.
   */
  lemma SceneOfSample(obs: seq<Observation>)
    requires forall o <- obs :: Early(o)
    requires |Values(obs, '1')| >= 3 && Tight(Box(0, 0, 10, 10), Values(obs, '1'))
    requires Values(obs, '2') == [Coord(7, 7), Coord(3, 3)] && Values(obs, '3') == [Coord(3, 7), Coord(7, 3)]
    ensures Scene(obs, 0) == SampleComponents
  {
    SampleEmitted(obs);
    SceneOfThree(obs, SampleComponents[0], SampleComponents[1], SampleComponents[2]);
  }

  // ---------------------------------------------------------------------------
  // From the row tallies to the multi-hash.

  /** The '1' cells of the sample in scan order: the circle. */
  const CircleCells: seq<Coord> := [Coord(4, 0), Coord(5, 0), Coord(6, 0), Coord(2, 1), Coord(8, 1), Coord(1, 2), Coord(9, 2), Coord(0, 3), Coord(10, 3), Coord(0, 4), Coord(10, 4), Coord(0, 5), Coord(10, 5), Coord(0, 6), Coord(10, 6), Coord(0, 7), Coord(10, 7), Coord(1, 8), Coord(9, 8), Coord(2, 9), Coord(8, 9), Coord(3, 10), Coord(4, 10), Coord(5, 10), Coord(6, 10), Coord(7, 10)]

  /** The row tallies, put end to end, are the sample's cells of '1', '2' and '3'. */
  lemma TallyFlat()
    ensures [Coord(4, 0), Coord(5, 0), Coord(6, 0)] + ([Coord(2, 1), Coord(8, 1)] + ([Coord(1, 2), Coord(9, 2)] + ([Coord(0, 3), Coord(10, 3)] + ([Coord(0, 4), Coord(10, 4)] + ([Coord(0, 5), Coord(10, 5)] + ([Coord(0, 6), Coord(10, 6)] + ([Coord(0, 7), Coord(10, 7)] + ([Coord(1, 8), Coord(9, 8)] + ([Coord(2, 9), Coord(8, 9)] + ([Coord(3, 10), Coord(4, 10), Coord(5, 10), Coord(6, 10), Coord(7, 10)])))))))))) == CircleCells
    ensures [] + ([] + ([] + ([Coord(3, 3)] + ([] + ([] + ([] + ([Coord(7, 7)] + ([] + ([] + ([])))))))))) == [Coord(3, 3), Coord(7, 7)]
    ensures [] + ([] + ([] + ([Coord(7, 3)] + ([] + ([] + ([] + ([Coord(3, 7)] + ([] + ([] + ([])))))))))) == [Coord(7, 3), Coord(3, 7)]
  {
  }

  /** Every cell of the circle lies in columns and rows 0 to 10. */
  lemma CircleInside()
    ensures forall p <- CircleCells :: Contains(Box(0, 0, 10, 10), p)
  {
    var b := Box(0, 0, 10, 10);
    assert forall i :: 0 <= i < 9 ==> Contains(b, CircleCells[i]);
    assert forall i :: 9 <= i < 18 ==> Contains(b, CircleCells[i]);
    assert forall i :: 18 <= i < 26 ==> Contains(b, CircleCells[i]);
  }

  /** Points inside a box that touch each of its four sides, at the given indices, are tight around it. */
  lemma TightBy(b: Box, ps: seq<Coord>, l: nat, t: nat, r: nat, d: nat)
    requires forall p <- ps :: Contains(b, p)
    requires l < |ps| && t < |ps| && r < |ps| && d < |ps|
    requires ps[l].x == b.left && ps[t].y == b.top && ps[r].x == b.right && ps[d].y == b.bottom
    ensures Tight(b, ps)
  {
    assert ps[l] in ps && ps[t] in ps && ps[r] in ps && ps[d] in ps;
  }

  /** The circle's cells span columns and rows 0 to 10, touching all four sides. */
  lemma CircleTight()
    ensures Tight(Box(0, 0, 10, 10), CircleCells)
  {
    CircleInside();
    TightBy(Box(0, 0, 10, 10), CircleCells, 7, 0, 8, 21);
  }

  lemma ReverseSameMembers<T>(s: seq<T>)
    ensures forall x :: x in Reverse(s) <==> x in s
  {
    ReverseMultiset(s);
    assert forall x :: x in Reverse(s) <==> x in multiset(Reverse(s));
    assert forall x :: x in s <==> x in multiset(s);
  }

  lemma ReversePair<T>(x: T, y: T)
    ensures Reverse([x, y]) == [y, x]
  {
    assert [x, y][1..] == [y];
  }

  /** The multi-hash answers the tallied cells newest first. */
  lemma TalliedValues(obs: seq<Observation>, p1: seq<Coord>, p2: seq<Coord>, p3: seq<Coord>)
    requires Tallied(obs, p1, p2, p3)
    ensures Values(obs, '1') == Reverse(p1) && Values(obs, '2') == Reverse(p2) && Values(obs, '3') == Reverse(p3)
    ensures forall o <- obs :: Early(o)
  {
    ValuesReversePositions(obs, '1');
    ValuesReversePositions(obs, '2');
    ValuesReversePositions(obs, '3');
    AllEarlyHolds(obs);
  }

  /** The circle's cells, newest first as the multi-hash answers them, are still tight around the grid. */
  lemma CircleValues()
    ensures |Reverse(CircleCells)| == 26 && Tight(Box(0, 0, 10, 10), Reverse(CircleCells))
  {
    CircleTight();
    ReverseSameMembers(CircleCells);
    TightSameMembers(Box(0, 0, 10, 10), CircleCells, Reverse(CircleCells));
  }

  /** Any recording with the sample's tallies answers what `SceneOfSample` asks for. */
  lemma SampleTallied(obs: seq<Observation>)
    requires Tallied(obs, [Coord(4, 0), Coord(5, 0), Coord(6, 0)] + ([Coord(2, 1), Coord(8, 1)] + ([Coord(1, 2), Coord(9, 2)] + ([Coord(0, 3), Coord(10, 3)] + ([Coord(0, 4), Coord(10, 4)] + ([Coord(0, 5), Coord(10, 5)] + ([Coord(0, 6), Coord(10, 6)] + ([Coord(0, 7), Coord(10, 7)] + ([Coord(1, 8), Coord(9, 8)] + ([Coord(2, 9), Coord(8, 9)] + ([Coord(3, 10), Coord(4, 10), Coord(5, 10), Coord(6, 10), Coord(7, 10)])))))))))), [] + ([] + ([] + ([Coord(3, 3)] + ([] + ([] + ([] + ([Coord(7, 7)] + ([] + ([] + ([])))))))))), [] + ([] + ([] + ([Coord(7, 3)] + ([] + ([] + ([] + ([Coord(3, 7)] + ([] + ([] + ([])))))))))))
    ensures forall o <- obs :: Early(o)
    ensures |Values(obs, '1')| == 26 && Tight(Box(0, 0, 10, 10), Values(obs, '1'))
    ensures Values(obs, '2') == [Coord(7, 7), Coord(3, 3)] && Values(obs, '3') == [Coord(3, 7), Coord(7, 3)]
  {
    TallyFlat();
    TalliedValues(obs, CircleCells, [Coord(3, 3), Coord(7, 7)], [Coord(7, 3), Coord(3, 7)]);
    CircleValues();
    ReversePair(Coord(3, 3), Coord(7, 7));
    ReversePair(Coord(7, 3), Coord(3, 7));
  }

  /** What the sample's recording holds, in the terms `SceneOfSample` asks for. */
  lemma SampleValues(segs: seq<seq<Byte>>)
    requires segs == Rows + [""]
    ensures var obs := ObsOfRows(segs, 0);
            (forall o <- obs :: Early(o))
            && |Values(obs, '1')| == 26 && Tight(Box(0, 0, 10, 10), Values(obs, '1'))
            && Values(obs, '2') == [Coord(7, 7), Coord(3, 3)] && Values(obs, '3') == [Coord(3, 7), Coord(7, 3)]
  {
    TallyPart0(segs);
    ObsOfRowsFromIsObsOfRows(segs, 0);
    assert segs[0..] == segs;
    SampleTallied(ObsOfRows(segs, 0));
  }

  /**
   * The documented sample parses to a valid 11x11 image: the circle of '1' as an
   * ellipse filling the grid, then the line '2' and the line '3'; the '#' cells
   * contribute nothing.
   */
  lemma ParseSample()
    ensures Parse(Text) == Image(11, 11, SampleComponents)
    ensures IsValid(Parse(Text))
  {
    var segs := Rows + [""];
    SampleScan(Text, segs);
    SampleValues(segs);
    SceneOfSample(ObsOfRows(segs, 0));
    ParseIsScene(Text);
  }

  /**
   * The documented call passes the sample as a `QString`; the text is plain
   * ASCII, so `parse(const QString &)` yields the same valid 11x11 image.
   */
  lemma ParseSampleString()
    ensures ParseString(Text) == Image(11, 11, SampleComponents)
    ensures IsValid(ParseString(Text))
  {
    ParseSample();
  }
}
