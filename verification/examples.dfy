/**
 * Worked inputs: small grids traced through the scanner and the classifier, and
 * the quirks of the byte loop on concrete text.
 */
module Examples {
  import opened Options
  import opened Alphabet
  import opened Geometry
  import opened Scanner
  import opened Occurrences
  import opened Classifier
  import opened ClassifierFacts
  import opened TextImage

  /** Four corners of one glyph. */
  const Corners: seq<Byte> := "1 1\n1 1\n"
  /** Two glyphs, each on a diagonal. */
  const Diagonals: seq<Byte> := "1 2\n2 1\n"
  /** Three consecutive glyphs, one occurrence each. */
  const Chain: seq<Byte> := "1 2 3\n"
  /** A two-column row followed by a one-column row. */
  const Mismatch: seq<Byte> := "1 1\n1"
  /** The last two glyphs of the alphabet, one occurrence each. */
  const Tail: seq<Byte> := "y z"
  /** A glyph followed by a trailing blank. */
  const OpenRow: seq<Byte> := "1 "
  /** Two empty rows. */
  const EmptyRows: seq<Byte> := "\n\n"

  // ---------------------------------------------------------------------------
  // Scanning concrete text, one byte at a time.

  /** One turn of the loop at position `i`, when it continues in state `st'`. */
  lemma StepAt(st: State, t: seq<Byte>, i: nat, st': State)
    requires i < |t| && Step(st, t[i], i + 1 == |t|) == Some(st')
    ensures Run(st, t[i..]) == Run(st', t[i + 1..])
  {
    assert t[i..][0] == t[i] && t[i..][1..] == t[i + 1..];
  }

  /** One turn of the loop at position `i`, when it stops the scan. */
  lemma StopAt(st: State, t: seq<Byte>, i: nat)
    requires i < |t| && Step(st, t[i], i + 1 == |t|) == None
    ensures Run(st, t[i..]) == None
  {
    assert t[i..][0] == t[i];
  }

  lemma ScanCornersFrom0()
    ensures Run(Start, Corners[0..]) == Run(State(0, 0, 1, [Observation('1', Coord(0, 0))]), Corners[1..])
  {
    assert [] + [Observation('1', Coord(0, 0))] == [Observation('1', Coord(0, 0))];
    StepAt(Start, Corners, 0, State(0, 0, 1, [Observation('1', Coord(0, 0))]));
  }

  lemma ScanCornersFrom1()
    ensures Run(State(0, 0, 1, [Observation('1', Coord(0, 0))]), Corners[1..]) == Run(State(0, 0, 1, [Observation('1', Coord(0, 0))]), Corners[2..])
  {
    StepAt(State(0, 0, 1, [Observation('1', Coord(0, 0))]), Corners, 1, State(0, 0, 1, [Observation('1', Coord(0, 0))]));
  }

  lemma ScanCornersFrom2()
    ensures Run(State(0, 0, 1, [Observation('1', Coord(0, 0))]), Corners[2..]) == Run(State(0, 0, 2, [Observation('1', Coord(0, 0)), Observation('1', Coord(1, 0))]), Corners[3..])
  {
    assert [Observation('1', Coord(0, 0))] + [Observation('1', Coord(1, 0))] == [Observation('1', Coord(0, 0)), Observation('1', Coord(1, 0))];
    StepAt(State(0, 0, 1, [Observation('1', Coord(0, 0))]), Corners, 2, State(0, 0, 2, [Observation('1', Coord(0, 0)), Observation('1', Coord(1, 0))]));
  }

  lemma ScanCornersFrom3()
    ensures Run(State(0, 0, 2, [Observation('1', Coord(0, 0)), Observation('1', Coord(1, 0))]), Corners[3..]) == Run(State(1, 2, 0, [Observation('1', Coord(0, 0)), Observation('1', Coord(1, 0))]), Corners[4..])
  {
    StepAt(State(0, 0, 2, [Observation('1', Coord(0, 0)), Observation('1', Coord(1, 0))]), Corners, 3, State(1, 2, 0, [Observation('1', Coord(0, 0)), Observation('1', Coord(1, 0))]));
  }

  lemma ScanCornersFrom4()
    ensures Run(State(1, 2, 0, [Observation('1', Coord(0, 0)), Observation('1', Coord(1, 0))]), Corners[4..]) == Run(State(1, 2, 1, [Observation('1', Coord(0, 0)), Observation('1', Coord(1, 0)), Observation('1', Coord(0, 1))]), Corners[5..])
  {
    assert [Observation('1', Coord(0, 0)), Observation('1', Coord(1, 0))] + [Observation('1', Coord(0, 1))] == [Observation('1', Coord(0, 0)), Observation('1', Coord(1, 0)), Observation('1', Coord(0, 1))];
    StepAt(State(1, 2, 0, [Observation('1', Coord(0, 0)), Observation('1', Coord(1, 0))]), Corners, 4, State(1, 2, 1, [Observation('1', Coord(0, 0)), Observation('1', Coord(1, 0)), Observation('1', Coord(0, 1))]));
  }

  lemma ScanCornersFrom5()
    ensures Run(State(1, 2, 1, [Observation('1', Coord(0, 0)), Observation('1', Coord(1, 0)), Observation('1', Coord(0, 1))]), Corners[5..]) == Run(State(1, 2, 1, [Observation('1', Coord(0, 0)), Observation('1', Coord(1, 0)), Observation('1', Coord(0, 1))]), Corners[6..])
  {
    StepAt(State(1, 2, 1, [Observation('1', Coord(0, 0)), Observation('1', Coord(1, 0)), Observation('1', Coord(0, 1))]), Corners, 5, State(1, 2, 1, [Observation('1', Coord(0, 0)), Observation('1', Coord(1, 0)), Observation('1', Coord(0, 1))]));
  }

  lemma ScanCornersFrom6()
    ensures Run(State(1, 2, 1, [Observation('1', Coord(0, 0)), Observation('1', Coord(1, 0)), Observation('1', Coord(0, 1))]), Corners[6..]) == Run(State(1, 2, 2, [Observation('1', Coord(0, 0)), Observation('1', Coord(1, 0)), Observation('1', Coord(0, 1)), Observation('1', Coord(1, 1))]), Corners[7..])
  {
    assert [Observation('1', Coord(0, 0)), Observation('1', Coord(1, 0)), Observation('1', Coord(0, 1))] + [Observation('1', Coord(1, 1))] == [Observation('1', Coord(0, 0)), Observation('1', Coord(1, 0)), Observation('1', Coord(0, 1)), Observation('1', Coord(1, 1))];
    StepAt(State(1, 2, 1, [Observation('1', Coord(0, 0)), Observation('1', Coord(1, 0)), Observation('1', Coord(0, 1))]), Corners, 6, State(1, 2, 2, [Observation('1', Coord(0, 0)), Observation('1', Coord(1, 0)), Observation('1', Coord(0, 1)), Observation('1', Coord(1, 1))]));
  }

  lemma ScanCornersFrom7()
    ensures Run(State(1, 2, 2, [Observation('1', Coord(0, 0)), Observation('1', Coord(1, 0)), Observation('1', Coord(0, 1)), Observation('1', Coord(1, 1))]), Corners[7..]) == Run(State(2, 2, 0, [Observation('1', Coord(0, 0)), Observation('1', Coord(1, 0)), Observation('1', Coord(0, 1)), Observation('1', Coord(1, 1))]), Corners[8..])
  {
    StepAt(State(1, 2, 2, [Observation('1', Coord(0, 0)), Observation('1', Coord(1, 0)), Observation('1', Coord(0, 1)), Observation('1', Coord(1, 1))]), Corners, 7, State(2, 2, 0, [Observation('1', Coord(0, 0)), Observation('1', Coord(1, 0)), Observation('1', Coord(0, 1)), Observation('1', Coord(1, 1))]));
  }

  /** The corners grid: two rows of two columns, four occurrences of '1'. */
  lemma ScanCorners()
    ensures Scan(Corners) == Some(Grid(2, 2, [Observation('1', Coord(0, 0)), Observation('1', Coord(1, 0)), Observation('1', Coord(0, 1)), Observation('1', Coord(1, 1))]))
  {
    assert Corners[0..] == Corners;
    ScanCornersFrom0();
    ScanCornersFrom1();
    ScanCornersFrom2();
    ScanCornersFrom3();
    ScanCornersFrom4();
    ScanCornersFrom5();
    ScanCornersFrom6();
    ScanCornersFrom7();
    assert Corners[8..] == [];
  }

  lemma ScanDiagonalsFrom0()
    ensures Run(Start, Diagonals[0..]) == Run(State(0, 0, 1, [Observation('1', Coord(0, 0))]), Diagonals[1..])
  {
    assert [] + [Observation('1', Coord(0, 0))] == [Observation('1', Coord(0, 0))];
    StepAt(Start, Diagonals, 0, State(0, 0, 1, [Observation('1', Coord(0, 0))]));
  }

  lemma ScanDiagonalsFrom1()
    ensures Run(State(0, 0, 1, [Observation('1', Coord(0, 0))]), Diagonals[1..]) == Run(State(0, 0, 1, [Observation('1', Coord(0, 0))]), Diagonals[2..])
  {
    StepAt(State(0, 0, 1, [Observation('1', Coord(0, 0))]), Diagonals, 1, State(0, 0, 1, [Observation('1', Coord(0, 0))]));
  }

  lemma ScanDiagonalsFrom2()
    ensures Run(State(0, 0, 1, [Observation('1', Coord(0, 0))]), Diagonals[2..]) == Run(State(0, 0, 2, [Observation('1', Coord(0, 0)), Observation('2', Coord(1, 0))]), Diagonals[3..])
  {
    assert [Observation('1', Coord(0, 0))] + [Observation('2', Coord(1, 0))] == [Observation('1', Coord(0, 0)), Observation('2', Coord(1, 0))];
    StepAt(State(0, 0, 1, [Observation('1', Coord(0, 0))]), Diagonals, 2, State(0, 0, 2, [Observation('1', Coord(0, 0)), Observation('2', Coord(1, 0))]));
  }

  lemma ScanDiagonalsFrom3()
    ensures Run(State(0, 0, 2, [Observation('1', Coord(0, 0)), Observation('2', Coord(1, 0))]), Diagonals[3..]) == Run(State(1, 2, 0, [Observation('1', Coord(0, 0)), Observation('2', Coord(1, 0))]), Diagonals[4..])
  {
    StepAt(State(0, 0, 2, [Observation('1', Coord(0, 0)), Observation('2', Coord(1, 0))]), Diagonals, 3, State(1, 2, 0, [Observation('1', Coord(0, 0)), Observation('2', Coord(1, 0))]));
  }

  lemma ScanDiagonalsFrom4()
    ensures Run(State(1, 2, 0, [Observation('1', Coord(0, 0)), Observation('2', Coord(1, 0))]), Diagonals[4..]) == Run(State(1, 2, 1, [Observation('1', Coord(0, 0)), Observation('2', Coord(1, 0)), Observation('2', Coord(0, 1))]), Diagonals[5..])
  {
    assert [Observation('1', Coord(0, 0)), Observation('2', Coord(1, 0))] + [Observation('2', Coord(0, 1))] == [Observation('1', Coord(0, 0)), Observation('2', Coord(1, 0)), Observation('2', Coord(0, 1))];
    StepAt(State(1, 2, 0, [Observation('1', Coord(0, 0)), Observation('2', Coord(1, 0))]), Diagonals, 4, State(1, 2, 1, [Observation('1', Coord(0, 0)), Observation('2', Coord(1, 0)), Observation('2', Coord(0, 1))]));
  }

  lemma ScanDiagonalsFrom5()
    ensures Run(State(1, 2, 1, [Observation('1', Coord(0, 0)), Observation('2', Coord(1, 0)), Observation('2', Coord(0, 1))]), Diagonals[5..]) == Run(State(1, 2, 1, [Observation('1', Coord(0, 0)), Observation('2', Coord(1, 0)), Observation('2', Coord(0, 1))]), Diagonals[6..])
  {
    StepAt(State(1, 2, 1, [Observation('1', Coord(0, 0)), Observation('2', Coord(1, 0)), Observation('2', Coord(0, 1))]), Diagonals, 5, State(1, 2, 1, [Observation('1', Coord(0, 0)), Observation('2', Coord(1, 0)), Observation('2', Coord(0, 1))]));
  }

  lemma ScanDiagonalsFrom6()
    ensures Run(State(1, 2, 1, [Observation('1', Coord(0, 0)), Observation('2', Coord(1, 0)), Observation('2', Coord(0, 1))]), Diagonals[6..]) == Run(State(1, 2, 2, [Observation('1', Coord(0, 0)), Observation('2', Coord(1, 0)), Observation('2', Coord(0, 1)), Observation('1', Coord(1, 1))]), Diagonals[7..])
  {
    assert [Observation('1', Coord(0, 0)), Observation('2', Coord(1, 0)), Observation('2', Coord(0, 1))] + [Observation('1', Coord(1, 1))] == [Observation('1', Coord(0, 0)), Observation('2', Coord(1, 0)), Observation('2', Coord(0, 1)), Observation('1', Coord(1, 1))];
    StepAt(State(1, 2, 1, [Observation('1', Coord(0, 0)), Observation('2', Coord(1, 0)), Observation('2', Coord(0, 1))]), Diagonals, 6, State(1, 2, 2, [Observation('1', Coord(0, 0)), Observation('2', Coord(1, 0)), Observation('2', Coord(0, 1)), Observation('1', Coord(1, 1))]));
  }

  lemma ScanDiagonalsFrom7()
    ensures Run(State(1, 2, 2, [Observation('1', Coord(0, 0)), Observation('2', Coord(1, 0)), Observation('2', Coord(0, 1)), Observation('1', Coord(1, 1))]), Diagonals[7..]) == Run(State(2, 2, 0, [Observation('1', Coord(0, 0)), Observation('2', Coord(1, 0)), Observation('2', Coord(0, 1)), Observation('1', Coord(1, 1))]), Diagonals[8..])
  {
    StepAt(State(1, 2, 2, [Observation('1', Coord(0, 0)), Observation('2', Coord(1, 0)), Observation('2', Coord(0, 1)), Observation('1', Coord(1, 1))]), Diagonals, 7, State(2, 2, 0, [Observation('1', Coord(0, 0)), Observation('2', Coord(1, 0)), Observation('2', Coord(0, 1)), Observation('1', Coord(1, 1))]));
  }

  /** The diagonals grid: '1' and '2' twice each. */
  lemma ScanDiagonals()
    ensures Scan(Diagonals) == Some(Grid(2, 2, [Observation('1', Coord(0, 0)), Observation('2', Coord(1, 0)), Observation('2', Coord(0, 1)), Observation('1', Coord(1, 1))]))
  {
    assert Diagonals[0..] == Diagonals;
    ScanDiagonalsFrom0();
    ScanDiagonalsFrom1();
    ScanDiagonalsFrom2();
    ScanDiagonalsFrom3();
    ScanDiagonalsFrom4();
    ScanDiagonalsFrom5();
    ScanDiagonalsFrom6();
    ScanDiagonalsFrom7();
    assert Diagonals[8..] == [];
  }

  lemma ScanChainFrom0()
    ensures Run(Start, Chain[0..]) == Run(State(0, 0, 1, [Observation('1', Coord(0, 0))]), Chain[1..])
  {
    assert [] + [Observation('1', Coord(0, 0))] == [Observation('1', Coord(0, 0))];
    StepAt(Start, Chain, 0, State(0, 0, 1, [Observation('1', Coord(0, 0))]));
  }

  lemma ScanChainFrom1()
    ensures Run(State(0, 0, 1, [Observation('1', Coord(0, 0))]), Chain[1..]) == Run(State(0, 0, 1, [Observation('1', Coord(0, 0))]), Chain[2..])
  {
    StepAt(State(0, 0, 1, [Observation('1', Coord(0, 0))]), Chain, 1, State(0, 0, 1, [Observation('1', Coord(0, 0))]));
  }

  lemma ScanChainFrom2()
    ensures Run(State(0, 0, 1, [Observation('1', Coord(0, 0))]), Chain[2..]) == Run(State(0, 0, 2, [Observation('1', Coord(0, 0)), Observation('2', Coord(1, 0))]), Chain[3..])
  {
    assert [Observation('1', Coord(0, 0))] + [Observation('2', Coord(1, 0))] == [Observation('1', Coord(0, 0)), Observation('2', Coord(1, 0))];
    StepAt(State(0, 0, 1, [Observation('1', Coord(0, 0))]), Chain, 2, State(0, 0, 2, [Observation('1', Coord(0, 0)), Observation('2', Coord(1, 0))]));
  }

  lemma ScanChainFrom3()
    ensures Run(State(0, 0, 2, [Observation('1', Coord(0, 0)), Observation('2', Coord(1, 0))]), Chain[3..]) == Run(State(0, 0, 2, [Observation('1', Coord(0, 0)), Observation('2', Coord(1, 0))]), Chain[4..])
  {
    StepAt(State(0, 0, 2, [Observation('1', Coord(0, 0)), Observation('2', Coord(1, 0))]), Chain, 3, State(0, 0, 2, [Observation('1', Coord(0, 0)), Observation('2', Coord(1, 0))]));
  }

  lemma ScanChainFrom4()
    ensures Run(State(0, 0, 2, [Observation('1', Coord(0, 0)), Observation('2', Coord(1, 0))]), Chain[4..]) == Run(State(0, 0, 3, [Observation('1', Coord(0, 0)), Observation('2', Coord(1, 0)), Observation('3', Coord(2, 0))]), Chain[5..])
  {
    assert [Observation('1', Coord(0, 0)), Observation('2', Coord(1, 0))] + [Observation('3', Coord(2, 0))] == [Observation('1', Coord(0, 0)), Observation('2', Coord(1, 0)), Observation('3', Coord(2, 0))];
    StepAt(State(0, 0, 2, [Observation('1', Coord(0, 0)), Observation('2', Coord(1, 0))]), Chain, 4, State(0, 0, 3, [Observation('1', Coord(0, 0)), Observation('2', Coord(1, 0)), Observation('3', Coord(2, 0))]));
  }

  lemma ScanChainFrom5()
    ensures Run(State(0, 0, 3, [Observation('1', Coord(0, 0)), Observation('2', Coord(1, 0)), Observation('3', Coord(2, 0))]), Chain[5..]) == Run(State(1, 3, 0, [Observation('1', Coord(0, 0)), Observation('2', Coord(1, 0)), Observation('3', Coord(2, 0))]), Chain[6..])
  {
    StepAt(State(0, 0, 3, [Observation('1', Coord(0, 0)), Observation('2', Coord(1, 0)), Observation('3', Coord(2, 0))]), Chain, 5, State(1, 3, 0, [Observation('1', Coord(0, 0)), Observation('2', Coord(1, 0)), Observation('3', Coord(2, 0))]));
  }

  /** One row of three glyphs. */
  lemma ScanChain()
    ensures Scan(Chain) == Some(Grid(1, 3, [Observation('1', Coord(0, 0)), Observation('2', Coord(1, 0)), Observation('3', Coord(2, 0))]))
  {
    assert Chain[0..] == Chain;
    ScanChainFrom0();
    ScanChainFrom1();
    ScanChainFrom2();
    ScanChainFrom3();
    ScanChainFrom4();
    ScanChainFrom5();
    assert Chain[6..] == [];
  }

  lemma ScanMismatchFrom0()
    ensures Run(Start, Mismatch[0..]) == Run(State(0, 0, 1, [Observation('1', Coord(0, 0))]), Mismatch[1..])
  {
    assert [] + [Observation('1', Coord(0, 0))] == [Observation('1', Coord(0, 0))];
    StepAt(Start, Mismatch, 0, State(0, 0, 1, [Observation('1', Coord(0, 0))]));
  }

  lemma ScanMismatchFrom1()
    ensures Run(State(0, 0, 1, [Observation('1', Coord(0, 0))]), Mismatch[1..]) == Run(State(0, 0, 1, [Observation('1', Coord(0, 0))]), Mismatch[2..])
  {
    StepAt(State(0, 0, 1, [Observation('1', Coord(0, 0))]), Mismatch, 1, State(0, 0, 1, [Observation('1', Coord(0, 0))]));
  }

  lemma ScanMismatchFrom2()
    ensures Run(State(0, 0, 1, [Observation('1', Coord(0, 0))]), Mismatch[2..]) == Run(State(0, 0, 2, [Observation('1', Coord(0, 0)), Observation('1', Coord(1, 0))]), Mismatch[3..])
  {
    assert [Observation('1', Coord(0, 0))] + [Observation('1', Coord(1, 0))] == [Observation('1', Coord(0, 0)), Observation('1', Coord(1, 0))];
    StepAt(State(0, 0, 1, [Observation('1', Coord(0, 0))]), Mismatch, 2, State(0, 0, 2, [Observation('1', Coord(0, 0)), Observation('1', Coord(1, 0))]));
  }

  lemma ScanMismatchFrom3()
    ensures Run(State(0, 0, 2, [Observation('1', Coord(0, 0)), Observation('1', Coord(1, 0))]), Mismatch[3..]) == Run(State(1, 2, 0, [Observation('1', Coord(0, 0)), Observation('1', Coord(1, 0))]), Mismatch[4..])
  {
    StepAt(State(0, 0, 2, [Observation('1', Coord(0, 0)), Observation('1', Coord(1, 0))]), Mismatch, 3, State(1, 2, 0, [Observation('1', Coord(0, 0)), Observation('1', Coord(1, 0))]));
  }

  lemma ScanMismatchFrom4()
    ensures Run(State(1, 2, 0, [Observation('1', Coord(0, 0)), Observation('1', Coord(1, 0))]), Mismatch[4..]) == None
  {
    assert [Observation('1', Coord(0, 0)), Observation('1', Coord(1, 0))] + [Observation('1', Coord(0, 1))] == [Observation('1', Coord(0, 0)), Observation('1', Coord(1, 0)), Observation('1', Coord(0, 1))];
    StopAt(State(1, 2, 0, [Observation('1', Coord(0, 0)), Observation('1', Coord(1, 0))]), Mismatch, 4);
  }

  /** The second row is completed by the end of input with one column instead of two. */
  lemma ScanMismatch()
    ensures Scan(Mismatch) == None
  {
    assert Mismatch[0..] == Mismatch;
    ScanMismatchFrom0();
    ScanMismatchFrom1();
    ScanMismatchFrom2();
    ScanMismatchFrom3();
    ScanMismatchFrom4();
  }

  lemma ScanTailFrom0()
    ensures Run(Start, Tail[0..]) == Run(State(0, 0, 1, [Observation('y', Coord(0, 0))]), Tail[1..])
  {
    assert [] + [Observation('y', Coord(0, 0))] == [Observation('y', Coord(0, 0))];
    StepAt(Start, Tail, 0, State(0, 0, 1, [Observation('y', Coord(0, 0))]));
  }

  lemma ScanTailFrom1()
    ensures Run(State(0, 0, 1, [Observation('y', Coord(0, 0))]), Tail[1..]) == Run(State(0, 0, 1, [Observation('y', Coord(0, 0))]), Tail[2..])
  {
    StepAt(State(0, 0, 1, [Observation('y', Coord(0, 0))]), Tail, 1, State(0, 0, 1, [Observation('y', Coord(0, 0))]));
  }

  lemma ScanTailFrom2()
    ensures Run(State(0, 0, 1, [Observation('y', Coord(0, 0))]), Tail[2..]) == Run(State(1, 2, 0, [Observation('y', Coord(0, 0)), Observation('z', Coord(1, 0))]), Tail[3..])
  {
    assert [Observation('y', Coord(0, 0))] + [Observation('z', Coord(1, 0))] == [Observation('y', Coord(0, 0)), Observation('z', Coord(1, 0))];
    StepAt(State(0, 0, 1, [Observation('y', Coord(0, 0))]), Tail, 2, State(1, 2, 0, [Observation('y', Coord(0, 0)), Observation('z', Coord(1, 0))]));
  }

  /** One row completed by its last byte. */
  lemma ScanTail()
    ensures Scan(Tail) == Some(Grid(1, 2, [Observation('y', Coord(0, 0)), Observation('z', Coord(1, 0))]))
  {
    assert Tail[0..] == Tail;
    ScanTailFrom0();
    ScanTailFrom1();
    ScanTailFrom2();
    assert Tail[3..] == [];
  }

  lemma ScanOpenRowFrom0()
    ensures Run(Start, OpenRow[0..]) == Run(State(0, 0, 1, [Observation('1', Coord(0, 0))]), OpenRow[1..])
  {
    assert [] + [Observation('1', Coord(0, 0))] == [Observation('1', Coord(0, 0))];
    StepAt(Start, OpenRow, 0, State(0, 0, 1, [Observation('1', Coord(0, 0))]));
  }

  lemma ScanOpenRowFrom1()
    ensures Run(State(0, 0, 1, [Observation('1', Coord(0, 0))]), OpenRow[1..]) == Run(State(0, 0, 1, [Observation('1', Coord(0, 0))]), OpenRow[2..])
  {
    StepAt(State(0, 0, 1, [Observation('1', Coord(0, 0))]), OpenRow, 1, State(0, 0, 1, [Observation('1', Coord(0, 0))]));
  }

  /** The trailing blank is skipped, so the end of input completes nothing. */
  lemma ScanOpenRow()
    ensures Scan(OpenRow) == Some(Grid(0, 0, [Observation('1', Coord(0, 0))]))
  {
    assert OpenRow[0..] == OpenRow;
    ScanOpenRowFrom0();
    ScanOpenRowFrom1();
    assert OpenRow[2..] == [];
  }

  lemma ScanEmptyRowsFrom0()
    ensures Run(Start, EmptyRows[0..]) == Run(State(1, 0, 0, []), EmptyRows[1..])
  {
    StepAt(Start, EmptyRows, 0, State(1, 0, 0, []));
  }

  lemma ScanEmptyRowsFrom1()
    ensures Run(State(1, 0, 0, []), EmptyRows[1..]) == Run(State(2, 0, 0, []), EmptyRows[2..])
  {
    StepAt(State(1, 0, 0, []), EmptyRows, 1, State(2, 0, 0, []));
  }

  /** Each '\\n' completes a row of width zero. */
  lemma ScanEmptyRows()
    ensures Scan(EmptyRows) == Some(Grid(2, 0, []))
  {
    assert EmptyRows[0..] == EmptyRows;
    ScanEmptyRowsFrom0();
    ScanEmptyRowsFrom1();
    assert EmptyRows[2..] == [];
  }

  // ---------------------------------------------------------------------------
  // Classification of the recorded occurrences.

  /** Glyphs that emit nothing leave the scene as it is. */
  lemma {:induction false} SceneSilent(obs: seq<Observation>, i: nat, j: nat)
    requires i <= j <= Size
    requires forall k :: i <= k < j ==> Emitted(obs, k) == []
    ensures Scene(obs, i) == Scene(obs, j)
    decreases j - i
  {
    if i < j {
      SceneSilent(obs, i + 1, j);
      assert Scene(obs, i) == [] + Scene(obs, i + 1);
    }
  }

  /** Only the glyphs `a` to `a + n - 1` occur and only the first emits: the scene is its one component. */
  lemma SceneOfOne(obs: seq<Observation>, a: nat, n: nat, c: Component)
    requires 0 < n && a + n <= Size
    requires forall o <- obs :: a <= IndexOf(o.glyph) < a + n
    requires Emitted(obs, a) == [c]
    requires forall k :: a < k < a + n ==> Emitted(obs, k) == []
    ensures Scene(obs, 0) == [c]
  {
    SceneGap(obs, 0, a);
    SceneGap(obs, a + n, Size);
    SceneSilent(obs, a + 1, a + n);
    assert Scene(obs, a) == [c] + Scene(obs, a + 1);
  }

  /** Only the glyphs `a` and `a + 1` occur, each emitting one component: the scene is those two. */
  lemma SceneOfPair(obs: seq<Observation>, a: nat, c: Component, d: Component)
    requires a + 1 < Size
    requires forall o <- obs :: a <= IndexOf(o.glyph) <= a + 1
    requires Emitted(obs, a) == [c] && Emitted(obs, a + 1) == [d]
    ensures Scene(obs, 0) == [c, d]
  {
    SceneGap(obs, 0, a);
    SceneGap(obs, a + 2, Size);
    assert Scene(obs, a) == [c] + ([d] + Scene(obs, a + 2));
  }

  const CornersObs: seq<Observation> :=
    [Observation('1', Coord(0, 0)), Observation('1', Coord(1, 0)), Observation('1', Coord(0, 1)), Observation('1', Coord(1, 1))]
  const DiagonalsObs: seq<Observation> :=
    [Observation('1', Coord(0, 0)), Observation('2', Coord(1, 0)), Observation('2', Coord(0, 1)), Observation('1', Coord(1, 1))]
  const ChainObs: seq<Observation> := [Observation('1', Coord(0, 0)), Observation('2', Coord(1, 0)), Observation('3', Coord(2, 0))]
  const TailObs: seq<Observation> := [Observation('y', Coord(0, 0)), Observation('z', Coord(1, 0))]
  const OpenRowObs: seq<Observation> := [Observation('1', Coord(0, 0))]

  // Each fact below is its own lemma: on concrete occurrence lists the classifier
  // unfolds cheaply one step at a time, and expensively all at once.

  lemma CornersValues()
    ensures Values(CornersObs, '1') == [Coord(1, 1), Coord(0, 1), Coord(1, 0), Coord(0, 0)]
  {
  }

  lemma CornersBox()
    ensures RectPoints([Coord(1, 1), Coord(0, 1), Coord(1, 0), Coord(0, 0)]) == [Coord(0, 0), Coord(1, 1)]
  {
  }

  /** More than two occurrences: an ellipse spanned by the bounding box of the cells. */
  lemma CornersComponent()
    ensures ComponentOf(CornersObs, 0) == Some(Component('1', Ellipse, RectPoints(Values(CornersObs, '1'))))
  {
    CornersValues();
  }

  /** Four occurrences make an ellipse given by its top-left and bottom-right corners. */
  lemma CornersEmitted()
    ensures Emitted(CornersObs, 0) == [Component('1', Ellipse, [Coord(0, 0), Coord(1, 1)])]
  {
    CornersValues();
    CornersBox();
    CornersComponent();
  }

  lemma CornersScene()
    ensures Scene(CornersObs, 0) == [Component('1', Ellipse, [Coord(0, 0), Coord(1, 1)])]
  {
    CornersEmitted();
    SceneOfOne(CornersObs, 0, 1, Component('1', Ellipse, [Coord(0, 0), Coord(1, 1)]));
  }

  lemma DiagonalsValues()
    ensures Values(DiagonalsObs, '1') == [Coord(1, 1), Coord(0, 0)]
    ensures Values(DiagonalsObs, '2') == [Coord(0, 1), Coord(1, 0)]
  {
  }

  /** Two occurrences make a line, its end points in the multi-hash's newest-first order. */
  lemma DiagonalsEmitted()
    ensures Emitted(DiagonalsObs, 0) == [Component('1', Line, [Coord(1, 1), Coord(0, 0)])]
    ensures Emitted(DiagonalsObs, 1) == [Component('2', Line, [Coord(0, 1), Coord(1, 0)])]
  {
    DiagonalsValues();
  }

  lemma DiagonalsScene()
    ensures Scene(DiagonalsObs, 0)
            == [Component('1', Line, [Coord(1, 1), Coord(0, 0)]), Component('2', Line, [Coord(0, 1), Coord(1, 0)])]
  {
    DiagonalsEmitted();
    SceneOfPair(DiagonalsObs, 0, Component('1', Line, [Coord(1, 1), Coord(0, 0)]), Component('2', Line, [Coord(0, 1), Coord(1, 0)]));
  }

  lemma ChainValues()
    ensures Values(ChainObs, '1') == [Coord(0, 0)] && Values(ChainObs, '2') == [Coord(1, 0)]
    ensures Values(ChainObs, '3') == [Coord(2, 0)] && Values(ChainObs, '4') == []
  {
  }

  /** The run of singletons starting at '1' ends before '4', which does not occur. */
  lemma ChainRun()
    ensures RunEnd(ChainObs, 0) == 3
    ensures Vertices(ChainObs, 0, 3) == [Coord(0, 0), Coord(1, 0), Coord(2, 0)]
  {
    ChainValues();
  }

  /** Three consecutive singletons: the first tags a polygon through all three, the others emit nothing. */
  lemma ChainEmitted()
    ensures Emitted(ChainObs, 0) == [Component('1', Polygon, [Coord(0, 0), Coord(1, 0), Coord(2, 0)])]
    ensures Emitted(ChainObs, 1) == [] && Emitted(ChainObs, 2) == []
  {
    ChainValues();
    ChainRun();
  }

  lemma ChainSilent()
    ensures Emitted(ChainObs, 0) == [Component('1', Polygon, [Coord(0, 0), Coord(1, 0), Coord(2, 0)])]
    ensures forall k :: 0 < k < 3 ==> Emitted(ChainObs, k) == []
  {
    ChainEmitted();
  }

  lemma ChainScene()
    ensures Scene(ChainObs, 0) == [Component('1', Polygon, [Coord(0, 0), Coord(1, 0), Coord(2, 0)])]
  {
    ChainSilent();
    SceneOfOne(ChainObs, 0, 3, Component('1', Polygon, [Coord(0, 0), Coord(1, 0), Coord(2, 0)]));
  }

  lemma TailValues()
    ensures Values(TailObs, 'x') == [] && Values(TailObs, 'y') == [Coord(0, 0)] && Values(TailObs, 'z') == [Coord(1, 0)]
  {
  }

  /** The run starting at 'y' ends with the alphabet. */
  lemma TailRun()
    ensures RunEnd(TailObs, 59) == 61
  {
    TailValues();
  }

  lemma TailCounts()
    ensures CountAt(TailObs, 59) == 1 && CountAt(TailObs, 60) == 1
  {
    TailValues();
  }

  lemma TailFirstVertex()
    ensures Vertices(TailObs, 59, 60) == [Coord(0, 0)]
  {
    TailCounts();
    TailValues();
  }

  lemma TailVertexStep()
    ensures Vertices(TailObs, 59, 61) == Vertices(TailObs, 59, 60) + [Coord(1, 0)]
  {
    TailCounts();
    TailValues();
  }

  lemma TailVertices()
    ensures Vertices(TailObs, 59, 61) == [Coord(0, 0), Coord(1, 0)]
  {
    TailFirstVertex();
    TailVertexStep();
  }

  lemma TailEmitted()
    ensures Emitted(TailObs, 59) == [Component('y', Polygon, [Coord(0, 0), Coord(1, 0)])]
  {
    TailValues();
    TailRun();
    TailVertices();
  }

  /** 'z' lies inside the run, so it emits nothing of its own. */
  lemma TailLastEmitted()
    ensures Emitted(TailObs, 60) == []
  {
    TailValues();
    SingletonInsideRun(TailObs, 60);
  }

  lemma TailSpan()
    ensures forall o <- TailObs :: 59 <= IndexOf(o.glyph) < 61
  {
    IndexOfGlyph(59);
    IndexOfGlyph(60);
  }

  lemma TailScene()
    ensures Scene(TailObs, 0) == [Component('y', Polygon, [Coord(0, 0), Coord(1, 0)])]
  {
    TailSpan();
    TailEmitted();
    TailLastEmitted();
    SceneOfOne(TailObs, 59, 2, Component('y', Polygon, [Coord(0, 0), Coord(1, 0)]));
  }

  lemma OpenRowValues()
    ensures Values(OpenRowObs, '1') == [Coord(0, 0)] && Values(OpenRowObs, '2') == []
  {
  }

  /** A lone singleton makes a point. */
  lemma OpenRowEmitted()
    ensures Emitted(OpenRowObs, 0) == [Component('1', Point, [Coord(0, 0)])]
  {
    OpenRowValues();
  }

  lemma OpenRowScene()
    ensures Scene(OpenRowObs, 0) == [Component('1', Point, [Coord(0, 0)])]
  {
    OpenRowEmitted();
    SceneOfOne(OpenRowObs, 0, 1, Component('1', Point, [Coord(0, 0)]));
  }

  // ---------------------------------------------------------------------------
  // Whole parses.

  /** Four occurrences of '1' make one ellipse whose box is the whole 2x2 grid. */
  lemma ParseCorners()
    ensures Parse(Corners) == Image(2, 2, [Component('1', Ellipse, [Coord(0, 0), Coord(1, 1)])])
    ensures IsValid(Parse(Corners))
  {
    ScanCorners();
    CornersScene();
    ParseIsScene(Corners);
  }

  /** Two glyphs with two occurrences each make two lines, in alphabet order. */
  lemma ParseDiagonals()
    ensures Parse(Diagonals)
            == Image(2, 2, [Component('1', Line, [Coord(1, 1), Coord(0, 0)]), Component('2', Line, [Coord(0, 1), Coord(1, 0)])])
    ensures IsValid(Parse(Diagonals))
  {
    ScanDiagonals();
    DiagonalsScene();
    ParseIsScene(Diagonals);
  }

  /** One row of three consecutive glyphs is a single polygon. */
  lemma ParseChain()
    ensures Parse(Chain) == Image(1, 3, [Component('1', Polygon, [Coord(0, 0), Coord(1, 0), Coord(2, 0)])])
    ensures IsValid(Parse(Chain))
  {
    ScanChain();
    ChainScene();
    ParseIsScene(Chain);
  }

  /** A row of the wrong width empties the image, whatever its glyphs. */
  lemma ParseMismatch()
    ensures Parse(Mismatch) == Null && !IsValid(Parse(Mismatch))
  {
    ScanMismatch();
  }

  /** 'y' and 'z' side by side make a two-vertex polygon tagged 'y'. */
  lemma ParseTail()
    ensures Parse(Tail) == Image(1, 2, [Component('y', Polygon, [Coord(0, 0), Coord(1, 0)])])
    ensures IsValid(Parse(Tail))
  {
    ScanTail();
    TailScene();
    ParseIsScene(Tail);
  }

  /**
   * A trailing blank keeps the only row open: no row is completed, so the image
   * has no extent and is invalid, yet its glyph still became a point.
   */
  lemma ParseOpenRow()
    ensures Parse(OpenRow) == Image(0, 0, [Component('1', Point, [Coord(0, 0)])])
    ensures !IsValid(Parse(OpenRow))
  {
    ScanOpenRow();
    OpenRowScene();
    ParseIsScene(OpenRow);
  }

  /** Empty rows have width zero: two of them give two rows of no columns, an invalid image. */
  lemma ParseEmptyRows()
    ensures Parse(EmptyRows) == Image(2, 0, [])
    ensures !IsValid(Parse(EmptyRows))
  {
    ScanEmptyRows();
    ClassifyEmptyIff([]);
  }

  // ---------------------------------------------------------------------------
  // A list of strings whose last string completes no row.

  /** Two strings, the second empty. */
  const ShortList: seq<string> := ["1", ""]

  lemma ScanShortList()
    ensures Scan("1\n") == Some(Grid(1, 1, OpenRowObs))
  {
    var t: seq<Byte> := "1\n";
    var o := [Observation('1', Coord(0, 0))];
    assert [] + o == o;
    StepAt(Start, t, 0, State(0, 0, 1, o));
    StepAt(State(0, 0, 1, o), t, 1, State(1, 1, 0, o));
    assert t[0..] == t && t[2..] == [];
  }

  /**
   * Each string of a list is documented to be its own row, but an empty last
   * string completes none: the two strings join to "1\n", which has one row, and
   * the image is the one-cell grid holding a point.
   */
  lemma ParseShortList()
    ensures JoinLines(ShortList) == "1\n"
    ensures |ShortList| == 2 && ParseList(ShortList) == Image(1, 1, [Component('1', Point, [Coord(0, 0)])])
  {
    JoinShortList();
    ShortListLatin1();
    ListAsBytes(ShortList, "1\n");
    ScanShortList();
    OpenRowScene();
    SceneOfScan("1\n");
  }

  /** A list of Latin-1 strings that joins to `t` parses as `t`. */
  lemma ListAsBytes(lines: seq<string>, t: seq<Byte>)
    requires forall k :: 0 <= k < |lines| ==> Latin1(lines[k])
    requires JoinLines(lines) == t
    ensures ParseList(lines) == Parse(t)
  {
  }

  /** A successful scan fixes the parse: its extent and the scene of its occurrences. */
  lemma SceneOfScan(t: seq<Byte>)
    requires Scan(t).Some?
    ensures Parse(t) == Image(Scan(t).value.rows, Scan(t).value.columns, Scene(Scan(t).value.obs, 0))
  {
    ParseIsScene(t);
  }

  lemma JoinShortList()
    ensures JoinLines(ShortList) == "1\n"
  {
    assert ShortList[1..] == [""];
    assert JoinLines(ShortList[1..]) == "";
  }

  lemma ShortListLatin1()
    ensures forall k :: 0 <= k < |ShortList| ==> Latin1(ShortList[k])
  {
    assert ShortList[0] == "1" && ShortList[1] == "";
  }
}
