/** Shared helpers: an optional value, and regrouping a concatenation. */
module Options {
  datatype Option<+T> = None | Some(value: T)

  /** Concatenation is associative; stated once so that proofs can cite it instead of rediscovering it. */
  lemma Regroup<T>(a: seq<T>, b: seq<T>, c: seq<T>)
    ensures a + b + c == a + (b + c)
  {
  }
}

/**
 * The fixed glyph alphabet of an ASCII image and its successor function
 * (`glyphs` and `next` in qtextimage.cpp).
 *
 * A byte of the input is a `char` below 256, read as Latin-1, so the text `parse`
 * accepts holds exactly what a `QByteArray` can. The parser only ever compares
 * bytes with ASCII constants, so nothing depends on the upper half.
 */
module Alphabet {
  import opened Options

  /** One byte of a `QByteArray`. */
  type Byte = c: char | c as int < 256

  const NL: Byte := '\n'

  /** What `next` answers for a byte outside the alphabet; never a glyph itself. */
  const Sentinel: Byte := '0'

  /** The 61 glyphs in traversal order: 1-9, then A-Z, then a-z. */
  const Glyphs: seq<Byte> := "123456789" + "ABCDEFGHIJKLMNOPQRSTUVWXYZ" + "abcdefghijklmnopqrstuvwxyz"

  /** Number of glyphs; also the index one past the last glyph. */
  const Size: nat := 61

  /** `n` consecutive characters starting at `lo`. */
  function Span(lo: char, n: nat): (r: seq<char>)
    requires lo as int + n <= 128
    ensures |r| == n
    ensures forall i :: 0 <= i < n ==> r[i] as int == lo as int + i
  {
    seq(n, i requires 0 <= i < n => (lo as int + i) as char)
  }

  lemma GlyphsAreSpans()
    ensures Glyphs == Span('1', 9) + Span('A', 26) + Span('a', 26)
  {
    assert Span('1', 9) == "123456789";
    assert Span('A', 26) == "ABCDEFGHIJKLMNOPQRSTUVWXYZ";
    assert Span('a', 26) == "abcdefghijklmnopqrstuvwxyz";
  }

  /** The i-th glyph, `glyphs()[i]`, computed from the three character ranges of the table. */
  function Glyph(i: nat): (c: Byte)
    requires i < Size
  {
    if i < 9 then ('1' as int + i) as char
    else if i < 35 then ('A' as int + (i - 9)) as char
    else ('a' as int + (i - 35)) as char
  }

  /** `Glyph` reads the table. */
  lemma GlyphReadsTable()
    ensures |Glyphs| == Size
    ensures forall i :: 0 <= i < Size ==> Glyphs[i] == Glyph(i)
  {
    GlyphsAreSpans();
  }

  /** The alphabet is strictly increasing as characters, hence free of repetitions. */
  lemma GlyphsIncreasing()
    ensures forall i, j :: 0 <= i < j < Size ==> Glyph(i) < Glyph(j)
  {
  }

  /** Membership in the alphabet, by character ranges (see `IndexOfCharacterises`). */
  predicate InAlphabet(c: Byte) {
    ('1' <= c <= '9') || ('A' <= c <= 'Z') || ('a' <= c <= 'z')
  }

  lemma InAlphabetIsMembership(c: Byte)
    ensures InAlphabet(c) <==> c in Glyphs
    ensures InAlphabet(c) <==> exists i :: 0 <= i < Size && Glyph(i) == c
  {
    InAlphabetIsGlyph(c);
    GlyphReadsTable();
    if c in Glyphs {
      var i :| 0 <= i < |Glyphs| && Glyphs[i] == c;
      assert Glyph(i) == c;
    }
  }

  /** The alphabet bytes are exactly the values of `Glyph`. */
  lemma InAlphabetIsGlyph(c: Byte)
    ensures InAlphabet(c) <==> exists i :: 0 <= i < Size && Glyph(i) == c
  {
    IndexOfCharacterises(c);
  }

  /** Linear search from position `k`, as `QByteArray::indexOf` does. */
  function IndexFrom(c: Byte, k: nat): int
    requires k <= Size
    decreases Size - k
  {
    if k == Size then -1
    else if Glyph(k) == c then k
    else IndexFrom(c, k + 1)
  }

  /** The search answers the first position at or after `k` holding `c`, or -1. */
  lemma {:induction false} IndexFromFinds(c: Byte, k: nat)
    requires k <= Size
    ensures IndexFrom(c, k) == -1 || k <= IndexFrom(c, k) < Size
    ensures IndexFrom(c, k) >= 0 ==> Glyph(IndexFrom(c, k)) == c && forall j :: k <= j < IndexFrom(c, k) ==> Glyph(j) != c
    ensures IndexFrom(c, k) == -1 ==> forall j :: k <= j < Size ==> Glyph(j) != c
    decreases Size - k
  {
    if k < Size && Glyph(k) != c {
      IndexFromFinds(c, k + 1);
    }
  }

  /** Position of `c` in the alphabet, or -1 when `c` is not a glyph, read off the three ranges. */
  function IndexOf(c: Byte): int {
    if '1' <= c <= '9' then c as int - '1' as int
    else if 'A' <= c <= 'Z' then 9 + (c as int - 'A' as int)
    else if 'a' <= c <= 'z' then 35 + (c as int - 'a' as int)
    else -1
  }

  /** The closed form agrees with `glyphs().indexOf(c)`, the linear search of the table. */
  lemma IndexOfIsSearch(c: Byte)
    ensures IndexOf(c) == IndexFrom(c, 0)
  {
    IndexFromFinds(c, 0);
    GlyphsIncreasing();
    var r := IndexFrom(c, 0);
    if r >= 0 {
      assert Glyph(r) == c;
    } else {
      InAlphabetIsMembership(c);
    }
  }

  lemma IndexOfGlyph(i: nat)
    requires i < Size
    ensures IndexOf(Glyph(i)) == i
  {
  }

  /** `IndexOf` answers -1 exactly for the bytes outside the alphabet. */
  lemma IndexOfCharacterises(c: Byte)
    ensures IndexOf(c) >= 0 <==> InAlphabet(c)
    ensures InAlphabet(c) ==> 0 <= IndexOf(c) < Size && Glyph(IndexOf(c)) == c
  {
  }

  /** The sentinel byte '0' is not a glyph: it sits just below '1'. */
  lemma SentinelNotGlyph()
    ensures !InAlphabet(Sentinel)
  {
    InAlphabetIsMembership(Sentinel);
  }

  /**
   * The successor as written: the guard `index >= length` can never hold, so for
   * the last glyph the table is read one past its end. `None` stands for that
   * out-of-range read.
   */
  function NextAsWritten(c: Byte): (r: Option<Byte>)
    ensures r.None? <==> c == Glyph(Size - 1)
    ensures r.Some? ==> r.value == Sentinel || InAlphabet(r.value)
  {
    IndexOfCharacterises(c);
    IndexOfGlyph(Size - 1);
    var index := IndexOf(c);
    if index < 0 || index >= Size then Some(Sentinel)
    else if index + 1 < Size then Some(Glyph(index + 1))
    else None
  }

  /** Exhibits the out-of-range read: `next('z')` has no element of the table to return. */
  lemma NextAsWrittenReadsPastEnd()
    ensures NextAsWritten('z') == None
    ensures forall c :: IndexOf(c) < Size
  {
    IndexOfGlyph(60);
  }

  /** The successor with the intended guard: past the last glyph it yields the sentinel. */
  function Next(c: Byte): (r: Byte)
    ensures InAlphabet(c) && IndexOf(c) + 1 < Size ==> r == Glyph(IndexOf(c) + 1)
    ensures !InAlphabet(c) || IndexOf(c) == Size - 1 ==> r == Sentinel
  {
    IndexOfCharacterises(c);
    var index := IndexOf(c);
    if index < 0 || index + 1 >= Size then Sentinel
    else Glyph(index + 1)
  }

  /** Successor in traversal order: glyph i is followed by glyph i+1, the last by the sentinel. */
  lemma NextOfGlyph(i: nat)
    requires i < Size
    ensures i + 1 < Size ==> Next(Glyph(i)) == Glyph(i + 1)
    ensures i + 1 == Size ==> Next(Glyph(i)) == Sentinel
    ensures !InAlphabet(Sentinel)
  {
    IndexOfGlyph(i);
    GlyphsIncreasing();
    SentinelNotGlyph();
  }

  /** The corrected successor agrees with the code as written wherever the latter is defined. */
  lemma NextAgreesWhereDefined(c: Byte)
    ensures NextAsWritten(c).Some? ==> NextAsWritten(c).value == Next(c)
    ensures NextAsWritten(c).None? <==> c == 'z'
  {
    IndexOfCharacterises(c);
    IndexOfGlyph(60);
  }
}
