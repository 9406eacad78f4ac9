/**
 * The occurrence index: the `QMultiHash<char, QPoint>` filled by the scanner
 * (qtextimage.cpp:89, 94) and read back with `values` (qtextimage.cpp:115, 119, 129).
 */
module Occurrences {
  import opened Options
  import opened Alphabet
  import opened Geometry
  import opened Scanner

  function Reverse<T>(s: seq<T>): (r: seq<T>)
    ensures |r| == |s|
    ensures forall i :: 0 <= i < |s| ==> r[i] == s[|s| - 1 - i]
    decreases |s|
  {
    if s == [] then [] else Reverse(s[1..]) + [s[0]]
  }

  lemma {:induction false} ReverseMultiset<T>(s: seq<T>)
    ensures multiset(Reverse(s)) == multiset(s)
    decreases |s|
  {
    if s != [] {
      ReverseMultiset(s[1..]);
      assert s == [s[0]] + s[1..];
      assert Reverse(s) == Reverse(s[1..]) + [s[0]];
    }
  }

  /** The cells holding glyph `g`, in scan order (first observed first). */
  function Positions(obs: seq<Observation>, g: Byte): seq<Coord>
    decreases |obs|
  {
    if obs == [] then []
    else (if obs[0].glyph == g then [obs[0].at] else []) + Positions(obs[1..], g)
  }

  /** `values(g)` of the multi-hash: the cells holding `g`, most recently inserted first. */
  function Values(obs: seq<Observation>, g: Byte): (r: seq<Coord>)
    ensures |r| <= |obs|
    decreases |obs|
  {
    if obs == [] then []
    else Values(obs[1..], g) + (if obs[0].glyph == g then [obs[0].at] else [])
  }

  /** Number of occurrences of `g`, `values(g).size()`. */
  function Count(obs: seq<Observation>, g: Byte): nat {
    |Values(obs, g)|
  }

  /** The multi-hash answers the scan order reversed. */
  lemma {:induction false} ValuesReversePositions(obs: seq<Observation>, g: Byte)
    ensures Values(obs, g) == Reverse(Positions(obs, g))
    decreases |obs|
  {
    if obs != [] {
      ValuesReversePositions(obs[1..], g);
      var head := if obs[0].glyph == g then [obs[0].at] else [];
      assert Reverse(head + Positions(obs[1..], g)) == Reverse(Positions(obs[1..], g)) + head;
    }
  }

  /** Scan order lists exactly the cells where `g` was observed. */
  lemma {:induction false} PositionsAreObservations(obs: seq<Observation>, g: Byte)
    ensures forall p :: p in Positions(obs, g) <==> Observation(g, p) in obs
    decreases |obs|
  {
    if obs != [] {
      PositionsAreObservations(obs[1..], g);
      assert obs == [obs[0]] + obs[1..];
      forall p ensures Observation(g, p) in obs <==> Observation(g, p) == obs[0] || Observation(g, p) in obs[1..] {
      }
    }
  }

  /** A glyph never observed has no positions. */
  lemma {:induction false} PositionsOfAbsent(obs: seq<Observation>, g: Byte)
    requires forall o <- obs :: o.glyph != g
    ensures Positions(obs, g) == []
    decreases |obs|
  {
    if obs != [] {
      assert obs[0] in obs;
      assert forall o <- obs[1..] :: o in obs;
      PositionsOfAbsent(obs[1..], g);
    }
  }

  /** Scanning two stretches of input one after the other lists the cells of the first, then those of the second. */
  lemma {:induction false} PositionsConcat(a: seq<Observation>, b: seq<Observation>, g: Byte)
    ensures Positions(a + b, g) == Positions(a, g) + Positions(b, g)
    decreases |a|
  {
    if a != [] {
      PositionsConcat(a[1..], b, g);
      assert (a + b)[1..] == a[1..] + b;
      Regroup(if a[0].glyph == g then [a[0].at] else [], Positions(a[1..], g), Positions(b, g));
    } else {
      assert a + b == b;
    }
  }

  /** The multi-hash holds exactly the recorded occurrences of each glyph. */
  lemma ValuesAreOccurrences(obs: seq<Observation>, g: Byte)
    ensures multiset(Values(obs, g)) == multiset(Positions(obs, g))
    ensures forall p :: p in Values(obs, g) <==> Observation(g, p) in obs
  {
    ValuesReversePositions(obs, g);
    ReverseMultiset(Positions(obs, g));
    PositionsAreObservations(obs, g);
    assert forall p :: p in Values(obs, g) <==> p in multiset(Values(obs, g));
    assert forall p :: p in Positions(obs, g) <==> p in multiset(Positions(obs, g));
  }

  /** Only alphabet glyphs are ever recorded. */
  predicate Recorded(obs: seq<Observation>) {
    forall o <- obs :: InAlphabet(o.glyph)
  }

  /** A byte outside the alphabet (the sentinel among them) never has occurrences. */
  lemma NonGlyphHasNoValues(obs: seq<Observation>, g: Byte)
    requires Recorded(obs) && !InAlphabet(g)
    ensures Values(obs, g) == []
  {
    ValuesAreOccurrences(obs, g);
  }
}
