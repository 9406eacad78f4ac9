/**
 * The classifier: the second loop of `QTextImage::parse` (qtextimage.cpp:112-142).
 *
 * `ClassifyFrom` walks the alphabet with the pending-polygon accumulator exactly as
 * the source loop does. `Scene` says, glyph by glyph, which component each glyph
 * yields, and `ClassifyMatchesScene` proves the two agree.
 */
module Classifier {
  import opened Options
  import opened Alphabet
  import opened Geometry
  import opened Scanner
  import opened Occurrences

  /** The loop's state between iterations: the open polygon and the components so far. */
  datatype Pass = Pass(polygon: Component, out: seq<Component>)

  /** What the loop demands of its state before glyph `i`: an open polygon meets a singleton. */
  predicate Ready(obs: seq<Observation>, i: nat, p: Pass) {
    i <= Size
    && (p.polygon.points != [] ==> i < Size && CountAt(obs, i) == 1 && p.polygon.kind == Polygon)
  }

  /** The body of the loop for glyph `i`. */
  function Visit(obs: seq<Observation>, i: nat, p: Pass): (q: Pass)
    requires Recorded(obs) && i < Size && Ready(obs, i, p)
    ensures Ready(obs, i + 1, q)
    ensures |p.out| <= |q.out| <= |p.out| + 1 && q.out[..|p.out|] == p.out
  {
    var glyph := Glyph(i);
    var glyphPoints := Values(obs, glyph);
    NextCountAt(obs, i);
    var nextCount := NextCount(obs, glyph);
    var polygon := p.polygon;
    if polygon.points != [] then
      var grown := polygon.(points := polygon.points + [glyphPoints[0]]);
      if nextCount != 1 then Pass(grown.(points := []), p.out + [grown])
      else Pass(grown, p.out)
    else if |glyphPoints| == 0 then p
    else if |glyphPoints| == 1 then
      if nextCount == 1 then Pass(Component(glyph, Polygon, glyphPoints), p.out)
      else Pass(polygon, p.out + [Component(glyph, Point, glyphPoints)])
    else if |glyphPoints| == 2 then Pass(polygon, p.out + [Component(glyph, Line, glyphPoints)])
    else Pass(polygon, p.out + [Component(glyph, Ellipse, RectPoints(glyphPoints))])
  }

  /** The loop from glyph `i` on. */
  function ClassifyFrom(obs: seq<Observation>, i: nat, p: Pass): (r: seq<Component>)
    requires Recorded(obs) && Ready(obs, i, p)
    ensures |p.out| <= |r| <= |p.out| + (Size - i) && r[..|p.out|] == p.out
    decreases Size - i
  {
    if i == Size then p.out
    else ClassifyFrom(obs, i + 1, Visit(obs, i, p))
  }

  /** The whole loop, starting with the empty accumulator `{'0', Polygon, {}}`. */
  function Classify(obs: seq<Observation>): (r: seq<Component>)
    requires Recorded(obs)
    ensures |r| <= Size
  {
    ClassifyFrom(obs, 0, Pass(Component(Sentinel, Polygon, []), []))
  }

  // ---------------------------------------------------------------------------
  // Glyph by glyph.

  /** Occurrences of the i-th glyph; the sentinel past the last glyph has none. */
  function CountAt(obs: seq<Observation>, i: nat): nat {
    if i < Size then Count(obs, Glyph(i)) else 0
  }

  /** The end of the run of single-occurrence glyphs that starts at or after `i`. */
  function RunEnd(obs: seq<Observation>, i: nat): (e: nat)
    requires i <= Size
    ensures i <= e <= Size
    ensures forall j :: i <= j < e ==> CountAt(obs, j) == 1
    ensures CountAt(obs, e) != 1
    decreases Size - i
  {
    if i < Size && CountAt(obs, i) == 1 then RunEnd(obs, i + 1) else i
  }

  /** Glyph `i` has one occurrence and its predecessor does not: a run of singletons starts here. */
  predicate StartsRun(obs: seq<Observation>, i: nat) {
    CountAt(obs, i) == 1 && (i == 0 || CountAt(obs, i - 1) != 1)
  }

  /** The only occurrence of each glyph in `[s, e)`, in alphabet order. */
  function Vertices(obs: seq<Observation>, s: nat, e: nat): (r: seq<Coord>)
    requires s <= e <= Size
    requires forall j :: s <= j < e ==> CountAt(obs, j) == 1
    ensures |r| == e - s
    ensures forall k :: 0 <= k < e - s ==> CountAt(obs, s + k) == 1 && r[k] == Values(obs, Glyph(s + k))[0]
    decreases e - s
  {
    if e == s then []
    else
      assert CountAt(obs, e - 1) == 1;
      Vertices(obs, s, e - 1) + [Values(obs, Glyph(e - 1))[0]]
  }

  /**
   * The component glyph `i` is the tag of: none for no occurrence or for a
   * singleton inside a run; a polygon for a run of two or more singletons,
   * tagged with its first glyph; a point for a lone singleton; a line for two
   * occurrences; the bounding box of an ellipse for three or more.
   */
  function ComponentOf(obs: seq<Observation>, i: nat): Option<Component>
    requires i < Size
  {
    var g := Glyph(i);
    var pts := Values(obs, g);
    if |pts| == 0 then None
    else if |pts| == 1 then
      if !StartsRun(obs, i) then None
      else if RunEnd(obs, i) - i >= 2 then Some(Component(g, Polygon, Vertices(obs, i, RunEnd(obs, i))))
      else Some(Component(g, Point, pts))
    else if |pts| == 2 then Some(Component(g, Line, pts))
    else Some(Component(g, Ellipse, RectPoints(pts)))
  }

  /** The component glyph `i` contributes, as a sequence of none or one. */
  function Emitted(obs: seq<Observation>, i: nat): seq<Component>
    requires i < Size
  {
    match ComponentOf(obs, i)
    case None => []
    case Some(c) => [c]
  }

  /** The components of glyphs `i` onwards, in alphabet order. */
  function Scene(obs: seq<Observation>, i: nat): seq<Component>
    decreases Size - i
  {
    if i >= Size then [] else Emitted(obs, i) + Scene(obs, i + 1)
  }

  // ---------------------------------------------------------------------------
  // The loop computes the scene.

  /** `values(next(glyph)).size()`: how often the following glyph occurs. */
  function NextCount(obs: seq<Observation>, g: Byte): nat {
    |Values(obs, Next(g))|
  }

  lemma NextCountAt(obs: seq<Observation>, i: nat)
    requires Recorded(obs) && i < Size
    ensures NextCount(obs, Glyph(i)) == CountAt(obs, i + 1)
  {
    NextOfGlyph(i);
    NonGlyphHasNoValues(obs, Sentinel);
  }

  /** With no polygon open, a singleton followed by a singleton opens one. */
  lemma VisitOpens(obs: seq<Observation>, i: nat, polygon: Component, out: seq<Component>)
    requires Recorded(obs) && i < Size
    requires polygon.points == [] && polygon.kind == Polygon
    requires CountAt(obs, i) == 1 && CountAt(obs, i + 1) == 1
    ensures Visit(obs, i, Pass(polygon, out)) == Pass(Component(Glyph(i), Polygon, Vertices(obs, i, i + 1)), out)
  {
    NextCountAt(obs, i);
  }

  /** With no polygon open and none to open, the loop appends what glyph `i` contributes. */
  lemma VisitEmits(obs: seq<Observation>, i: nat, polygon: Component, out: seq<Component>)
    requires Recorded(obs) && i < Size
    requires polygon.points == [] && polygon.kind == Polygon
    requires i == 0 || CountAt(obs, i - 1) != 1 || CountAt(obs, i) != 1
    requires CountAt(obs, i) != 1 || CountAt(obs, i + 1) != 1
    ensures Visit(obs, i, Pass(polygon, out)) == Pass(polygon, out + Emitted(obs, i))
  {
    NextCountAt(obs, i);
    if CountAt(obs, i) == 1 {
      assert RunEnd(obs, i + 1) == i + 1;
    }
  }

  /** With the polygon of the run from `s` open, the loop adds glyph `i` and closes it at the run's end. */
  lemma VisitGrows(obs: seq<Observation>, i: nat, s: nat, out: seq<Component>)
    requires Busy(obs, i, s)
    ensures var grown := Component(Glyph(s), Polygon, Vertices(obs, s, i + 1));
            Visit(obs, i, Pass(Component(Glyph(s), Polygon, Vertices(obs, s, i)), out))
            == if CountAt(obs, i + 1) == 1 then Pass(grown, out) else Pass(grown.(points := []), out + [grown])
  {
    NextCountAt(obs, i);
  }

  /** No polygon is open at glyph `i`, and glyph `i` does not continue a run. */
  predicate Idle(obs: seq<Observation>, i: nat, polygon: Component) {
    Recorded(obs) && i <= Size && polygon.points == [] && polygon.kind == Polygon
    && (i == 0 || CountAt(obs, i - 1) != 1 || CountAt(obs, i) != 1)
  }

  /** The polygon through the run of singletons that starts at `s`. */
  function RunPolygonAt(obs: seq<Observation>, s: nat): Component
    requires s < Size
  {
    Component(Glyph(s), Polygon, Vertices(obs, s, RunEnd(obs, s)))
  }

  /** The polygon of the run from `s` is open at glyph `i`, which continues the run. */
  predicate Busy(obs: seq<Observation>, i: nat, s: nat) {
    Recorded(obs) && s < i < Size && StartsRun(obs, s)
    && (forall j :: s <= j < i ==> CountAt(obs, j) == 1)
    && CountAt(obs, i) == 1
  }

  /** With no polygon open at glyph `i`, the loop appends the scene from `i` on. */
  lemma {:induction false} ClassifyIdle(obs: seq<Observation>, i: nat, polygon: Component, out: seq<Component>)
    requires Idle(obs, i, polygon)
    ensures ClassifyFrom(obs, i, Pass(polygon, out)) == out + Scene(obs, i)
    decreases Size - i, 2
  {
    if i == Size {
      assert out + [] == out;
    } else if CountAt(obs, i) == 1 && CountAt(obs, i + 1) == 1 {
      ClassifyOpens(obs, i, polygon, out);
    } else {
      ClassifyEmits(obs, i, polygon, out);
    }
  }

  lemma {:induction false} ClassifyOpens(obs: seq<Observation>, i: nat, polygon: Component, out: seq<Component>)
    requires Idle(obs, i, polygon) && i < Size
    requires CountAt(obs, i) == 1 && CountAt(obs, i + 1) == 1
    ensures ClassifyFrom(obs, i, Pass(polygon, out)) == out + Scene(obs, i)
    decreases Size - i, 1
  {
    OpensStep(obs, i, polygon, out);
    ClassifyBusy(obs, i + 1, i, out);
    Regroup(out, [RunPolygonAt(obs, i)], Scene(obs, i + 1));
  }

  lemma {:induction false} ClassifyEmits(obs: seq<Observation>, i: nat, polygon: Component, out: seq<Component>)
    requires Idle(obs, i, polygon) && i < Size
    requires CountAt(obs, i) != 1 || CountAt(obs, i + 1) != 1
    ensures ClassifyFrom(obs, i, Pass(polygon, out)) == out + Scene(obs, i)
    decreases Size - i, 1
  {
    EmitsStep(obs, i, polygon, out);
    ClassifyIdle(obs, i + 1, polygon, out + Emitted(obs, i));
    Regroup(out, Emitted(obs, i), Scene(obs, i + 1));
  }

  /**
   * With the polygon of the run started at `s` open at glyph `i`, the loop
   * appends that polygon and then the scene from `i` on.
   */
  lemma {:induction false} ClassifyBusy(obs: seq<Observation>, i: nat, s: nat, out: seq<Component>)
    requires Busy(obs, i, s)
    ensures ClassifyFrom(obs, i, Pass(Component(Glyph(s), Polygon, Vertices(obs, s, i)), out))
            == out + [RunPolygonAt(obs, s)] + Scene(obs, i)
    decreases Size - i, 0
  {
    var grown := Component(Glyph(s), Polygon, Vertices(obs, s, i + 1));
    BusyStep(obs, i, s, out);
    if CountAt(obs, i + 1) != 1 {
      ClassifyIdle(obs, i + 1, grown.(points := []), out + [grown]);
    } else {
      ClassifyBusy(obs, i + 1, s, out);
    }
  }

  /** Opening a polygon at `i`: the loop's first turn, and the scene's first component. */
  lemma OpensStep(obs: seq<Observation>, i: nat, polygon: Component, out: seq<Component>)
    requires Idle(obs, i, polygon) && i < Size
    requires CountAt(obs, i) == 1 && CountAt(obs, i + 1) == 1
    ensures ClassifyFrom(obs, i, Pass(polygon, out))
            == ClassifyFrom(obs, i + 1, Pass(Component(Glyph(i), Polygon, Vertices(obs, i, i + 1)), out))
    ensures Scene(obs, i) == [RunPolygonAt(obs, i)] + Scene(obs, i + 1)
    ensures Busy(obs, i + 1, i)
  {
    VisitOpens(obs, i, polygon, out);
    assert RunEnd(obs, i) == RunEnd(obs, i + 1);
    EmittedRun(obs, i);
  }

  /** Emitting at `i`: the loop's turn appends what glyph `i` contributes. */
  lemma EmitsStep(obs: seq<Observation>, i: nat, polygon: Component, out: seq<Component>)
    requires Idle(obs, i, polygon) && i < Size
    requires CountAt(obs, i) != 1 || CountAt(obs, i + 1) != 1
    ensures ClassifyFrom(obs, i, Pass(polygon, out)) == ClassifyFrom(obs, i + 1, Pass(polygon, out + Emitted(obs, i)))
    ensures Idle(obs, i + 1, polygon)
  {
    VisitEmits(obs, i, polygon, out);
  }

  /** Growing the polygon of the run from `s` at `i`, and closing it where the run ends. */
  lemma BusyStep(obs: seq<Observation>, i: nat, s: nat, out: seq<Component>)
    requires Busy(obs, i, s)
    ensures var grown := Component(Glyph(s), Polygon, Vertices(obs, s, i + 1));
            && Scene(obs, i) == Scene(obs, i + 1)
            && (CountAt(obs, i + 1) == 1 ==>
                  Busy(obs, i + 1, s)
                  && ClassifyFrom(obs, i, Pass(Component(Glyph(s), Polygon, Vertices(obs, s, i)), out))
                     == ClassifyFrom(obs, i + 1, Pass(Component(Glyph(s), Polygon, Vertices(obs, s, i + 1)), out)))
            && (CountAt(obs, i + 1) != 1 ==>
                  RunPolygonAt(obs, s) == grown
                  && Idle(obs, i + 1, grown.(points := []))
                  && ClassifyFrom(obs, i, Pass(Component(Glyph(s), Polygon, Vertices(obs, s, i)), out))
                     == ClassifyFrom(obs, i + 1, Pass(grown.(points := []), out + [grown])))
  {
    RunEndCovers(obs, s, i);
    VisitGrows(obs, i, s, out);
    assert Emitted(obs, i) == [] by { assert !StartsRun(obs, i); }
    if CountAt(obs, i + 1) != 1 {
      RunEndFrom(obs, s, i + 1);
    }
  }

  /** A run of two or more singletons contributes one polygon through all of them. */
  lemma EmittedRun(obs: seq<Observation>, s: nat)
    requires s < Size && StartsRun(obs, s) && RunEnd(obs, s) - s >= 2
    ensures Emitted(obs, s) == [Component(Glyph(s), Polygon, Vertices(obs, s, RunEnd(obs, s)))]
  {
  }

  /** A run that covers `[s, i]` ends where the run from `i` ends. */
  lemma {:induction false} RunEndCovers(obs: seq<Observation>, s: nat, i: nat)
    requires s <= i < Size
    requires forall j :: s <= j <= i ==> CountAt(obs, j) == 1
    ensures RunEnd(obs, s) == RunEnd(obs, i) && RunEnd(obs, s) > i
    decreases i - s
  {
    if s < i {
      RunEndCovers(obs, s + 1, i);
    }
  }

  /** A run known to stop at `e` ends there. */
  lemma {:induction false} RunEndFrom(obs: seq<Observation>, s: nat, e: nat)
    requires s <= e <= Size
    requires forall j :: s <= j < e ==> CountAt(obs, j) == 1
    requires CountAt(obs, e) != 1
    ensures RunEnd(obs, s) == e
    decreases e - s
  {
    if s < e {
      RunEndFrom(obs, s + 1, e);
    }
  }

  /** The loop yields exactly the glyph-by-glyph scene. */
  lemma ClassifyMatchesScene(obs: seq<Observation>)
    requires Recorded(obs)
    ensures Classify(obs) == Scene(obs, 0)
  {
    ClassifyIdle(obs, 0, Component(Sentinel, Polygon, []), []);
  }
}

/**
 * What the classifier promises about its output, stated against the scene and
 * through it against `Classify`: which component each glyph tags, in which order,
 * and of which shape.
 */
module ClassifierFacts {
  import opened Options
  import opened Alphabet
  import opened Geometry
  import opened Scanner
  import opened Occurrences
  import opened Classifier

  /** The components tagged with glyph `g`, in order. */
  function TaggedWith(cs: seq<Component>, g: Byte): (r: seq<Component>)
    ensures forall c <- r :: c in cs && c.glyph == g
    ensures forall c <- cs :: c.glyph == g ==> c in r
    decreases |cs|
  {
    if cs == [] then []
    else (if cs[0].glyph == g then [cs[0]] else []) + TaggedWith(cs[1..], g)
  }

  lemma {:induction false} TaggedWithConcat(a: seq<Component>, b: seq<Component>, g: Byte)
    ensures TaggedWith(a + b, g) == TaggedWith(a, g) + TaggedWith(b, g)
    decreases |a|
  {
    if a == [] {
      assert a + b == b;
    } else {
      var head := if a[0].glyph == g then [a[0]] else [];
      assert TaggedWith(a + b, g) == head + TaggedWith(a[1..] + b, g) by {
        assert (a + b)[0] == a[0];
        assert (a + b)[1..] == a[1..] + b;
      }
      TaggedWithConcat(a[1..], b, g);
      Regroup(head, TaggedWith(a[1..], g), TaggedWith(b, g));
    }
  }

  /** With one occurrence, the multi-hash and the scan order agree. */
  lemma SingletonValues(obs: seq<Observation>, g: Byte)
    requires Count(obs, g) == 1
    ensures Values(obs, g) == Positions(obs, g)
  {
    ValuesReversePositions(obs, g);
  }

  /** Each glyph's component carries that glyph's tag and the point count of its kind. */
  lemma EmittedWellFormed(obs: seq<Observation>, i: nat)
    requires i < Size
    ensures |Emitted(obs, i)| <= 1
    ensures forall c <- Emitted(obs, i) :: c.glyph == Glyph(i) && WellFormed(c)
  {
    var pts := Values(obs, Glyph(i));
    if |pts| >= 3 {
      var r := RectPoints(pts);
      assert Tight(Box(r[0].x, r[0].y, r[1].x, r[1].y), pts);
      var p :| p in pts && p.x == r[0].x;
      var q :| q in pts && q.y == r[0].y;
      assert Contains(Box(r[0].x, r[0].y, r[1].x, r[1].y), p);
      assert Contains(Box(r[0].x, r[0].y, r[1].x, r[1].y), q);
    }
  }

  /** Glyph `j`'s components among those glyph `i` contributes: all of them when `i` is `j`, none otherwise. */
  lemma TaggedEmitted(obs: seq<Observation>, i: nat, j: nat)
    requires i < Size && j < Size
    ensures TaggedWith(Emitted(obs, i), Glyph(j)) == if i == j then Emitted(obs, j) else []
  {
    EmittedWellFormed(obs, i);
    GlyphsIncreasing();
  }

  /** Glyph `j`'s components in the scene from `i`: its own, if `j` is not before `i`. */
  lemma {:induction false} SceneTagged(obs: seq<Observation>, i: nat, j: nat)
    requires j < Size
    ensures TaggedWith(Scene(obs, i), Glyph(j)) == if i <= j then Emitted(obs, j) else []
    decreases Size - i
  {
    if i < Size {
      SceneTagged(obs, i + 1, j);
      TaggedWithConcat(Emitted(obs, i), Scene(obs, i + 1), Glyph(j));
      TaggedEmitted(obs, i, j);
    }
  }

  /** Components listed in strictly increasing tag order. */
  predicate Increasing(cs: seq<Component>) {
    forall a, b :: 0 <= a < b < |cs| ==> IndexOf(cs[a].glyph) < IndexOf(cs[b].glyph)
  }

  /** Two increasing lists, every tag of the first below every tag of the second, make an increasing list. */
  lemma IncreasingConcat(e: seq<Component>, rest: seq<Component>)
    requires Increasing(e) && Increasing(rest)
    requires forall c <- e, d <- rest :: IndexOf(c.glyph) < IndexOf(d.glyph)
    ensures Increasing(e + rest)
  {
    var s := e + rest;
    forall a, b | 0 <= a < b < |s|
      ensures IndexOf(s[a].glyph) < IndexOf(s[b].glyph)
    {
      if b < |e| {
        assert s[a] == e[a] && s[b] == e[b];
      } else if a < |e| {
        assert s[a] in e && s[b] in rest;
      } else {
        assert s[a] == rest[a - |e|] && s[b] == rest[b - |e|];
      }
    }
  }

  /** What glyph `i` contributes is well formed and tagged with glyph `i`. */
  lemma EmittedTagged(obs: seq<Observation>, i: nat)
    requires i < Size
    ensures forall c <- Emitted(obs, i) :: WellFormed(c) && InAlphabet(c.glyph) && IndexOf(c.glyph) == i
    ensures Increasing(Emitted(obs, i))
  {
    EmittedWellFormed(obs, i);
    IndexOfGlyph(i);
    InAlphabetIsMembership(Glyph(i));
  }

  /** The scene from `i` lists well-formed components in strictly increasing tag order. */
  lemma {:induction false} SceneOrdered(obs: seq<Observation>, i: nat)
    ensures forall c <- Scene(obs, i) :: WellFormed(c) && InAlphabet(c.glyph) && i <= IndexOf(c.glyph)
    ensures Increasing(Scene(obs, i))
    decreases Size - i
  {
    if i < Size {
      SceneOrdered(obs, i + 1);
      EmittedTagged(obs, i);
      IncreasingConcat(Emitted(obs, i), Scene(obs, i + 1));
    }
  }

  /** The loop's output, read glyph by glyph: glyph `j` tags exactly the components `Emitted` names. */
  lemma ClassifyByGlyph(obs: seq<Observation>, j: nat)
    requires Recorded(obs) && j < Size
    ensures TaggedWith(Classify(obs), Glyph(j)) == Emitted(obs, j)
    ensures |TaggedWith(Classify(obs), Glyph(j))| <= 1
  {
    ClassifyMatchesScene(obs);
    SceneTagged(obs, 0, j);
    EmittedWellFormed(obs, j);
  }

  /** The loop's output is in alphabet order of tags, with no tag twice, and every shape well formed. */
  lemma ClassifyOrdered(obs: seq<Observation>)
    requires Recorded(obs)
    ensures forall c <- Classify(obs) :: WellFormed(c) && InAlphabet(c.glyph)
    ensures Increasing(Classify(obs))
  {
    ClassifyMatchesScene(obs);
    SceneOrdered(obs, 0);
  }

  // ---------------------------------------------------------------------------
  // The shape each glyph yields, by its number of occurrences.

  /** A glyph that does not occur tags nothing. */
  lemma AbsentGlyph(obs: seq<Observation>, j: nat)
    requires j < Size && Positions(obs, Glyph(j)) == []
    ensures Emitted(obs, j) == []
  {
    ValuesReversePositions(obs, Glyph(j));
  }

  /** Two occurrences make a line through both cells. */
  lemma TwoOccurrencesLine(obs: seq<Observation>, j: nat)
    requires j < Size && |Positions(obs, Glyph(j))| == 2
    ensures |Emitted(obs, j)| == 1
    ensures var c := Emitted(obs, j)[0];
            c.kind == Line && multiset(c.points) == multiset(Positions(obs, Glyph(j)))
  {
    ValuesReversePositions(obs, Glyph(j));
    ValuesAreOccurrences(obs, Glyph(j));
  }

  /** Three or more occurrences make an ellipse: the tight box around all of them. */
  lemma ManyOccurrencesEllipse(obs: seq<Observation>, j: nat)
    requires j < Size && |Positions(obs, Glyph(j))| >= 3
    ensures |Emitted(obs, j)| == 1
    ensures var c := Emitted(obs, j)[0];
            c.kind == Ellipse && |c.points| == 2
            && Tight(Box(c.points[0].x, c.points[0].y, c.points[1].x, c.points[1].y), Positions(obs, Glyph(j)))
  {
    var g := Glyph(j);
    ValuesReversePositions(obs, g);
    ValuesAreOccurrences(obs, g);
    PositionsAreObservations(obs, g);
    var c := Emitted(obs, j)[0];
    assert forall p :: p in Values(obs, g) <==> p in Positions(obs, g);
    assert Tight(Box(c.points[0].x, c.points[0].y, c.points[1].x, c.points[1].y), Values(obs, g));
  }

  /**
   * A single occurrence preceded by another singleton tags nothing of its own:
   * its cell is a vertex of the polygon of an earlier glyph.
   */
  lemma SingletonInsideRun(obs: seq<Observation>, j: nat)
    requires 0 < j < Size && CountAt(obs, j - 1) == 1 && CountAt(obs, j) == 1
    ensures Emitted(obs, j) == []
    ensures exists s :: 0 <= s < j && |Emitted(obs, s)| == 1 && Emitted(obs, s)[0].kind == Polygon
                        && Values(obs, Glyph(j))[0] in Emitted(obs, s)[0].points
  {
    var s := SingletonAccounted(obs, j);
    assert s != j;
  }

  /** The nearest glyph at or before `j` where the run of singletons through `j` starts. */
  lemma {:induction false} RunStartOf(obs: seq<Observation>, j: nat) returns (s: nat)
    requires j < Size && CountAt(obs, j) == 1
    ensures s <= j && StartsRun(obs, s)
    ensures forall k :: s <= k <= j ==> CountAt(obs, k) == 1
    decreases j
  {
    if StartsRun(obs, j) {
      s := j;
    } else {
      s := RunStartOf(obs, j - 1);
    }
  }

  /**
   * The only cell of a singleton glyph `j` is a point of the component tagged at
   * the start of its run: the polygon through the run, or `j`'s own point.
   */
  lemma SingletonAccounted(obs: seq<Observation>, j: nat) returns (s: nat)
    requires j < Size && CountAt(obs, j) == 1
    ensures s <= j && |Emitted(obs, s)| == 1 && Values(obs, Glyph(j))[0] in Emitted(obs, s)[0].points
    ensures s < j ==> Emitted(obs, s)[0].kind == Polygon
    ensures Emitted(obs, s)[0].kind != Ellipse
  {
    s := RunStartOf(obs, j);
    RunEndCovers(obs, s, j);
    var e := RunEnd(obs, s);
    if e - s >= 2 {
      EmittedRun(obs, s);
      assert Vertices(obs, s, e)[j - s] == Values(obs, Glyph(j))[0];
    }
  }

  /** A lone single occurrence, with no singleton on either side, is a point. */
  lemma LoneSingletonPoint(obs: seq<Observation>, j: nat)
    requires j < Size && StartsRun(obs, j) && CountAt(obs, j + 1) != 1
    ensures Emitted(obs, j) == [Component(Glyph(j), Point, Positions(obs, Glyph(j)))]
  {
    SingletonValues(obs, Glyph(j));
    assert RunEnd(obs, j + 1) == j + 1;
  }

  /**
   * A run of singletons from `j` through `e - 1` is one polygon tagged with glyph `j`,
   * whose k-th vertex is the only cell of glyph `j + k`.
   */
  lemma RunPolygon(obs: seq<Observation>, j: nat, e: nat)
    requires j < Size && StartsRun(obs, j) && j + 2 <= e <= Size
    requires forall k :: j <= k < e ==> CountAt(obs, k) == 1
    requires CountAt(obs, e) != 1
    ensures |Emitted(obs, j)| == 1
    ensures var c := Emitted(obs, j)[0];
            c.glyph == Glyph(j) && c.kind == Polygon && |c.points| == e - j
            && forall k :: 0 <= k < e - j ==> [c.points[k]] == Positions(obs, Glyph(j + k))
  {
    RunEndFrom(obs, j, e);
    var c := Emitted(obs, j)[0];
    forall k | 0 <= k < e - j
      ensures [c.points[k]] == Positions(obs, Glyph(j + k))
    {
      assert CountAt(obs, j + k) == 1;
      SingletonValues(obs, Glyph(j + k));
    }
  }

  /**
   * The cells `pts` are accounted for by `c`: inside the box spanned by its two
   * corners when `c` is an ellipse, and among its points otherwise.
   */
  predicate Accounts(c: Component, pts: seq<Coord>) {
    if c.kind == Ellipse then
      |c.points| == 2 && forall p <- pts :: Contains(Box(c.points[0].x, c.points[0].y, c.points[1].x, c.points[1].y), p)
    else forall p <- pts :: p in c.points
  }

  /**
   * No occurrence is dropped: the cells of every occurring glyph are accounted for
   * by the one component tagged at it or, for a singleton inside a run, at the
   * start of the run.
   */
  lemma EmittedAtOrBefore(obs: seq<Observation>, j: nat)
    requires j < Size && CountAt(obs, j) >= 1
    ensures exists s :: 0 <= s <= j && |Emitted(obs, s)| == 1 && Accounts(Emitted(obs, s)[0], Values(obs, Glyph(j)))
  {
    if CountAt(obs, j) == 1 {
      SingletonAccounts(obs, j);
    } else if CountAt(obs, j) == 2 {
      LineAccounts(obs, j);
    } else {
      EllipseAccounts(obs, j);
    }
  }

  /** A singleton's cell is a point of the component at the start of its run. */
  lemma SingletonAccounts(obs: seq<Observation>, j: nat)
    requires j < Size && CountAt(obs, j) == 1
    ensures exists s :: 0 <= s <= j && |Emitted(obs, s)| == 1 && Accounts(Emitted(obs, s)[0], Values(obs, Glyph(j)))
  {
    var s := SingletonAccounted(obs, j);
    CellAccounts(Emitted(obs, s)[0], Values(obs, Glyph(j)));
  }

  /** One cell among the points of a component that is not an ellipse is accounted for. */
  lemma CellAccounts(c: Component, pts: seq<Coord>)
    requires |pts| == 1 && pts[0] in c.points && c.kind != Ellipse
    ensures Accounts(c, pts)
  {
    assert forall p <- pts :: p == pts[0];
  }

  /** Two cells are the points of the line their glyph tags. */
  lemma LineAccounts(obs: seq<Observation>, j: nat)
    requires j < Size && CountAt(obs, j) == 2
    ensures |Emitted(obs, j)| == 1 && Accounts(Emitted(obs, j)[0], Values(obs, Glyph(j)))
  {
    assert Emitted(obs, j) == [Component(Glyph(j), Line, Values(obs, Glyph(j)))];
  }

  /** Three or more cells lie in the box of the ellipse their glyph tags. */
  lemma EllipseAccounts(obs: seq<Observation>, j: nat)
    requires j < Size && CountAt(obs, j) >= 3
    ensures |Emitted(obs, j)| == 1 && Accounts(Emitted(obs, j)[0], Values(obs, Glyph(j)))
  {
    var pts := Values(obs, Glyph(j));
    var r := RectPoints(pts);
    assert Emitted(obs, j) == [Component(Glyph(j), Ellipse, r)];
  }

  /** The image has shapes exactly when some glyph was recorded. */
  lemma ClassifyEmptyIff(obs: seq<Observation>)
    requires Recorded(obs)
    ensures Classify(obs) == [] <==> obs == []
  {
    if obs != [] {
      var g := obs[0].glyph;
      var j := IndexOf(g);
      IndexOfCharacterises(g);
      PositionsAreObservations(obs, g);
      ValuesAreOccurrences(obs, g);
      assert obs[0].at in Values(obs, g);
      EmittedAtOrBefore(obs, j);
      var s :| 0 <= s <= j && |Emitted(obs, s)| == 1 && Accounts(Emitted(obs, s)[0], Values(obs, Glyph(j)));
      ClassifyByGlyph(obs, s);
    } else if Classify(obs) != [] {
      ClassifyOrdered(obs);
      var c := Classify(obs)[0];
      IndexOfCharacterises(c.glyph);
      ClassifyByGlyph(obs, IndexOf(c.glyph));
    }
  }

  /** Glyphs in `[i, j)` that were never recorded contribute nothing: the scene skips them. */
  lemma {:induction false} SceneGap(obs: seq<Observation>, i: nat, j: nat)
    requires i <= j <= Size
    requires forall o <- obs :: !(i <= IndexOf(o.glyph) < j)
    ensures Scene(obs, i) == Scene(obs, j)
    decreases j - i
  {
    if i < j {
      assert Emitted(obs, i) == [] by {
        IndexOfGlyph(i);
        PositionsOfAbsent(obs, Glyph(i));
        AbsentGlyph(obs, i);
      }
      SceneGap(obs, i + 1, j);
    }
  }
}
