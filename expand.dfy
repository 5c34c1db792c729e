/** utils/expand.py: how far the shape at `idx` can grow in each direction before it meets
    a neighbour (less the larger of the two margins) or the edge of the canvas. */
module Expand {
  import opened Wrappers

  /** A shape dict; `margin` in whole inches, absent when the key is missing. */
  datatype Shape = Shape(left: int, top: int, width: int, height: int, margin: Option<int>)

  datatype Direction = Left | Right | Above | Below

  /** The four keys of `coordinatify` the directions use. */
  datatype Side = LeftSide | RightSide | TopSide | BottomSide

  /** `min([])` on no shapes, `pop(idx)` on an index outside the list. */
  datatype ExpandError = EmptyShapes | IndexOutOfRange

  const Directions: seq<Direction> := [Left, Right, Above, Below]

  const EmuPerInch := 914400

  /** `coordinatify(shape)[side]` */
  function EdgeOf(s: Shape, side: Side): int {
    match side
    case LeftSide => s.left
    case RightSide => s.left + s.width
    case TopSide => s.top
    case BottomSide => s.top + s.height
  }

  /** `dir[d][0]`, the subject's edge that moves. */
  function SubjectSide(d: Direction): Side {
    match d
    case Left => LeftSide
    case Right => RightSide
    case Above => TopSide
    case Below => BottomSide
  }

  /** `dir[d][1]`, the neighbour's edge it moves towards. */
  function NeighbourSide(d: Direction): Side {
    match d
    case Left => RightSide
    case Right => LeftSide
    case Above => BottomSide
    case Below => TopSide
  }

  function Max(a: int, b: int): int { if a >= b then a else b }
  function Min(a: int, b: int): int { if a <= b then a else b }
  function Abs(x: int): int { if x < 0 then -x else x }

  /** `are_related(foo, bar, d)`: `bar` lies entirely on side `d` of `foo` and their extents
      across that direction overlap; touching edges count. */
  predicate AreRelated(foo: Shape, bar: Shape, d: Direction) {
    match d
    case Left =>
      bar.left + bar.width <= foo.left
      && Max(foo.top, bar.top) <= Min(foo.top + foo.height, bar.top + bar.height)
    case Right =>
      bar.left >= foo.left + foo.width
      && Max(foo.top, bar.top) <= Min(foo.top + foo.height, bar.top + bar.height)
    case Above =>
      bar.top + bar.height <= foo.top
      && Max(foo.left, bar.left) <= Min(foo.left + foo.width, bar.left + bar.width)
    case Below =>
      bar.top >= foo.top + foo.height
      && Max(foo.left, bar.left) <= Min(foo.left + foo.width, bar.left + bar.width)
  }

  function Opposite(d: Direction): Direction {
    match d
    case Left => Right
    case Right => Left
    case Above => Below
    case Below => Above
  }

  /** Being a neighbour is mutual: `bar` is on `foo`'s left exactly when `foo` is on
      `bar`'s right (likewise above and below). */
  lemma RelatedMutual(foo: Shape, bar: Shape, d: Direction)
    ensures AreRelated(foo, bar, d) <==> AreRelated(bar, foo, Opposite(d))
  {
  }

  function MinOf(xs: seq<int>): (m: int)
    requires xs != []
    ensures forall i :: 0 <= i < |xs| ==> m <= xs[i]
  {
    if |xs| == 1 then xs[0]
    else
      var rest := MinOf(xs[1..]);
      assert forall i :: 1 <= i < |xs| ==> xs[i] == xs[1..][i - 1];
      if xs[0] <= rest then xs[0] else rest
  }

  /** An index where the minimum is attained. */
  lemma {:induction false} MinOfAttained(xs: seq<int>) returns (i: nat)
    requires xs != []
    ensures i < |xs| && xs[i] == MinOf(xs)
  {
    if |xs| == 1 {
      i := 0;
    } else if xs[0] <= MinOf(xs[1..]) {
      i := 0;
    } else {
      var j := MinOfAttained(xs[1..]);
      i := j + 1;
    }
  }

  function MaxOf(xs: seq<int>): (m: int)
    requires xs != []
    ensures forall i :: 0 <= i < |xs| ==> xs[i] <= m
  {
    if |xs| == 1 then xs[0]
    else
      var rest := MaxOf(xs[1..]);
      assert forall i :: 1 <= i < |xs| ==> xs[i] == xs[1..][i - 1];
      if xs[0] >= rest then xs[0] else rest
  }

  /** An index where the maximum is attained. */
  lemma {:induction false} MaxOfAttained(xs: seq<int>) returns (i: nat)
    requires xs != []
    ensures i < |xs| && xs[i] == MaxOf(xs)
  {
    if |xs| == 1 {
      i := 0;
    } else if xs[0] >= MaxOf(xs[1..]) {
      i := 0;
    } else {
      var j := MaxOfAttained(xs[1..]);
      i := j + 1;
    }
  }

  function Edges(shapes: seq<Shape>, side: Side): (es: seq<int>)
    ensures |es| == |shapes|
    ensures forall i :: 0 <= i < |shapes| ==> es[i] == EdgeOf(shapes[i], side)
  {
    if shapes == [] then [] else [EdgeOf(shapes[0], side)] + Edges(shapes[1..], side)
  }

  /** `find_canvas(shapes)`: the bounding box of all the shapes. */
  function Canvas(shapes: seq<Shape>): Shape
    requires shapes != []
  {
    var top := MinOf(Edges(shapes, TopSide));
    var left := MinOf(Edges(shapes, LeftSide));
    Shape(left, top, MaxOf(Edges(shapes, RightSide)) - left, MaxOf(Edges(shapes, BottomSide)) - top, None)
  }

  /** The canvas contains every shape. */
  lemma CanvasContains(shapes: seq<Shape>, i: nat)
    requires i < |shapes|
    ensures var c := Canvas(shapes);
      && c.left <= shapes[i].left && c.top <= shapes[i].top
      && EdgeOf(shapes[i], RightSide) <= EdgeOf(c, RightSide)
      && EdgeOf(shapes[i], BottomSide) <= EdgeOf(c, BottomSide)
  {
    assert Edges(shapes, LeftSide)[i] == shapes[i].left;
    assert Edges(shapes, TopSide)[i] == shapes[i].top;
    assert Edges(shapes, RightSide)[i] == EdgeOf(shapes[i], RightSide);
    assert Edges(shapes, BottomSide)[i] == EdgeOf(shapes[i], BottomSide);
  }

  /** Each edge of the canvas is the same edge of some shape: it is the smallest box. */
  lemma CanvasIsTight(shapes: seq<Shape>, side: Side) returns (i: nat)
    requires shapes != []
    ensures i < |shapes| && EdgeOf(shapes[i], side) == EdgeOf(Canvas(shapes), side)
  {
    var es := Edges(shapes, side);
    if side == LeftSide || side == TopSide {
      i := MinOfAttained(es);
    } else {
      i := MaxOfAttained(es);
    }
  }

  /** `greater_margin(foo, bar)`: the larger margin in EMU, a missing margin counting as 0. */
  function GreaterMargin(foo: Shape, bar: Shape): int {
    var f := foo.margin.GetOr(0);
    var b := bar.margin.GetOr(0);
    if f > b then f * EmuPerInch else b * EmuPerInch
  }

  lemma GreaterMarginSymmetric(foo: Shape, bar: Shape)
    ensures GreaterMargin(foo, bar) == GreaterMargin(bar, foo)
    ensures GreaterMargin(foo, bar) >= foo.margin.GetOr(0) * EmuPerInch
    ensures GreaterMargin(foo, bar) >= bar.margin.GetOr(0) * EmuPerInch
  {
  }

  /** `related`: the neighbours on side `d`, in order. */
  function Related(foo: Shape, bars: seq<Shape>, d: Direction): (rs: seq<Shape>)
    ensures forall s :: s in rs <==> s in bars && AreRelated(foo, s, d)
    ensures |rs| <= |bars|
  {
    if bars == [] then []
    else (if AreRelated(foo, bars[0], d) then [bars[0]] else []) + Related(foo, bars[1..], d)
  }

  /** The neighbours keep the order of the shapes: the filter distributes over
      concatenation, so a shape before another in `bars` stays before it. */
  lemma {:induction false} RelatedAppend(foo: Shape, a: seq<Shape>, b: seq<Shape>, d: Direction)
    ensures Related(foo, a + b, d) == Related(foo, a, d) + Related(foo, b, d)
    ensures Related(foo, [], d) == []
    ensures forall s :: Related(foo, [s], d) == (if AreRelated(foo, s, d) then [s] else [])
    decreases |a|
  {
    hide *;
    RelatedCons(foo, a, d);
    if a == [] {
      assert a + b == b;
    } else {
      assert a + b == [a[0]] + (a[1..] + b) && a == [a[0]] + a[1..];
      RelatedCons(foo, a + b, d);
      assert (a + b)[1..] == a[1..] + b;
      RelatedAppend(foo, a[1..], b, d);
    }
    forall s ensures Related(foo, [s], d) == (if AreRelated(foo, s, d) then [s] else []) {
      RelatedCons(foo, [s], d);
      RelatedCons(foo, [], d);
      assert [s][1..] == [];
    }
  }

  /** One step of the filter. */
  lemma RelatedCons(foo: Shape, bars: seq<Shape>, d: Direction)
    ensures bars == [] ==> Related(foo, bars, d) == []
    ensures bars != [] ==>
      Related(foo, bars, d) == (if AreRelated(foo, bars[0], d) then [bars[0]] else []) + Related(foo, bars[1..], d)
  {
    hide AreRelated;
  }

  /** The distance to a neighbour less the larger margin. */
  function Clearance(foo: Shape, bar: Shape, d: Direction): int {
    Abs(EdgeOf(foo, SubjectSide(d)) - EdgeOf(bar, NeighbourSide(d))) - GreaterMargin(foo, bar)
  }

  function Clearances(foo: Shape, rs: seq<Shape>, d: Direction): (cs: seq<int>)
    ensures |cs| == |rs|
    ensures forall i :: 0 <= i < |rs| ==> cs[i] == Clearance(foo, rs[i], d)
  {
    if rs == [] then [] else [Clearance(foo, rs[0], d)] + Clearances(foo, rs[1..], d)
  }

  /** The delta of one direction: the smallest clearance over the neighbours when there is
      one, otherwise the distance from the subject's edge to the canvas's same edge. */
  function Delta(foo: Shape, bars: seq<Shape>, canvas: Shape, d: Direction): int {
    var rs := Related(foo, bars, d);
    if rs != [] then MinOf(Clearances(foo, rs, d))
    else Abs(EdgeOf(foo, SubjectSide(d)) - EdgeOf(canvas, SubjectSide(d)))
  }

  /** Python's `pop(idx)` position: a negative index counts from the end. */
  predicate ValidIndex(n: nat, idx: int) { -(n as int) <= idx < n }

  function Position(n: nat, idx: int): (k: nat)
    requires ValidIndex(n, idx)
    ensures k < n
  {
    if idx < 0 then idx + n else idx
  }

  /** `expand(shapes, idx, p)`; `p` is unused. */
  function ExpandSpec(shapes: seq<Shape>, idx: int): Result<map<Direction, int>, ExpandError> {
    if shapes == [] then Failure(EmptyShapes)
    else if !ValidIndex(|shapes|, idx) then Failure(IndexOutOfRange)
    else
      var k := Position(|shapes|, idx);
      var foo := shapes[k];
      var bars := shapes[..k] + shapes[k + 1..];
      var canvas := Canvas(shapes);
      Success(map[Left := Delta(foo, bars, canvas, Left), Right := Delta(foo, bars, canvas, Right),
                  Above := Delta(foo, bars, canvas, Above), Below := Delta(foo, bars, canvas, Below)])
  }

  /** The loop over `dir['d']`, updating the deltas dict in place. */
  method Expand(shapes: seq<Shape>, idx: int) returns (r: Result<map<Direction, int>, ExpandError>)
    ensures r == ExpandSpec(shapes, idx)
  {
    ExpandSpecCases(shapes, idx);
    hide Delta, ExpandSpec, Canvas, Related, Clearances, MinOf, EdgeOf;
    if shapes == [] {
      return Failure(EmptyShapes);
    }
    var canvas := Canvas(shapes);
    if !(-|shapes| <= idx < |shapes|) {
      return Failure(IndexOutOfRange);
    }
    var k := if idx < 0 then idx + |shapes| else idx;
    var foo := shapes[k];
    var bars := shapes[..k] + shapes[k + 1..];
    var deltas := map[Left := 0, Right := 0, Above := 0, Below := 0];
    for i := 0 to |Directions|
      invariant deltas.Keys == {Left, Right, Above, Below}
      invariant forall j :: 0 <= j < i ==> deltas[Directions[j]] == Delta(foo, bars, canvas, Directions[j])
    {
      var d := Directions[i];
      DeltaCases(foo, bars, canvas, d);
      var related := Related(foo, bars, d);
      if related != [] {
        deltas := deltas[d := MinOf(Clearances(foo, related, d))];
      } else {
        deltas := deltas[d := Abs(EdgeOf(foo, SubjectSide(d)) - EdgeOf(canvas, SubjectSide(d)))];
      }
    }
    assert deltas[Left] == Delta(foo, bars, canvas, Directions[0]);
    assert deltas[Right] == Delta(foo, bars, canvas, Directions[1]);
    assert deltas[Above] == Delta(foo, bars, canvas, Directions[2]);
    assert deltas[Below] == Delta(foo, bars, canvas, Directions[3]);
    assert deltas == map[Left := Delta(foo, bars, canvas, Left), Right := Delta(foo, bars, canvas, Right),
                         Above := Delta(foo, bars, canvas, Above), Below := Delta(foo, bars, canvas, Below)];
    return Success(deltas);
  }

  /** The three outcomes of `ExpandSpec`, with the deltas of the subject at `Position`. */
  lemma ExpandSpecCases(shapes: seq<Shape>, idx: int)
    ensures shapes == [] ==> ExpandSpec(shapes, idx) == Failure(EmptyShapes)
    ensures shapes != [] && !ValidIndex(|shapes|, idx) ==> ExpandSpec(shapes, idx) == Failure(IndexOutOfRange)
    ensures shapes != [] && ValidIndex(|shapes|, idx) ==>
      var k := Position(|shapes|, idx);
      var foo := shapes[k];
      var bars := shapes[..k] + shapes[k + 1..];
      var canvas := Canvas(shapes);
      ExpandSpec(shapes, idx) ==
        Success(map[Left := Delta(foo, bars, canvas, Left), Right := Delta(foo, bars, canvas, Right),
                    Above := Delta(foo, bars, canvas, Above), Below := Delta(foo, bars, canvas, Below)])
  {
    hide Delta, Canvas;
  }

  /** The two ways `Delta` is found: from the neighbours, or from the canvas. */
  lemma DeltaCases(foo: Shape, bars: seq<Shape>, canvas: Shape, d: Direction)
    ensures Related(foo, bars, d) != [] ==> Delta(foo, bars, canvas, d) == MinOf(Clearances(foo, Related(foo, bars, d), d))
    ensures Related(foo, bars, d) == [] ==>
      Delta(foo, bars, canvas, d) == Abs(EdgeOf(foo, SubjectSide(d)) - EdgeOf(canvas, SubjectSide(d)))
  {
    hide Related, MinOf, Clearances, EdgeOf;
  }

  // ---------------------------------------------------------------------------

  /** The neighbours are the other shapes: the subject is left out and nothing else is. */
  lemma NeighboursAreTheOthers(shapes: seq<Shape>, idx: int)
    requires ValidIndex(|shapes|, idx)
    ensures var k := Position(|shapes|, idx); var bars := shapes[..k] + shapes[k + 1..];
      |bars| == |shapes| - 1 && multiset(bars) + multiset{shapes[k]} == multiset(shapes)
  {
    var k := Position(|shapes|, idx);
    assert shapes == shapes[..k] + [shapes[k]] + shapes[k + 1..];
  }

  /** Without a neighbour on side `d` the delta is how far the subject's edge is from the
      canvas's same edge, which is never negative. */
  lemma NoNeighbourReachesCanvas(shapes: seq<Shape>, idx: int, d: Direction)
    requires shapes != [] && ValidIndex(|shapes|, idx)
    requires var k := Position(|shapes|, idx);
      Related(shapes[k], shapes[..k] + shapes[k + 1..], d) == []
    ensures var k := Position(|shapes|, idx); var c := Canvas(shapes);
      && ExpandSpec(shapes, idx).value[d] >= 0
      && (d == Left ==> ExpandSpec(shapes, idx).value[d] == shapes[k].left - c.left)
      && (d == Above ==> ExpandSpec(shapes, idx).value[d] == shapes[k].top - c.top)
      && (d == Right ==> ExpandSpec(shapes, idx).value[d] == EdgeOf(c, RightSide) - EdgeOf(shapes[k], RightSide))
      && (d == Below ==> ExpandSpec(shapes, idx).value[d] == EdgeOf(c, BottomSide) - EdgeOf(shapes[k], BottomSide))
  {
    hide Canvas, Related, ExpandSpec, Delta, MinOf, Clearances, Edges, MaxOf;
    var k := Position(|shapes|, idx);
    CanvasContains(shapes, k);
    ExpandSpecCases(shapes, idx);
    DeltaCases(shapes[k], shapes[..k] + shapes[k + 1..], Canvas(shapes), d);
  }

  /** A neighbour bounds the delta of its direction: it is at most that neighbour's
      clearance, and (with non-negative margins) at most its plain distance. */
  lemma DeltaAtMostClearance(foo: Shape, bars: seq<Shape>, canvas: Shape, d: Direction, bar: Shape)
    requires bar in bars && AreRelated(foo, bar, d)
    ensures Delta(foo, bars, canvas, d) <= Clearance(foo, bar, d)
    ensures foo.margin.GetOr(0) >= 0 && bar.margin.GetOr(0) >= 0 ==>
      Delta(foo, bars, canvas, d) <= Abs(EdgeOf(foo, SubjectSide(d)) - EdgeOf(bar, NeighbourSide(d)))
  {
    var rs := Related(foo, bars, d);
    assert bar in rs;
    var i :| 0 <= i < |rs| && rs[i] == bar;
    assert Clearances(foo, rs, d)[i] == Clearance(foo, bar, d);
    GreaterMarginSymmetric(foo, bar);
  }

  /** With a neighbour in direction `d`, the delta is the clearance of one of them: the
      nearest one wins. It may be negative (no clamping). */
  lemma DeltaAttained(foo: Shape, bars: seq<Shape>, canvas: Shape, d: Direction) returns (bar: Shape)
    requires Related(foo, bars, d) != []
    ensures bar in bars && AreRelated(foo, bar, d) && Delta(foo, bars, canvas, d) == Clearance(foo, bar, d)
  {
    var rs := Related(foo, bars, d);
    var i := MinOfAttained(Clearances(foo, rs, d));
    bar := rs[i];
  }

  /** The result has exactly the four direction keys. */
  lemma FourKeys(shapes: seq<Shape>, idx: int)
    requires ExpandSpec(shapes, idx).Success?
    ensures ExpandSpec(shapes, idx).value.Keys == {Left, Right, Above, Below}
  {
  }

  /** Touching edges count: a shape that ends exactly where the subject starts, on a row
      that shares only its bottom edge with the subject's top, is a left neighbour. */
  lemma TouchingCounts()
    ensures AreRelated(Shape(10, 10, 5, 5, None), Shape(0, 0, 10, 10, None), Left)
  {
  }
}
