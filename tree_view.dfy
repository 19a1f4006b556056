/** `TreeView` of js/main.js: the trunk and the generations of branches that
    `draw` and `branches` put on a tree's canvas. Endpoint coordinates (the
    trigonometry of `get_endpoint`) are left out; each start point keeps its
    bearing in degrees, which the source computes without trigonometry. */
module Views {
  import opened Utilities
  import opened Attributes

  datatype Colour = Brown | Green

  /** One `ctx.stroke()`: its line width, colour and number of line segments. */
  datatype Stroke = Stroke(width: real, colour: Colour, segments: nat)

  /** The length below which a generation is drawn green. */
  const GREEN_BELOW: real := 10.0

  /** The colour of a generation: green once its reduced length is below 10. */
  function ColourFor(length: real): Colour {
    if length < GREEN_BELOW then Green else Brown
  }

  /** `x` multiplied by `r`, `n` times over: `x * r^n`. */
  function Scaled(x: real, r: real, n: nat): real {
    if n == 0 then x else Scaled(x, r, n - 1) * r
  }

  function Pow2(n: nat): nat {
    if n == 0 then 1 else 2 * Pow2(n - 1)
  }

  /** The last `callNum` of a drawing: `branches(k)` schedules `branches(k + 1)`
      while `k < branchings`, so the calls stop at the least natural number
      that is not below `branchings`. */
  function LastCall(branchings: real): (m: nat)
    ensures branchings <= m as real
    ensures m == 0 || (m - 1) as real < branchings
  {
    if branchings <= 0.0 then 0
    else if IsInteger(branchings) then branchings.Floor
    else branchings.Floor + 1
  }

  /** For the integral `branchings` that `randomize` produces, the last call
      is `branchings` itself. */
  lemma LastCallOfInteger(k: nat)
    ensures LastCall(k as real) == k
  {
  }

  /** The start points of the next generation: two per start point, at the
      bearing plus and minus the divergence, in order. */
  function Spread(points: seq<real>, divergence: real): (r: seq<real>)
    ensures |r| == 2 * |points|
  {
    if points == [] then []
    else
      var last := points[|points| - 1];
      Spread(points[..|points| - 1], divergence) + [last + divergence, last - divergence]
  }

  /** The bearings of the start points after `g` generations, from the trunk's 90. */
  function FanOut(divergence: real, g: nat): seq<real> {
    if g == 0 then [90.0] else Spread(FanOut(divergence, g - 1), divergence)
  }

  /** Each generation doubles the start points. */
  lemma {:induction false} FanOutSize(divergence: real, g: nat)
    ensures |FanOut(divergence, g)| == Pow2(g)
  {
    if g > 0 {
      FanOutSize(divergence, g - 1);
    }
  }

  /** Generation `g` (0-based): length and width scaled by
      `reduction^(g+1)`, one segment from each of the `2^g` start points in
      each of two directions. */
  function GenerationStroke(a: Values, g: nat): Stroke {
    Stroke(Scaled(a.lineWidth, a.reduction, g + 1),
           ColourFor(Scaled(a.length, a.reduction, g + 1)),
           Pow2(g + 1))
  }

  function Generations(a: Values, count: nat): (r: seq<Stroke>)
    ensures |r| == count
  {
    if count == 0 then [] else Generations(a, count - 1) + [GenerationStroke(a, count - 1)]
  }

  function Trunk(a: Values): Stroke {
    Stroke(a.lineWidth, Brown, 1)
  }

  /** Everything one `draw(attributes)` leaves on the canvas, in order. */
  function Rendering(a: Values): seq<Stroke> {
    [Trunk(a)] + Generations(a, LastCall(a.branchings) + 1)
  }

  function SegmentTotal(strokes: seq<Stroke>): nat {
    if strokes == [] then 0 else SegmentTotal(strokes[..|strokes| - 1]) + strokes[|strokes| - 1].segments
  }

  lemma {:induction false} GenerationSegments(a: Values, count: nat)
    ensures SegmentTotal(Generations(a, count)) == Pow2(count + 1) - 2
  {
    if count > 0 {
      GenerationSegments(a, count - 1);
      var gs := Generations(a, count);
      assert gs[..count - 1] == Generations(a, count - 1);
    }
  }

  lemma {:induction false} SegmentTotalPrepend(s: Stroke, rest: seq<Stroke>)
    ensures SegmentTotal([s] + rest) == s.segments + SegmentTotal(rest)
    decreases |rest|
  {
    if rest == [] {
      assert [s] + rest == [s];
      assert [s][..0] == [];
    } else {
      var front := rest[..|rest| - 1];
      SegmentTotalPrepend(s, front);
      assert ([s] + rest)[..|rest|] == [s] + front;
    }
  }

  /** A drawing with `branchings = k` (integral) strokes the trunk and then
      `2 + 4 + ... + 2^(k+1)` branch segments: `2^(k+2) - 1` in all. */
  lemma {:induction false} RenderingSegmentCount(a: Values)
    ensures |Rendering(a)| == LastCall(a.branchings) + 2
    ensures SegmentTotal(Rendering(a)) == Pow2(LastCall(a.branchings) + 2) - 1
  {
    var count := LastCall(a.branchings) + 1;
    GenerationSegments(a, count);
    SegmentTotalPrepend(Trunk(a), Generations(a, count));
  }

  /** With `branchings` 0 the trunk is not drawn alone: `branches()` always
      runs once, so one generation of two segments follows it. */
  lemma ZeroBranchingsDrawsOneGeneration(a: Values)
    requires a.branchings == 0.0
    ensures |Rendering(a)| == 2 && Rendering(a)[1].segments == 2
  {
  }

  lemma {:induction false} ScaledNonNegative(x: real, r: real, n: nat)
    requires 0.0 <= x && 0.0 < r
    ensures Scaled(x, r, n) >= 0.0
  {
    if n > 0 {
      ScaledNonNegative(x, r, n - 1);
      var p := Scaled(x, r, n - 1);
      assert p * r >= 0.0;
    }
  }

  /** With a `reduction` in (0, 1] every generation is no longer than the one before. */
  lemma ScaledShrinks(x: real, r: real, n: nat)
    requires 0.0 <= x && 0.0 < r <= 1.0
    ensures Scaled(x, r, n + 1) <= Scaled(x, r, n)
  {
    ScaledNonNegative(x, r, n);
    var p := Scaled(x, r, n);
    assert p * (1.0 - r) >= 0.0;
  }

  lemma GreenNext(a: Values, g: nat)
    requires 0.0 < a.reduction <= 1.0 && 0.0 <= a.length
    requires GenerationStroke(a, g).colour == Green
    ensures GenerationStroke(a, g + 1).colour == Green
  {
    ScaledShrinks(a.length, a.reduction, g + 1);
  }

  /** With `reduction` in (0, 1], as the table keeps it, lengths shrink, so
      once a generation turns green every later one is green too. */
  lemma {:induction false} GreenStaysGreen(a: Values, g: nat, h: nat)
    requires 0.0 < a.reduction <= 1.0 && 0.0 <= a.length
    requires g <= h
    requires GenerationStroke(a, g).colour == Green
    ensures GenerationStroke(a, h).colour == Green
    decreases h - g
  {
    if g < h {
      GreenNext(a, g);
      GreenStaysGreen(a, g + 1, h);
    }
  }

  /** The view's drawing state once `k` generations of branches are drawn. */
  predicate DrawnThrough(a: Values, k: nat, length: real, lineWidth: real,
                         startPoints: seq<real>, canvas: seq<Stroke>)
  {
    && length == Scaled(a.length, a.reduction, k)
    && lineWidth == Scaled(a.lineWidth, a.reduction, k)
    && startPoints == FanOut(a.divergence, k)
    && canvas == [Trunk(a)] + Generations(a, k)
  }

  /** One `branches` call, from the state after `k` generations, draws
      generation `k`. */
  lemma BranchStep(a: Values, k: nat, length: real, lineWidth: real, startPoints: seq<real>, canvas: seq<Stroke>,
                   length': real, lineWidth': real, startPoints': seq<real>, canvas': seq<Stroke>)
    requires DrawnThrough(a, k, length, lineWidth, startPoints, canvas)
    requires length' == length * a.reduction && lineWidth' == lineWidth * a.reduction
    requires startPoints' == Spread(startPoints, a.divergence)
    requires canvas' == canvas + [Stroke(lineWidth', ColourFor(length'), 2 * |startPoints|)]
    ensures DrawnThrough(a, k + 1, length', lineWidth', startPoints', canvas')
  {
    FanOutSize(a.divergence, k);
    assert canvas' == canvas + [GenerationStroke(a, k)];
    assert canvas' == [Trunk(a)] + (Generations(a, k) + [GenerationStroke(a, k)]);
  }

  class TreeView {
    // The closure variables of `TreeView`.
    var length: real
    var divergence: real
    var reduction: real
    var lineWidth: real
    var branchings: real
    /** `start_points`, by bearing. */
    var startPoints: seq<real>
    /** What the canvas shows: the strokes since the last `clearRect`. */
    var canvas: seq<Stroke>
    /** Whether the canvas carries the CSS class "root". */
    var isRoot: bool

    constructor ()
      ensures canvas == [] && startPoints == [] && !isRoot
    {
      length, divergence, reduction, lineWidth, branchings := 0.0, 0.0, 0.0, 0.0, 0.0;
      startPoints := [];
      canvas := [];
      isRoot := false;
    }

    /** `draw(attributes)`: clear, stroke the trunk, then run `branches` for
        `callNum = 0, 1, ...` while `callNum < branchings`. The 50 ms
        `setTimeout` between generations is run synchronously. */
    method Draw(attributes: Values)
      modifies this
      ensures canvas == Rendering(attributes)
      ensures startPoints == FanOut(attributes.divergence, LastCall(attributes.branchings) + 1)
      ensures length == Scaled(attributes.length, attributes.reduction, LastCall(attributes.branchings) + 1)
      ensures lineWidth == Scaled(attributes.lineWidth, attributes.reduction, LastCall(attributes.branchings) + 1)
      ensures divergence == attributes.divergence && reduction == attributes.reduction
      ensures branchings == attributes.branchings && isRoot == old(isRoot)
    {
      canvas := [];
      length := attributes.length;
      divergence := attributes.divergence;
      reduction := attributes.reduction;
      lineWidth := attributes.lineWidth;
      branchings := attributes.branchings;
      // `branchings ? branchings < 0 : 0;` computes a value and discards it.
      startPoints := [90.0];
      canvas := canvas + [Stroke(lineWidth, Brown, 1)];
      var callNum: nat := 0;
      assert DrawnThrough(attributes, 0, length, lineWidth, startPoints, canvas);
      ghost var l0, w0, p0, c0 := length, lineWidth, startPoints, canvas;
      Branches();
      BranchStep(attributes, 0, l0, w0, p0, c0, length, lineWidth, startPoints, canvas);
      while callNum as real < branchings
        invariant callNum <= LastCall(branchings)
        invariant divergence == attributes.divergence && reduction == attributes.reduction
        invariant branchings == attributes.branchings && isRoot == old(isRoot)
        invariant DrawnThrough(attributes, callNum + 1, length, lineWidth, startPoints, canvas)
        decreases LastCall(branchings) - callNum
      {
        callNum := callNum + 1;
        l0, w0, p0, c0 := length, lineWidth, startPoints, canvas;
        Branches();
        BranchStep(attributes, callNum, l0, w0, p0, c0, length, lineWidth, startPoints, canvas);
      }
    }

    /** `branches(callNum)`: scale length and width by `reduction`, stroke two
        segments from every start point, and make their ends the new start
        points. */
    method Branches()
      modifies this
      ensures length == old(length) * old(reduction) && lineWidth == old(lineWidth) * old(reduction)
      ensures startPoints == Spread(old(startPoints), divergence)
      ensures canvas == old(canvas) + [Stroke(lineWidth, ColourFor(length), 2 * |old(startPoints)|)]
      ensures divergence == old(divergence) && reduction == old(reduction)
      ensures branchings == old(branchings) && isRoot == old(isRoot)
    {
      length := length * reduction;
      lineWidth := lineWidth * reduction;
      var newStartPoints: seq<real> := [];
      for i := 0 to |startPoints|
        invariant newStartPoints == Spread(startPoints[..i], divergence)
      {
        assert startPoints[..i + 1][..i] == startPoints[..i];
        var sp := startPoints[i];
        newStartPoints := newStartPoints + [sp + divergence, sp - divergence];
      }
      assert startPoints[..|startPoints|] == startPoints;
      var colour := if length < GREEN_BELOW then Green else Brown;
      canvas := canvas + [Stroke(lineWidth, colour, 2 * |startPoints|)];
      startPoints := newStartPoints;
    }

    /** `setRoot()`. */
    method SetRoot()
      modifies this`isRoot
      ensures isRoot
    {
      isRoot := true;
    }

    /** `unsetRoot()`. */
    method UnsetRoot()
      modifies this`isRoot
      ensures !isRoot
    {
      isRoot := false;
    }
  }
}
