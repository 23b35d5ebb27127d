/**
 * The numbers the protvista track computes for drawing: the arguments it
 * hands to the (opaque) shape generator, the translation of each fragment,
 * the highlight rectangle, and the payloads of its hover events. The
 * coordinate mapper `xScale` belongs to the zoom controller and is an
 * arbitrary function here.
 */
module TrackGeometry {
  import opened JsValues
  import opened TrackFeatures
  import opened TrackFragments

  /** The zoom controller's coordinate-to-pixel mapping. */
  type Scale = int -> real

  /** What the layout object answers once `init(data)` has run; its packing is not modelled. */
  datatype LayoutView = LayoutView(featureYPos: Owner -> real, featureHeight: FragmentRecord -> real)

  /** `margin.top`. */
  const MarginTop: real := 10.0

  /** The opacity of a visible highlight. */
  const HighlightOpacity: real := 0.3

  /** `xScale(2) - xScale(1)`: the pixel width of one coordinate unit. */
  function UnitWidth(xScale: Scale): real
  {
    xScale(2) - xScale(1)
  }

  /**
   * `f.end ? f.end - f.start + 1 : 1`. The result is `None` where JavaScript
   * would compute NaN (a truthy `end` with no `start`).
   */
  function ShapeLength(start: Option<int>, end: Option<int>): (r: Option<int>)
    ensures !NumberTruthy(end) ==> r == Some(1)
    ensures NumberTruthy(end) ==> (r.Some? <==> start.Some?)
    ensures NumberTruthy(end) && start.Some? ==> r.value + start.value == end.value + 1
  {
    if NumberTruthy(end) then (if start.Some? then Some(end.value - start.value + 1) else None)
    else Some(1)
  }

  /** A fragment with start <= end has positive length; one without `end` has length 1. */
  lemma ShapeLengthPositive(start: int, end: Option<int>)
    requires end.Some? ==> start <= end.value
    ensures ShapeLength(Some(start), end).Some? && ShapeLength(Some(start), end).value >= 1
  {
  }

  /**
   * A single-point fragment `{start: s}` is drawn with the same length as
   * `{start: s, end: s}`. An `end` of 0 is falsy and also yields length 1,
   * whatever the start.
   */
  lemma ShapeLengthSinglePoint(s: int, t: int)
    ensures ShapeLength(Some(s), None) == ShapeLength(Some(s), Some(s)) == Some(1)
    ensures ShapeLength(Some(t), Some(0)) == Some(1)
  {
  }

  /**
   * Fragments are not validated: a fragment whose (non-zero) end lies
   * before its start reaches the shape generator with a length of 0 or less.
   */
  lemma ShapeLengthOfReversedFragment(start: int, end: int)
    requires end < start && end != 0
    ensures ShapeLength(Some(start), Some(end)).Some? && ShapeLength(Some(start), Some(end)).value <= 0
  {
  }

  /** The arguments of `getFeatureShape(unitWidth, height, length, shape)`. */
  datatype ShapeRequest = ShapeRequest(unitWidth: real, height: real, length: Option<int>, shape: string)

  /**
   * A drawn fragment: its shape request (`d`) and its `translate(x, y)`;
   * `x` is `None` where `xScale` would be applied to an absent start.
   */
  datatype Placement = Placement(path: ShapeRequest, x: Option<real>, y: real)

  /** The `d` and `transform` attributes of one fragment's path. */
  function Place(r: FragmentRecord, xScale: Scale, view: LayoutView, shape: string): (p: Placement)
    ensures p.path.unitWidth == UnitWidth(xScale)
    ensures p.path.height == view.featureHeight(r) && p.path.shape == shape
    ensures p.path.length == ShapeLength(r.start, r.end)
    ensures p.x.Some? <==> r.start.Some?
    ensures r.start.Some? ==> p.x.value == xScale(r.start.value)
    ensures p.y == MarginTop + view.featureYPos(r.feature)
  {
    Placement(ShapeRequest(UnitWidth(xScale), view.featureHeight(r), ShapeLength(r.start, r.end), shape),
              if r.start.Some? then Some(xScale(r.start.value)) else None,
              MarginTop + view.featureYPos(r.feature))
  }

  /** A mapper `x -> k * x + b`. */
  ghost predicate Linear(xScale: Scale, k: real, b: real)
  {
    forall x :: xScale(x) == k * x as real + b
  }

  ghost predicate Monotone(xScale: Scale)
  {
    forall x, y :: x <= y ==> xScale(x) <= xScale(y)
  }

  /** For a linear mapper the unit width is exactly its slope. */
  lemma UnitWidthOfLinear(xScale: Scale, k: real, b: real)
    requires Linear(xScale, k, b)
    ensures UnitWidth(xScale) == k
  {
    assert xScale(2) == k * 2.0 + b;
    assert xScale(1) == k * 1.0 + b;
  }

  /** The state of the highlight rectangle after `_updateHighlight`. */
  datatype HighlightRegion = Visible(x: real, width: real) | Hidden

  /**
   * `_updateHighlight()`: visible exactly when both bounds are integers
   * (`Number.isInteger`; an unparsable attribute is `None`).
   */
  function Highlight(highlightStart: Option<int>, highlightEnd: Option<int>, xScale: Scale): (h: HighlightRegion)
    ensures h.Visible? <==> highlightStart.Some? && highlightEnd.Some?
    ensures h.Visible? ==> h.x == xScale(highlightStart.value)
    ensures h.Visible? ==> h.width == xScale(highlightEnd.value - highlightStart.value + 1) - xScale(0)
  {
    if highlightStart.Some? && highlightEnd.Some?
    then Visible(xScale(highlightStart.value), xScale(highlightEnd.value - highlightStart.value + 1) - xScale(0))
    else Hidden
  }

  /** Under a monotone mapper a well-ordered interval never gets a negative width. */
  lemma HighlightWidthNonNegative(s: int, e: int, xScale: Scale)
    requires Monotone(xScale)
    requires s <= e
    ensures Highlight(Some(s), Some(e), xScale).width >= 0.0
  {
    assert xScale(0) <= xScale(e - s + 1);
  }

  /**
   * The visibility test does not look at the order of the bounds: a reversed
   * interval is still shown, and under a monotone mapper its width is at most 0.
   */
  lemma HighlightReversedIsShown(s: int, e: int, xScale: Scale)
    requires Monotone(xScale)
    requires e < s
    ensures Highlight(Some(s), Some(e), xScale).Visible?
    ensures Highlight(Some(s), Some(e), xScale).width <= 0.0
  {
    assert xScale(e - s + 1) <= xScale(0);
  }

  /**
   * Under a linear mapper the highlight spans `end - start + 1` units from
   * `xScale(start)`, the same span a fragment with these bounds is drawn over.
   */
  lemma HighlightOfLinear(s: int, e: int, xScale: Scale, k: real, b: real)
    requires Linear(xScale, k, b)
    ensures Highlight(Some(s), Some(e), xScale) == Visible(k * s as real + b, k * (e - s + 1) as real)
  {
    assert xScale(e - s + 1) == k * (e - s + 1) as real + b;
    assert xScale(0) == k * 0 as real + b;
  }

  /**
   * The `detail` of the `change` events the track dispatches. Listeners
   * receive the bounds as they are, so `undefined` and `null` stay apart.
   */
  datatype ChangeDetail = ChangeDetail(highlightStart: Nullable<int>, highlightEnd: Nullable<int>)

  /**
   * `mouseover` on a fragment's path: `{highlightend: f.end, highlightstart: f.start}`.
   * A bound the fragment lacks is `undefined`: the fragment record keeps the key.
   */
  function MouseOverDetail(r: FragmentRecord): (d: ChangeDetail)
    ensures d.highlightStart.Present? <==> r.start.Some?
    ensures d.highlightEnd.Present? <==> r.end.Some?
    ensures r.start.Some? ==> d.highlightStart.value == r.start.value
    ensures r.end.Some? ==> d.highlightEnd.value == r.end.value
    ensures !d.highlightStart.Null? && !d.highlightEnd.Null?
  {
    ChangeDetail(AsProperty(r.start), AsProperty(r.end))
  }

  /** `mouseout`: both bounds `null`. */
  function MouseOutDetail(): (d: ChangeDetail)
    ensures d.highlightStart.Null? && d.highlightEnd.Null?
  {
    ChangeDetail(Null, Null)
  }

  /** The highlight of a track that takes a payload's bounds as its own (`Number.isInteger` on each). */
  function HighlightOfDetail(d: ChangeDetail, xScale: Scale): (h: HighlightRegion)
    ensures h.Visible? <==> d.highlightStart.Present? && d.highlightEnd.Present?
  {
    Highlight(IntegerOf(d.highlightStart), IntegerOf(d.highlightEnd), xScale)
  }

  /**
   * A track that takes a hover payload as its highlight bounds highlights the
   * span the hovered fragment is drawn over (same left edge; for a linear
   * mapper, width = unit width times shape length); the `mouseout` payload
   * hides the highlight.
   */
  lemma HoverHighlightsFragment(r: FragmentRecord, xScale: Scale, view: LayoutView, shape: string, k: real, b: real)
    requires r.start.Some? && NumberTruthy(r.end)
    requires Linear(xScale, k, b)
    ensures var h := HighlightOfDetail(MouseOverDetail(r), xScale);
      var p := Place(r, xScale, view, shape);
      h.Visible? && Some(h.x) == p.x && h.width == p.path.unitWidth * p.path.length.value as real
    ensures HighlightOfDetail(MouseOutDetail(), xScale) == Hidden
  {
    HighlightOfLinear(r.start.value, r.end.value, xScale, k, b);
    UnitWidthOfLinear(xScale, k, b);
  }

  /**
   * A fragment without `end` is drawn with length 1, but its hover payload
   * carries an undefined end, so a track taking that payload hides its highlight.
   */
  lemma HoverSinglePointHidesHighlight(r: FragmentRecord, xScale: Scale)
    requires r.end.None?
    ensures ShapeLength(r.start, r.end) == Some(1)
    ensures HighlightOfDetail(MouseOverDetail(r), xScale) == Hidden
  {
  }
}
