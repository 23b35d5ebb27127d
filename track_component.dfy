/**
 * The `protvista-track` element: its settings, its data, the records bound
 * to its feature paths and the highlight rectangle, updated in place by
 * `connectedCallback`, `set data`, `_createTrack`, `refresh` and
 * `_updateHighlight`. DOM nodes are represented only by the attribute
 * values the track writes into them.
 */
module TrackComponent {
  import opened JsValues
  import opened TrackFeatures
  import opened TrackFragments
  import opened TrackStyle
  import opened TrackGeometry

  /** The height used when no `height` attribute is given. */
  const DefaultHeight: int := 44

  /** The tooltip trigger used when no `tooltip-event` attribute is given. */
  const DefaultTooltipEvent: string := "mouseover"

  /** The `rect.highlighted` element and the attributes the track sets on it. */
  class HighlightRect {
    var height: int
    var x: Option<real>
    var width: Option<real>
    var opacity: Option<real>

    constructor (height: int)
      ensures this.height == height && x.None? && width.None? && opacity.None?
    {
      this.height := height;
      x, width, opacity := None, None, None;
    }

    /** The rectangle displays `h`. */
    predicate Shows(h: HighlightRegion)
      reads this
    {
      match h
      case Visible(hx, w) => x == Some(hx) && width == Some(w) && opacity == Some(HighlightOpacity)
      case Hidden => opacity == Some(0.0)
    }
  }

  /** The attribute values `connectedCallback` reads, already parsed. */
  datatype Attributes = Attributes(
    highlightStart: Option<int>,
    highlightEnd: Option<int>,
    height: Option<int>,
    tooltipEvent: Option<string>,
    color: Option<string>,
    shape: Option<string>,
    layout: Option<string>)

  /** The `d` and `transform` of every feature path, one per record. */
  function Paths(rs: seq<FragmentRecord>, xScale: Scale, view: LayoutView, trackShape: Option<string>,
                 config: Config): (ps: seq<Placement>)
    ensures |ps| == |rs|
    ensures forall k :: 0 <= k < |rs| ==>
      ps[k] == Place(rs[k], xScale, view, FeatureShapeName(rs[k].feature.props, trackShape, config))
  {
    if rs == [] then []
    else [Place(rs[0], xScale, view, FeatureShapeName(rs[0].feature.props, trackShape, config))]
         + Paths(rs[1..], xScale, view, trackShape, config)
  }

  /** The `fill` (and `stroke`) of every feature path, one per record. */
  function Fills(rs: seq<FragmentRecord>, trackColor: Option<string>, config: Config): (cs: seq<string>)
    ensures |cs| == |rs|
    ensures forall k :: 0 <= k < |rs| ==> cs[k] == FeatureColor(rs[k].feature.props, trackColor, config)
  {
    if rs == [] then [] else [FeatureColor(rs[0].feature.props, trackColor, config)] + Fills(rs[1..], trackColor, config)
  }

  class ProtVistaTrack {
    var data: Option<seq<Feature>>          // this._data
    var height: int                         // this._height
    var tooltipEvent: string                // this._tooltipEvent
    var color: Option<string>               // this._color
    var shape: Option<string>               // this._shape
    var highlightStart: Option<int>         // this._highlightstart
    var highlightEnd: Option<int>           // this._highlightend
    var layout: Option<Layout>              // this._layoutObj
    var config: Config                      // this._config
    var highlighted: HighlightRect?         // this.highlighted, with this.svg and this.seq_g
    var features: seq<FragmentRecord>       // the records bound to the feature paths
    var paths: seq<Placement>               // their `d` and `transform`
    var fills: seq<string>                  // their `fill` and `stroke`

    /**
     * Data, once set, is normalized, and the drawing (svg, highlight,
     * feature group) exists only once data has been drawn.
     */
    ghost predicate Valid()
      reads this`data, this`highlighted, if data.Some? then data.value else []
    {
      && (data.Some? ==> forall f :: f in data.value ==> f.locations.Some?)
      && (highlighted != null ==> data.Some?)
    }

    /** The drawing reflects the current data, settings, layout answers and mapper. */
    ghost predicate Drawn(xScale: Scale, view: LayoutView)
      reads this, highlighted, if data.Some? then data.value else []
    {
      && data.Some?
      && (forall f :: f in data.value ==> f.locations.Some?)
      && highlighted != null
      && features == Flatten(Snapshot(data.value))
      && paths == Paths(features, xScale, view, shape, config)
      && highlighted.Shows(Highlight(highlightStart, highlightEnd, xScale))
    }

    /**
     * A new, unconnected element; the config lookups are those of the
     * track's static `config`. The source leaves `_height` and
     * `_tooltipEvent` undefined until `connectedCallback`; nothing modelled
     * reads them before then, so they start at their defaults here.
     */
    constructor (config: Config)
      ensures Valid()
      ensures data.None? && layout.None? && highlighted == null
      ensures features == [] && paths == [] && fills == [] && this.config == config
    {
      data, layout, highlighted := None, None, null;
      height, tooltipEvent := DefaultHeight, DefaultTooltipEvent;
      color, shape, highlightStart, highlightEnd := None, None, None, None;
      this.config := config;
      features, paths, fills := [], [], [];
    }

    /** `set height(height)`. */
    method SetHeight(h: int)
      modifies this`height
      ensures height == h
    {
      height := h;
    }

    /**
     * The settings read from `attrs`: the highlight bounds and colour and
     * shape as given, the height and tooltip trigger defaulting when
     * absent, and the layout object that the `layout` attribute selects.
     */
    ghost predicate Configured(attrs: Attributes)
      reads this`highlightStart, this`highlightEnd, this`height, this`tooltipEvent, this`color, this`shape, this`layout
    {
      && highlightStart == attrs.highlightStart && highlightEnd == attrs.highlightEnd
      && height == (if attrs.height.Some? then attrs.height.value else DefaultHeight)
      && tooltipEvent == (if StringTruthy(attrs.tooltipEvent) then attrs.tooltipEvent.value else DefaultTooltipEvent)
      && color == attrs.color && shape == attrs.shape
      && layout == Some(GetLayout(attrs.layout, height))
    }

    /** `connectedCallback()`: read the attributes, build the layout, draw any data already set. */
    method ConnectedCallback(attrs: Attributes, xScale: Scale, view: LayoutView)
      requires Valid()
      modifies this`highlightStart, this`highlightEnd, this`height, this`tooltipEvent, this`color, this`shape, this`layout
      modifies this`highlighted, this`features, this`paths, this`fills
      ensures Valid() && Configured(attrs)
      ensures data.Some? ==> Drawn(xScale, view) && fresh(highlighted) && fills == Fills(features, color, config)
      ensures data.None? ==>
        highlighted == old(highlighted) && features == old(features) && paths == old(paths) && fills == old(fills)
    {
      ReadAttributes(attrs);
      if data.Some? {
        CreateTrack(xScale, view);
      }
    }

    /** The attribute-reading part of `connectedCallback`, with the layout it builds. */
    method ReadAttributes(attrs: Attributes)
      requires Valid()
      modifies this`highlightStart, this`highlightEnd, this`height, this`tooltipEvent, this`color, this`shape, this`layout
      ensures Valid() && Configured(attrs)
    {
      highlightStart, highlightEnd := attrs.highlightStart, attrs.highlightEnd;
      height := if attrs.height.Some? then attrs.height.value else DefaultHeight;
      tooltipEvent := if StringTruthy(attrs.tooltipEvent) then attrs.tooltipEvent.value else DefaultTooltipEvent;
      color, shape := attrs.color, attrs.shape;
      layout := Some(GetLayout(attrs.layout, height));
    }

    /**
     * `set data(data)`: normalize the records in place and store them, then
     * rebuild the drawing. Before `connectedCallback` there is no layout
     * object and `_createTrack` throws at its first line, so the setter
     * stops with the data stored and nothing drawn; connecting draws it.
     */
    method SetData(newData: seq<Feature>, xScale: Scale, view: LayoutView)
      modifies this`data, this`highlighted, this`features, this`paths, this`fills, newData
      ensures Valid()
      ensures data == Some(newData)
      ensures forall f :: f in newData ==> f.Value() == Normalized(old(f.Value()))
      ensures layout.Some? ==> Drawn(xScale, view) && fresh(highlighted) && fills == Fills(features, color, config)
      ensures layout.None? ==>
        highlighted == old(highlighted) && features == old(features) && paths == old(paths) && fills == old(fills)
    {
      var normalized := NormalizeLocations(newData);
      forall f | f in newData
        ensures f.locations.Some?
      {
        NormalizedFixesExactlyNormalized(old(f.Value()));
      }
      data := Some(normalized);
      if layout.Some? {
        CreateTrack(xScale, view);
      }
    }

    /**
     * `_createTrack()`: the layout's `init(data)` is answered by `view`;
     * the old drawing is discarded, a fresh highlight rectangle of the
     * track's height is created, one path per fragment record gets its
     * shape, translation and colour, and `refresh` runs.
     */
    method CreateTrack(xScale: Scale, view: LayoutView)
      requires Valid() && data.Some? && layout.Some?
      modifies this`highlighted, this`features, this`paths, this`fills
      ensures Valid()
      ensures Drawn(xScale, view) && fresh(highlighted) && highlighted.height == height
      ensures fills == Fills(features, color, config)
    {
      highlighted := new HighlightRect(height);
      CreateFeatures(xScale, view);
      assert highlighted.height == height && Valid();
      Refresh(Some(xScale), view);
    }

    /**
     * `_createFeatures()`: bind one path to every fragment record of the
     * data, with its shape, translation and colour.
     */
    method CreateFeatures(xScale: Scale, view: LayoutView)
      requires Valid() && data.Some?
      modifies this`features, this`paths, this`fills
      ensures features == Flatten(Snapshot(data.value))
      ensures paths == Paths(features, xScale, view, shape, config)
      ensures fills == Fills(features, color, config)
    {
      features := Flatten(Snapshot(data.value));
      paths := Paths(features, xScale, view, shape, config);
      fills := Fills(features, color, config);
    }

    /**
     * `refresh()`: when a mapper and a drawing exist, rebind the fragment
     * records of the current data, recompute every path's shape and
     * translation, and update the highlight; otherwise do nothing.
     */
    method Refresh(xScale: Option<Scale>, view: LayoutView)
      requires Valid()
      modifies this`features, this`paths, highlighted
      ensures Valid()
      ensures xScale.Some? && highlighted != null ==> Drawn(xScale.value, view)
      ensures !(xScale.Some? && highlighted != null) ==> features == old(features) && paths == old(paths)
      ensures highlighted != null ==> highlighted.height == old(highlighted.height)
      ensures xScale.Some? && highlighted != null && old(features == Flatten(Snapshot(data.value))) ==> features == old(features)
      ensures highlighted != null && xScale.None? ==> unchanged(highlighted)
    {
      if xScale.Some? && highlighted != null {
        features := Flatten(Snapshot(data.value));
        paths := Paths(features, xScale.value, view, shape, config);
        UpdateHighlight(xScale.value);
      }
    }

    /**
     * `_updateHighlight()`: show the highlight interval at 0.3 opacity, or
     * hide it by opacity alone, keeping its previous position and width.
     */
    method UpdateHighlight(xScale: Scale)
      requires highlighted != null
      modifies highlighted
      ensures highlighted.Shows(Highlight(highlightStart, highlightEnd, xScale))
      ensures highlighted.height == old(highlighted.height)
      ensures Highlight(highlightStart, highlightEnd, xScale).Hidden? ==>
        highlighted.x == old(highlighted.x) && highlighted.width == old(highlighted.width)
    {
      if highlightStart.Some? && highlightEnd.Some? {
        highlighted.x := Some(xScale(highlightStart.value));
        highlighted.opacity := Some(HighlightOpacity);
        highlighted.width := Some(xScale(highlightEnd.value - highlightStart.value + 1) - xScale(0));
      } else {
        highlighted.opacity := Some(0.0);
      }
    }
  }
}
