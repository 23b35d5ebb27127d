/**
 * Attribute resolution of the protvista track: the colour and shape of a
 * feature (`_getFeatureColor`, `_getShape`) and the choice of layout
 * strategy from the `layout` attribute (`getLayout`).
 */
module TrackStyle {
  import opened JsValues
  import opened TrackFeatures

  /**
   * The type-keyed lookup tables of the track's `ConfigHelper`
   * (`getColorByType`, `getShapeByType`). The helper and its table are not
   * part of the model, so both lookups are arbitrary functions.
   */
  datatype Config = Config(colorByType: string -> string, shapeByType: string -> string)

  const DefaultColor: string := "black"
  const DefaultShape: string := "rectangle"

  /**
   * The fallback chain shared by colour and shape: the feature's own value
   * if set, else the track-wide attribute, else the lookup by the feature's
   * type if the type is set (whatever the lookup answers), else the default.
   */
  function Resolve(own: Option<string>, track: Option<string>, featureType: Option<string>,
                   byType: string -> string, default: string): (r: string)
    ensures StringTruthy(own) ==> r == own.value
    ensures !StringTruthy(own) && StringTruthy(track) ==> r == track.value
    ensures !StringTruthy(own) && !StringTruthy(track) && StringTruthy(featureType) ==> r == byType(featureType.value)
    ensures !StringTruthy(own) && !StringTruthy(track) && !StringTruthy(featureType) ==> r == default
  {
    if StringTruthy(own) then own.value
    else if StringTruthy(track) then track.value
    else if StringTruthy(featureType) then byType(featureType.value)
    else default
  }

  /** `_getFeatureColor(f)`. */
  function FeatureColor(f: FeatureValue, trackColor: Option<string>, config: Config): (r: string)
    ensures !StringTruthy(f.color) && !StringTruthy(trackColor) && !StringTruthy(f.featureType) ==> r == DefaultColor
  {
    Resolve(f.color, trackColor, f.featureType, config.colorByType, DefaultColor)
  }

  /** `_getShape(f)`. */
  function FeatureShapeName(f: FeatureValue, trackShape: Option<string>, config: Config): (r: string)
    ensures !StringTruthy(f.shape) && !StringTruthy(trackShape) && !StringTruthy(f.featureType) ==> r == DefaultShape
  {
    Resolve(f.shape, trackShape, f.featureType, config.shapeByType, DefaultShape)
  }

  /** The resolved value always comes from one of the four tiers. */
  lemma ResolveComesFromATier(own: Option<string>, track: Option<string>, featureType: Option<string>,
                              byType: string -> string, default: string)
    ensures var r := Resolve(own, track, featureType, byType, default);
      || (own.Some? && r == own.value)
      || (track.Some? && r == track.value)
      || (featureType.Some? && r == byType(featureType.value))
      || r == default
  {
  }

  /**
   * A tier that is set hides every tier below it: once the feature has its
   * own value, the track attribute, the type and the table make no
   * difference; once the track attribute is set, the type and the table
   * make none.
   */
  lemma ResolveIgnoresLowerTiers(own: Option<string>, track: Option<string>, track': Option<string>,
                                 featureType: Option<string>, featureType': Option<string>,
                                 byType: string -> string, byType': string -> string,
                                 default: string, default': string)
    ensures StringTruthy(own) ==>
      Resolve(own, track, featureType, byType, default) == Resolve(own, track', featureType', byType', default')
    ensures StringTruthy(track) ==>
      Resolve(own, track, featureType, byType, default) == Resolve(own, track, featureType', byType', default')
  {
  }

  /** An empty string is as good as no value at every tier. */
  lemma ResolveEmptyIsUnset(own: Option<string>, track: Option<string>, featureType: Option<string>,
                            byType: string -> string, default: string)
    ensures Resolve(Some(""), track, featureType, byType, default) == Resolve(None, track, featureType, byType, default)
    ensures Resolve(own, Some(""), featureType, byType, default) == Resolve(own, None, featureType, byType, default)
    ensures Resolve(own, track, Some(""), byType, default) == Resolve(own, track, None, byType, default)
  {
  }

  /** The two layout strategies; their packing is not part of the model. */
  datatype LayoutKind = NonOverlappingLayout | DefaultLayout

  /** A layout object as constructed: its strategy and `layoutHeight`. */
  datatype Layout = Layout(kind: LayoutKind, layoutHeight: int)

  const NonOverlappingName: string := "non-overlapping"

  /**
   * `getLayout()`: the non-overlapping strategy exactly when the `layout`
   * attribute, lower-cased, reads "non-overlapping"; any other value, and an
   * absent attribute (whose `String(null)` is "null"), give the default one.
   */
  function GetLayout(layoutAttr: Option<string>, height: int): (l: Layout)
    ensures l.layoutHeight == height
    ensures l.kind == NonOverlappingLayout <==>
      layoutAttr.Some? && ToLowerAscii(layoutAttr.value) == NonOverlappingName
  {
    if ToLowerAscii(AttributeString(layoutAttr)) == NonOverlappingName
    then Layout(NonOverlappingLayout, height)
    else Layout(DefaultLayout, height)
  }

  /** Selection ignores letter case. */
  lemma GetLayoutIgnoresCase(s: string, height: int)
    ensures GetLayout(Some(s), height) == GetLayout(Some(ToLowerAscii(s)), height)
  {
    ToLowerIdempotent(s);
  }
}
