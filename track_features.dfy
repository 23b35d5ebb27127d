/**
 * The feature records a protvista track is given, and `normalizeLocations`,
 * which rewrites the flat `{start, end}` shorthand into the nested
 * `locations[].fragments[]` form in place.
 */
module TrackFeatures {
  import opened JsValues

  /** One contiguous span; each bound is whatever the record carried (possibly absent). */
  datatype Fragment = Fragment(start: Option<int>, end: Option<int>)

  /** One placement of a feature. */
  datatype Location = Location(fragments: seq<Fragment>)

  /** The properties of a feature record that the track reads or writes. */
  datatype FeatureValue = FeatureValue(
    accession: Option<string>,
    featureType: Option<string>,
    color: Option<string>,
    shape: Option<string>,
    tooltipContent: Option<string>,
    start: Option<int>,
    end: Option<int>,
    locations: Option<seq<Location>>)

  /** A feature record: a caller-owned object that normalization augments in place. */
  class Feature {
    var accession: Option<string>
    var featureType: Option<string>
    var color: Option<string>
    var shape: Option<string>
    var tooltipContent: Option<string>
    var start: Option<int>
    var end: Option<int>
    var locations: Option<seq<Location>>

    constructor (v: FeatureValue)
      ensures Value() == v
    {
      accession, featureType, color, shape := v.accession, v.featureType, v.color, v.shape;
      tooltipContent, start, end, locations := v.tooltipContent, v.start, v.end, v.locations;
    }

    /** The record's current properties. */
    function Value(): FeatureValue
      reads this
    {
      FeatureValue(accession, featureType, color, shape, tooltipContent, start, end, locations)
    }
  }

  /**
   * A record that carries `locations` (of any length: a JavaScript array is
   * truthy even when empty) is normalized.
   */
  predicate IsNormalized(v: FeatureValue)
  {
    v.locations.Some?
  }

  /** What normalization makes of one record. */
  function Normalized(v: FeatureValue): FeatureValue
  {
    if v.locations.Some? then v
    else v.(locations := Some([Location([Fragment(v.start, v.end)])]))
  }

  /** Normalization leaves a record alone exactly when it already carries `locations`. */
  lemma NormalizedFixesExactlyNormalized(v: FeatureValue)
    ensures IsNormalized(Normalized(v))
    ensures Normalized(v) == v <==> IsNormalized(v)
  {
  }

  /**
   * A shorthand record gets exactly one location with exactly one fragment
   * holding its own bounds, and no other property changes.
   */
  lemma NormalizedShorthand(v: FeatureValue)
    requires !IsNormalized(v)
    ensures |Normalized(v).locations.value| == 1
    ensures Normalized(v).locations.value[0].fragments == [Fragment(v.start, v.end)]
    ensures Normalized(v).(locations := None) == v
  {
  }

  /** Only `locations` is ever touched. */
  lemma NormalizedKeepsOtherProperties(v: FeatureValue)
    ensures Normalized(v).(locations := v.locations) == v
  {
  }

  /** A second pass of normalization changes nothing. */
  lemma NormalizedIdempotent(v: FeatureValue)
    ensures Normalized(Normalized(v)) == Normalized(v)
  {
  }

  /**
   * `normalizeLocations(data)`: `data.map` over the records, assigning
   * `locations` into each record that lacks it. The result holds the very
   * same objects in the same order; a record listed twice is normalized
   * once and then left alone.
   */
  method NormalizeLocations(data: seq<Feature>) returns (r: seq<Feature>)
    modifies data
    ensures r == data
    ensures forall f :: f in data ==> f.Value() == Normalized(old(f.Value()))
  {
    var i := 0;
    while i < |data|
      invariant 0 <= i <= |data|
      invariant forall f :: f in data ==>
        f.Value() == if f in data[..i] then Normalized(old(f.Value())) else old(f.Value())
    {
      var f := data[i];
      if f.locations.None? {
        f.locations := Some([Location([Fragment(f.start, f.end)])]);
      }
      assert data[..i + 1] == data[..i] + [f];
      i := i + 1;
    }
    assert data[..i] == data;
    r := data;
  }

  /** Normalizing a collection twice has the effect of normalizing it once. */
  method NormalizeTwice(data: seq<Feature>) returns (r: seq<Feature>)
    modifies data
    ensures r == data
    ensures forall f :: f in data ==> f.Value() == Normalized(old(f.Value()))
  {
    var once := NormalizeLocations(data);
    r := NormalizeLocations(once);
    forall f | f in data
      ensures f.Value() == Normalized(old(f.Value()))
    {
      NormalizedIdempotent(old(f.Value()));
    }
  }
}
