/**
 * The fragment flattening of `refresh`: every fragment of every location of
 * every feature becomes one record that carries its owning feature.
 */
module TrackFragments {
  import opened JsValues
  import opened TrackFeatures

  /**
   * The owning feature of a record: the feature object itself and the
   * properties it has while the track is drawn (the drawing code reads
   * them through the reference, synchronously, during one redraw).
   */
  datatype Owner = Owner(ref: Feature, props: FeatureValue)

  /** A feature with the `locations` it carries when the track is drawn. */
  datatype Owned = Owned(feature: Owner, locations: seq<Location>)

  /** `Object.assign({}, fragment, {feature: f})`: a fragment's bounds and its owner. */
  datatype FragmentRecord = FragmentRecord(start: Option<int>, end: Option<int>, feature: Owner)

  /** Reads normalized feature objects. */
  function Snapshot(data: seq<Feature>): (r: seq<Owned>)
    requires forall f :: f in data ==> f.locations.Some?
    reads data
    ensures |r| == |data|
    ensures forall i :: 0 <= i < |data| ==>
      r[i] == Owned(Owner(data[i], data[i].Value()), data[i].locations.value)
  {
    if data == [] then []
    else [Owned(Owner(data[0], data[0].Value()), data[0].locations.value)] + Snapshot(data[1..])
  }

  /** `e.fragments.map(fragment => Object.assign({}, fragment, {feature: f}))`. */
  function Tag(fragments: seq<Fragment>, f: Owner): (r: seq<FragmentRecord>)
    ensures |r| == |fragments|
    ensures forall k :: 0 <= k < |fragments| ==>
      r[k] == FragmentRecord(fragments[k].start, fragments[k].end, f)
  {
    if fragments == [] then [] else [FragmentRecord(fragments[0].start, fragments[0].end, f)] + Tag(fragments[1..], f)
  }

  /** The inner `f.locations.reduce((acc2, e) => acc2.concat(...), acc)`. */
  function FoldLocations(acc: seq<FragmentRecord>, locations: seq<Location>, f: Owner): seq<FragmentRecord>
    decreases |locations|
  {
    if locations == [] then acc else FoldLocations(acc + Tag(locations[0].fragments, f), locations[1..], f)
  }

  /** The outer `data.reduce((acc, f) => acc.concat(...), acc)`. */
  function FoldFeatures(acc: seq<FragmentRecord>, data: seq<Owned>): seq<FragmentRecord>
    decreases |data|
  {
    if data == [] then acc
    else FoldFeatures(acc + FoldLocations([], data[0].locations, data[0].feature), data[1..])
  }

  /** The records that `refresh` binds to the feature paths. */
  function Flatten(data: seq<Owned>): seq<FragmentRecord>
  {
    FoldFeatures([], data)
  }

  // Reference definitions: the same enumeration written as plain concatenation.

  function LocationRecords(locations: seq<Location>, f: Owner): seq<FragmentRecord>
  {
    if locations == [] then [] else Tag(locations[0].fragments, f) + LocationRecords(locations[1..], f)
  }

  function FeatureRecords(o: Owned): seq<FragmentRecord>
  {
    LocationRecords(o.locations, o.feature)
  }

  function AllRecords(data: seq<Owned>): seq<FragmentRecord>
  {
    if data == [] then [] else FeatureRecords(data[0]) + AllRecords(data[1..])
  }

  /** Total number of fragments over a feature's locations. */
  function LocationFragmentCount(locations: seq<Location>): nat
  {
    if locations == [] then 0 else |locations[0].fragments| + LocationFragmentCount(locations[1..])
  }

  /** Total number of fragments over all features. */
  function FragmentCount(data: seq<Owned>): nat
  {
    if data == [] then 0 else LocationFragmentCount(data[0].locations) + FragmentCount(data[1..])
  }

  lemma {:induction false} FoldLocationsIsConcat(acc: seq<FragmentRecord>, locations: seq<Location>, f: Owner)
    ensures FoldLocations(acc, locations, f) == acc + LocationRecords(locations, f)
    decreases |locations|
  {
    if locations != [] {
      var t := Tag(locations[0].fragments, f);
      FoldLocationsIsConcat(acc + t, locations[1..], f);
      assert acc + t + LocationRecords(locations[1..], f) == acc + (t + LocationRecords(locations[1..], f));
    }
  }

  lemma {:induction false} FoldFeaturesIsConcat(acc: seq<FragmentRecord>, data: seq<Owned>)
    ensures FoldFeatures(acc, data) == acc + AllRecords(data)
    decreases |data|
  {
    if data != [] {
      var t := FoldLocations([], data[0].locations, data[0].feature);
      FoldLocationsIsConcat([], data[0].locations, data[0].feature);
      assert t == FeatureRecords(data[0]);
      FoldFeaturesIsConcat(acc + t, data[1..]);
      assert acc + t + AllRecords(data[1..]) == acc + (t + AllRecords(data[1..]));
    }
  }

  /** The nested left folds enumerate exactly the reference concatenation. */
  lemma FlattenIsAllRecords(data: seq<Owned>)
    ensures Flatten(data) == AllRecords(data)
  {
    FoldFeaturesIsConcat([], data);
  }

  lemma {:induction false} AllRecordsAppend(a: seq<Owned>, b: seq<Owned>)
    ensures AllRecords(a + b) == AllRecords(a) + AllRecords(b)
    decreases |a|
  {
    if a == [] {
      assert a + b == b;
    } else {
      assert (a + b)[1..] == a[1..] + b;
      AllRecordsAppend(a[1..], b);
    }
  }

  /** Flattening a concatenation of feature lists concatenates their records, in order. */
  lemma FlattenAppend(a: seq<Owned>, b: seq<Owned>)
    ensures Flatten(a + b) == Flatten(a) + Flatten(b)
  {
    FlattenIsAllRecords(a + b);
    FlattenIsAllRecords(a);
    FlattenIsAllRecords(b);
    AllRecordsAppend(a, b);
  }

  /**
   * Feature order: the records of feature `i` sit between those of the
   * features before it and those after it.
   */
  lemma FlattenSplitsAtFeature(data: seq<Owned>, i: nat)
    requires i < |data|
    ensures Flatten(data) == Flatten(data[..i]) + FeatureRecords(data[i]) + Flatten(data[i + 1..])
  {
    assert data == data[..i] + ([data[i]] + data[i + 1..]);
    FlattenAppend(data[..i], [data[i]] + data[i + 1..]);
    FlattenAppend([data[i]], data[i + 1..]);
    FlattenIsAllRecords([data[i]]);
    assert AllRecords([data[i]]) == FeatureRecords(data[i]) + AllRecords([]);
  }

  lemma {:induction false} LocationRecordsAppend(a: seq<Location>, b: seq<Location>, f: Owner)
    ensures LocationRecords(a + b, f) == LocationRecords(a, f) + LocationRecords(b, f)
    decreases |a|
  {
    if a == [] {
      assert a + b == b;
    } else {
      assert (a + b)[1..] == a[1..] + b;
      LocationRecordsAppend(a[1..], b, f);
    }
  }

  /**
   * Location and fragment order: within one feature, the records of location
   * `j` are its fragments, in order, between those of the other locations.
   */
  lemma LocationRecordsSplitAt(locations: seq<Location>, j: nat, f: Owner)
    requires j < |locations|
    ensures LocationRecords(locations, f)
         == LocationRecords(locations[..j], f) + Tag(locations[j].fragments, f) + LocationRecords(locations[j + 1..], f)
  {
    assert locations == locations[..j] + ([locations[j]] + locations[j + 1..]);
    LocationRecordsAppend(locations[..j], [locations[j]] + locations[j + 1..], f);
    LocationRecordsAppend([locations[j]], locations[j + 1..], f);
    assert LocationRecords([locations[j]], f) == Tag(locations[j].fragments, f) + LocationRecords([], f);
  }

  lemma {:induction false} LocationRecordsCount(locations: seq<Location>, f: Owner)
    ensures |LocationRecords(locations, f)| == LocationFragmentCount(locations)
    decreases |locations|
  {
    if locations != [] {
      LocationRecordsCount(locations[1..], f);
    }
  }

  lemma {:induction false} AllRecordsCount(data: seq<Owned>)
    ensures |AllRecords(data)| == FragmentCount(data)
    decreases |data|
  {
    if data != [] {
      LocationRecordsCount(data[0].locations, data[0].feature);
      AllRecordsCount(data[1..]);
    }
  }

  /** One record per fragment: the total is the sum of all fragment counts. */
  lemma FlattenCount(data: seq<Owned>)
    ensures |Flatten(data)| == FragmentCount(data)
  {
    FlattenIsAllRecords(data);
    AllRecordsCount(data);
  }

  /** Predicate of a record: it is fragment `k` of location `j` of feature `i`. */
  ghost predicate RecordOf(data: seq<Owned>, r: FragmentRecord, i: int, j: int, k: int)
  {
    && 0 <= i < |data|
    && 0 <= j < |data[i].locations|
    && 0 <= k < |data[i].locations[j].fragments|
    && r == FragmentRecord(data[i].locations[j].fragments[k].start,
                           data[i].locations[j].fragments[k].end,
                           data[i].feature)
  }

  lemma {:induction false} InLocationRecords(locations: seq<Location>, f: Owner, r: FragmentRecord)
    ensures r in LocationRecords(locations, f) <==>
      exists j, k :: 0 <= j < |locations| && 0 <= k < |locations[j].fragments| &&
        r == FragmentRecord(locations[j].fragments[k].start, locations[j].fragments[k].end, f)
    decreases |locations|
  {
    if locations != [] {
      InLocationRecords(locations[1..], f, r);
      var t := Tag(locations[0].fragments, f);
      if r in t {
        var k :| 0 <= k < |t| && t[k] == r;
        assert t[k] == FragmentRecord(locations[0].fragments[k].start, locations[0].fragments[k].end, f);
      }
      if r in LocationRecords(locations[1..], f) {
        var j, k :| 0 <= j < |locations[1..]| && 0 <= k < |locations[1..][j].fragments| &&
          r == FragmentRecord(locations[1..][j].fragments[k].start, locations[1..][j].fragments[k].end, f);
        assert locations[j + 1] == locations[1..][j];
      }
      if exists j, k :: 0 <= j < |locations| && 0 <= k < |locations[j].fragments| &&
          r == FragmentRecord(locations[j].fragments[k].start, locations[j].fragments[k].end, f) {
        var j, k :| 0 <= j < |locations| && 0 <= k < |locations[j].fragments| &&
          r == FragmentRecord(locations[j].fragments[k].start, locations[j].fragments[k].end, f);
        if j == 0 {
          assert t[k] == r;
        } else {
          assert locations[1..][j - 1] == locations[j];
        }
      }
    }
  }

  lemma {:induction false} InAllRecords(data: seq<Owned>, r: FragmentRecord)
    ensures r in AllRecords(data) <==> exists i, j, k :: RecordOf(data, r, i, j, k)
    decreases |data|
  {
    if data != [] {
      InAllRecords(data[1..], r);
      InLocationRecords(data[0].locations, data[0].feature, r);
      if r in FeatureRecords(data[0]) {
        var j, k :| 0 <= j < |data[0].locations| && 0 <= k < |data[0].locations[j].fragments| &&
          r == FragmentRecord(data[0].locations[j].fragments[k].start, data[0].locations[j].fragments[k].end, data[0].feature);
        assert RecordOf(data, r, 0, j, k);
      }
      if r in AllRecords(data[1..]) {
        var i, j, k :| RecordOf(data[1..], r, i, j, k);
        assert data[1..][i] == data[i + 1];
        assert RecordOf(data, r, i + 1, j, k);
      }
      if exists i, j, k :: RecordOf(data, r, i, j, k) {
        var i, j, k :| RecordOf(data, r, i, j, k);
        if i == 0 {
          assert r in FeatureRecords(data[0]);
        } else {
          assert data[1..][i - 1] == data[i];
          assert RecordOf(data[1..], r, i - 1, j, k);
        }
      }
    }
  }

  /**
   * A record is flattened exactly when it is some fragment of some location
   * of some feature, tagged with that feature: no fragment is dropped, none
   * is invented, and each record carries its own owner.
   */
  lemma FlattenMembers(data: seq<Owned>, r: FragmentRecord)
    ensures r in Flatten(data) <==> exists i, j, k :: RecordOf(data, r, i, j, k)
  {
    FlattenIsAllRecords(data);
    InAllRecords(data, r);
  }
}
