/**
 * The `protvista-uniprot-entry-adapter` element: the filter list it reads
 * from its `filters` attribute, the entry it adopts (`parseEntry`) and the
 * selection of features by type (`filterData`).
 */
module EntryAdapter {
  import opened JsValues
  import opened UniProtEntry

  /**
   * `s.split(sep)` for a one-character separator: the pieces between
   * separators, in order, empty pieces included; the empty string gives
   * one empty piece.
   */
  function Split(s: string, sep: char): (r: seq<string>)
    ensures |r| >= 1
    ensures forall k :: 0 <= k < |r| ==> sep !in r[k]
    decreases |s|
  {
    if s == [] then [""]
    else if s[0] == sep then [""] + Split(s[1..], sep)
    else
      var rest := Split(s[1..], sep);
      [[s[0]] + rest[0]] + rest[1..]
  }

  /** `parts.join(sep)`. */
  function Join(parts: seq<string>, sep: char): string
    decreases |parts|
  {
    if parts == [] then ""
    else if |parts| == 1 then parts[0]
    else parts[0] + [sep] + Join(parts[1..], sep)
  }

  /** The number of occurrences of `c` in `s`. */
  function Occurrences(s: string, c: char): nat
  {
    if s == [] then 0 else (if s[0] == c then 1 else 0) + Occurrences(s[1..], c)
  }

  /** Splitting yields one piece more than there are separators. */
  lemma {:induction false} SplitCount(s: string, sep: char)
    ensures |Split(s, sep)| == Occurrences(s, sep) + 1
    decreases |s|
  {
    if s != [] {
      SplitCount(s[1..], sep);
    }
  }

  /** Joining the pieces with the separator gives back the string. */
  lemma {:induction false} JoinSplit(s: string, sep: char)
    ensures Join(Split(s, sep), sep) == s
    decreases |s|
  {
    if s == [] {
    } else if s[0] == sep {
      JoinSplit(s[1..], sep);
      assert s == [sep] + s[1..];
    } else {
      var rest := Split(s[1..], sep);
      JoinSplit(s[1..], sep);
      if |rest| == 1 {
        assert s == [s[0]] + s[1..];
      } else {
        assert ([[s[0]] + rest[0]] + rest[1..])[1..] == rest[1..];
        assert s == [s[0]] + (rest[0] + [sep] + Join(rest[1..], sep));
      }
    }
  }

  /** Pieces free of the separator are recovered by splitting their join. */
  lemma {:induction false} SplitJoin(parts: seq<string>, sep: char)
    requires |parts| >= 1
    requires forall k :: 0 <= k < |parts| ==> sep !in parts[k]
    ensures Split(Join(parts, sep), sep) == parts
    decreases |parts|, if parts == [] then 0 else |parts[0]|
  {
    if |parts| == 1 {
      SplitPiece(parts[0], [], sep);
      assert parts[0] + [] == parts[0];
      assert parts[0] + "" == parts[0];
    } else {
      var tail := [sep] + Join(parts[1..], sep);
      SplitJoin(parts[1..], sep);
      SplitPiece(parts[0], tail, sep);
      assert Join(parts, sep) == parts[0] + tail;
      assert Split(tail, sep) == [""] + parts[1..] by {
        assert tail[1..] == Join(parts[1..], sep);
      }
      assert parts[0] + "" == parts[0];
      assert parts == [parts[0]] + parts[1..];
    }
  }

  /**
   * A piece free of the separator glues onto the first piece of whatever
   * follows it.
   */
  lemma {:induction false} SplitPiece(piece: string, tail: string, sep: char)
    requires sep !in piece
    ensures Split(piece + tail, sep) == [piece + Split(tail, sep)[0]] + Split(tail, sep)[1..]
    decreases |piece|
  {
    var t := Split(tail, sep);
    if piece != [] {
      SplitPiece(piece[1..], tail, sep);
      assert (piece + tail)[0] == piece[0] && piece[0] != sep;
      assert (piece + tail)[1..] == piece[1..] + tail;
      var rest := Split(piece[1..] + tail, sep);
      assert rest == [piece[1..] + t[0]] + t[1..];
      assert rest[0] == piece[1..] + t[0] && rest[1..] == t[1..];
      assert [piece[0]] + (piece[1..] + t[0]) == piece + t[0];
    } else {
      assert piece + tail == tail;
      assert piece + t[0] == t[0];
      assert t == [t[0]] + t[1..];
    }
  }

  /**
   * The filter list `connectedCallback` builds: the `filters` attribute
   * split at commas when it is a non-empty string, otherwise no filters.
   */
  function ParseFilters(attr: Option<string>): (r: seq<string>)
    ensures r == [] <==> !StringTruthy(attr)
    ensures StringTruthy(attr) ==> |r| == Occurrences(attr.value, ',') + 1 && Join(r, ',') == attr.value
    ensures forall k :: 0 <= k < |r| ==> ',' !in r[k]
  {
    if StringTruthy(attr) then
      SplitCount(attr.value, ',');
      JoinSplit(attr.value, ',');
      Split(attr.value, ',')
    else []
  }

  /** `filters.includes(d.type)`: the feature's type is one of the filters. */
  predicate Kept(d: UniProtFeature, filters: seq<string>)
    reads d
  {
    d.featureType.Some? && d.featureType.value in filters
  }

  /** `data.filter(d => filters.includes(d.type))`: the same objects, the kept ones only, in order. */
  function FilterByType(data: seq<UniProtFeature>, filters: seq<string>): (r: seq<UniProtFeature>)
    reads data
    ensures |r| <= |data|
    ensures forall k :: 0 <= k < |r| ==> r[k] in data && Kept(r[k], filters)
    ensures forall k :: 0 <= k < |data| && Kept(data[k], filters) ==> data[k] in r
  {
    if data == [] then []
    else if Kept(data[0], filters) then [data[0]] + FilterByType(data[1..], filters)
    else FilterByType(data[1..], filters)
  }

  /** Filtering distributes over concatenation, so kept features keep their relative order. */
  lemma {:induction false} FilterAppend(a: seq<UniProtFeature>, b: seq<UniProtFeature>, filters: seq<string>)
    ensures FilterByType(a + b, filters) == FilterByType(a, filters) + FilterByType(b, filters)
  {
    if a != [] {
      assert (a + b)[0] == a[0] && (a + b)[1..] == a[1..] + b;
      FilterAppend(a[1..], b, filters);
    } else {
      assert a + b == b;
    }
  }

  /** When every feature is kept, filtering returns the data itself. */
  lemma {:induction false} FilterKeepsAll(data: seq<UniProtFeature>, filters: seq<string>)
    requires forall k :: 0 <= k < |data| ==> Kept(data[k], filters)
    ensures FilterByType(data, filters) == data
  {
    if data != [] {
      FilterKeepsAll(data[1..], filters);
    }
  }

  /** Filtering twice by the same list is filtering once. */
  lemma FilterIdempotent(data: seq<UniProtFeature>, filters: seq<string>)
    ensures FilterByType(FilterByType(data, filters), filters) == FilterByType(data, filters)
  {
    FilterKeepsAll(FilterByType(data, filters), filters);
  }

  class ProtVistaUniProtEntryAdapter {
    var adaptedData: seq<UniProtFeature>   // this._adaptedData
    var filters: Option<seq<string>>       // this._filters, unset until connected

    /** A new element: no data, and no filter list yet. */
    constructor ()
      ensures adaptedData == [] && filters.None?
    {
      adaptedData := [];
      filters := None;
    }

    /** The filter-list part of `connectedCallback`: `filtersAttr` is `getAttribute('filters')`. */
    method ConnectedCallback(filtersAttr: Option<string>)
      modifies this`filters
      ensures filters == Some(ParseFilters(filtersAttr))
    {
      filters := Some(ParseFilters(filtersAttr));
    }

    /** `parseEntry(data)`: the generic adapter adopts the entry as it is. */
    method ParseEntry(data: seq<UniProtFeature>) returns (r: seq<UniProtFeature>)
      modifies this`adaptedData
      ensures adaptedData == data && r == data
    {
      adaptedData := data;
      r := adaptedData;
    }

    /**
     * `filterData()`: with an empty filter list the data stays as it is;
     * otherwise only the features whose type is listed remain, in order.
     * The filter list is read, so it must have been set by `connectedCallback`.
     */
    method FilterData()
      requires filters.Some?
      modifies this`adaptedData
      ensures |filters.value| == 0 ==> adaptedData == old(adaptedData)
      ensures |filters.value| > 0 ==> adaptedData == FilterByType(old(adaptedData), filters.value)
    {
      if |filters.value| > 0 {
        adaptedData := FilterByType(adaptedData, filters.value);
      }
    }
  }
}
