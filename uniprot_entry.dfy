/**
 * The feature records of a UniProt entry as the entry adapter handles them:
 * caller-owned objects that `renameProperties` edits in place and
 * `filterData` selects from.
 */
module UniProtEntry {
  import opened JsValues

  /** The cross-reference of an evidence; each of its texts may be missing or `null`. */
  datatype Source = Source(id: Nullable<string>, url: Nullable<string>, name: Nullable<string>)

  /** One evidence of a feature: its ECO code and, optionally, its source. */
  datatype Evidence = Evidence(code: Option<string>, source: Option<Source>)

  /** The properties of a feature record that the adapter reads or writes. */
  datatype EntryFeature = EntryFeature(
    featureType: Option<string>,
    begin: Option<JsScalar>,
    start: Option<JsScalar>,
    end: Option<JsScalar>,
    description: Option<string>,
    evidences: Option<seq<Evidence>>)

  /** A feature record object. */
  class UniProtFeature {
    var featureType: Option<string>
    var begin: Option<JsScalar>
    var start: Option<JsScalar>
    var end: Option<JsScalar>
    var description: Option<string>
    var evidences: Option<seq<Evidence>>

    constructor (v: EntryFeature)
      ensures Value() == v
    {
      featureType, begin, start := v.featureType, v.begin, v.start;
      end, description, evidences := v.end, v.description, v.evidences;
    }

    /** The record's current properties. */
    function Value(): EntryFeature
      reads this
    {
      EntryFeature(featureType, begin, start, end, description, evidences)
    }
  }
}
