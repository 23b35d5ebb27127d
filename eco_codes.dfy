/**
 * The evidence-code table of the UniProt entry adapter (`ecoMap`): the
 * Evidence and Conclusion Ontology codes UniProt uses, each with the texts
 * the evidence tooltip shows, and the lookup by code (`ecoMap.find`).
 */
module EcoCodes {
  import opened JsValues

  /**
   * One row of the table. The automatic-assertion rows carry no
   * `isManual` property; absent is falsy, so they have `isManual == false`.
   */
  datatype EcoEntry = EcoEntry(
    name: string,
    description: string,
    shortDescription: string,
    acronym: string,
    isManual: bool)

  /** `ecoMap`, in its order. */
  const EcoMap: seq<EcoEntry> := [
    EcoEntry("ECO:0000269", "Manual assertion based on experiment", "Publication", "EXP", true),
    EcoEntry("ECO:0000303", "Manual assertion based on opinion", "Publication", "NAS", true),
    EcoEntry("ECO:0000305", "Manual assertion inferred by curator", "Curated", "IC", true),
    EcoEntry("ECO:0000250", "Manual assertion inferred from sequence similarity", "By similarity", "ISS", true),
    EcoEntry("ECO:0000255", "Manual assertion according to rules", "Sequence Analysis", "ISM", true),
    EcoEntry("ECO:0000244", "Manual assertion inferred from combination of experimental and computational evidence",
             "Combined sources", "MIXM", true),
    EcoEntry("ECO:0000312", "Manual assertion inferred from database entries", "Imported", "MI", true),
    EcoEntry("ECO:0000256", "Automatic assertion according to rules", "Automatic annotation", "AA", false),
    EcoEntry("ECO:0000259", "Automatic assertion inferred from signature match", "Automatic annotation", "AA", false),
    EcoEntry("ECO:0000213", "Automatic assertion inferred from combination of experimental and computational evidence",
             "Combined sources", "MIXA", false),
    EcoEntry("ECO:0000313", "Automatic assertion inferred from database entries", "Imported", "AI", false)
  ]

  /**
   * `table.find(eco => eco.name === code)`, as an index: the first row
   * whose name equals the code. An absent code equals no name.
   */
  function FindIndex(table: seq<EcoEntry>, code: Option<string>): (r: Option<nat>)
    ensures r.Some? ==> r.value < |table| && code == Some(table[r.value].name)
    ensures r.Some? ==> forall j :: 0 <= j < r.value ==> code != Some(table[j].name)
    ensures r.None? <==> forall j :: 0 <= j < |table| ==> code != Some(table[j].name)
  {
    if table == [] then None
    else if code == Some(table[0].name) then Some(0)
    else match FindIndex(table[1..], code)
      case None => None
      case Some(k) => Some(k + 1)
  }

  /** `table.find(eco => eco.name === code)`: the first row whose name equals the code, if any. */
  function FindEco(table: seq<EcoEntry>, code: Option<string>): (r: Option<EcoEntry>)
    ensures r.Some? <==> exists j :: 0 <= j < |table| && code == Some(table[j].name)
    ensures r.Some? ==> r.value in table && code == Some(r.value.name)
  {
    match FindIndex(table, code)
    case None => None
    case Some(k) => Some(table[k])
  }

  /** No two rows share a code. */
  ghost predicate DistinctNames(table: seq<EcoEntry>)
  {
    forall i, j :: 0 <= i < j < |table| ==> table[i].name != table[j].name
  }

  /** The codes of `ecoMap` are pairwise distinct. */
  lemma EcoMapNamesDistinct()
    ensures DistinctNames(EcoMap)
  {
  }

  /**
   * In a table with distinct codes, looking up a row's own code finds that
   * row: the first match is the only match.
   */
  lemma FindIndexOfOwnName(table: seq<EcoEntry>, i: nat)
    requires DistinctNames(table)
    requires i < |table|
    ensures FindIndex(table, Some(table[i].name)) == Some(i)
  {
  }

  /** Every code of `ecoMap` looks up its own row. */
  lemma FindEcoOfListedCode(i: nat)
    requires i < |EcoMap|
    ensures FindEco(EcoMap, Some(EcoMap[i].name)) == Some(EcoMap[i])
  {
    EcoMapNamesDistinct();
    FindIndexOfOwnName(EcoMap, i);
  }
}
