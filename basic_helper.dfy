/**
 * The static helpers of the entry adapter's `BasicHelper`: renaming
 * `begin` to `start` in place, rendering evidence codes as HTML through
 * the ECO table, and the feature tooltip.
 */
module BasicHelper {
  import opened JsValues
  import opened EcoCodes
  import opened UniProtEntry

  /** What `renameProperties` makes of one record. */
  function Renamed(v: EntryFeature): (r: EntryFeature)
    ensures ScalarTruthy(v.begin) ==> r.start == v.begin && r.begin.None?
    ensures !ScalarTruthy(v.begin) ==> r == v
    ensures r == v <==> !ScalarTruthy(v.begin)
    ensures r.(begin := v.begin, start := v.start) == v
    ensures !ScalarTruthy(r.begin)
  {
    if ScalarTruthy(v.begin) then v.(start := v.begin, begin := None) else v
  }

  /** A second renaming changes nothing. */
  lemma RenamedIdempotent(v: EntryFeature)
    ensures Renamed(Renamed(v)) == Renamed(v)
  {
  }

  /**
   * `renameProperties(features)`: every record with a truthy `begin` has it
   * moved into `start` and deleted; the same collection is returned. A
   * record listed twice is renamed once and then left alone.
   */
  method RenameProperties(features: seq<UniProtFeature>) returns (r: seq<UniProtFeature>)
    modifies features
    ensures r == features
    ensures forall f :: f in features ==> f.Value() == Renamed(old(f.Value()))
  {
    var i := 0;
    while i < |features|
      invariant 0 <= i <= |features|
      invariant forall f :: f in features ==>
        f.Value() == if f in features[..i] then Renamed(old(f.Value())) else old(f.Value())
    {
      var ft := features[i];
      if ScalarTruthy(ft.begin) {
        ft.start := ft.begin;
        ft.begin := None;
      }
      assert features[..i + 1] == features[..i] + [ft];
      i := i + 1;
    }
    assert features[..i] == features;
    r := features;
  }

  /** `<p title='description'>shortDescription`: the opening of a block. */
  function BlockOpening(eco: EcoEntry): string
  {
    "<p title='" + eco.description + "'>" + eco.shortDescription
  }

  /** ` <a href='url' target='_blank'>id</a> (name)`: the source link of a block. */
  function SourceLink(s: Source): string
  {
    " <a href='" + TemplateText(s.url) + "' target='_blank'>" + TemplateText(s.id) + "</a> (" + TemplateText(s.name) + ")"
  }

  const BlockClosing: string := "</p>"

  /**
   * The HTML one evidence contributes: nothing when its code is not in the
   * table, otherwise one block for the first matching row, holding the
   * source link exactly when the evidence has a source.
   */
  function EvidenceBlock(ecoMap: seq<EcoEntry>, ev: Evidence): string
  {
    match FindEco(ecoMap, ev.code)
    case None => ""
    case Some(eco) =>
      BlockOpening(eco) + (if ev.source.Some? then SourceLink(ev.source.value) else "") + BlockClosing
  }

  /**
   * The HTML one evidence contributes: nothing when its code is not in the
   * table, otherwise one block for the first matching row, holding the
   * source link exactly when the evidence has a source.
   */
  lemma EvidenceBlockCases(ecoMap: seq<EcoEntry>, ev: Evidence)
    ensures EvidenceBlock(ecoMap, ev) == "" <==> FindEco(ecoMap, ev.code).None?
    ensures FindEco(ecoMap, ev.code).Some? && ev.source.None? ==>
      EvidenceBlock(ecoMap, ev) == BlockOpening(FindEco(ecoMap, ev.code).value) + BlockClosing
    ensures FindEco(ecoMap, ev.code).Some? && ev.source.Some? ==>
      EvidenceBlock(ecoMap, ev) == BlockOpening(FindEco(ecoMap, ev.code).value) + SourceLink(ev.source.value) + BlockClosing
  {
  }

  /**
   * Against the adapter's table, an evidence carrying one of its codes gets
   * the block of that code's own row.
   */
  lemma ListedCodeBlock(i: nat, source: Option<Source>)
    requires i < |EcoMap|
    ensures EvidenceBlock(EcoMap, Evidence(Some(EcoMap[i].name), source))
         == BlockOpening(EcoMap[i]) + (if source.Some? then SourceLink(source.value) else "") + BlockClosing
  {
    FindEcoOfListedCode(i);
  }

  /** The HTML of a list of evidences: their blocks, in list order. */
  function EvidenceHtml(ecoMap: seq<EcoEntry>, evs: seq<Evidence>): string
  {
    if evs == [] then "" else EvidenceBlock(ecoMap, evs[0]) + EvidenceHtml(ecoMap, evs[1..])
  }

  /** The HTML of two lists one after the other is the HTML of each, in order. */
  lemma {:induction false} EvidenceHtmlAppend(ecoMap: seq<EcoEntry>, a: seq<Evidence>, b: seq<Evidence>)
    ensures EvidenceHtml(ecoMap, a + b) == EvidenceHtml(ecoMap, a) + EvidenceHtml(ecoMap, b)
  {
    if a == [] {
      assert a + b == b;
    } else {
      assert (a + b)[1..] == a[1..] + b;
      EvidenceHtmlAppend(ecoMap, a[1..], b);
    }
  }

  /** A further evidence appends exactly its own block (empty when unmatched) to the HTML so far. */
  lemma EvidenceHtmlSnoc(ecoMap: seq<EcoEntry>, pre: seq<Evidence>, ev: Evidence)
    ensures EvidenceHtml(ecoMap, pre + [ev]) == EvidenceHtml(ecoMap, pre) + EvidenceBlock(ecoMap, ev)
  {
    EvidenceHtmlAppend(ecoMap, pre, [ev]);
    assert EvidenceHtml(ecoMap, [ev]) == EvidenceBlock(ecoMap, ev) + EvidenceHtml(ecoMap, []);
  }

  /** The HTML of the first `i + 1` evidences extends that of the first `i` by the block of evidence `i`. */
  lemma EvidenceHtmlStep(ecoMap: seq<EcoEntry>, evs: seq<Evidence>, i: nat)
    requires i < |evs|
    ensures EvidenceHtml(ecoMap, evs[..i + 1]) == EvidenceHtml(ecoMap, evs[..i]) + EvidenceBlock(ecoMap, evs[i])
  {
    assert evs[..i + 1] == evs[..i] + [evs[i]];
    EvidenceHtmlSnoc(ecoMap, evs[..i], evs[i]);
  }

  /** An evidence whose code is not in the table contributes nothing, wherever it stands. */
  lemma UnmatchedContributesNothing(ecoMap: seq<EcoEntry>, pre: seq<Evidence>, ev: Evidence, post: seq<Evidence>)
    requires FindEco(ecoMap, ev.code).None?
    ensures EvidenceHtml(ecoMap, pre + [ev] + post) == EvidenceHtml(ecoMap, pre + post)
  {
    EvidenceHtmlAppend(ecoMap, pre + [ev], post);
    EvidenceHtmlSnoc(ecoMap, pre, ev);
    EvidenceHtmlAppend(ecoMap, pre, post);
  }

  /** The HTML is empty exactly when no evidence of the list has a code in the table. */
  lemma {:induction false} EvidenceHtmlEmptyIff(ecoMap: seq<EcoEntry>, evs: seq<Evidence>)
    ensures EvidenceHtml(ecoMap, evs) == "" <==> forall i :: 0 <= i < |evs| ==> FindEco(ecoMap, evs[i].code).None?
  {
    if evs != [] {
      EvidenceHtmlEmptyIff(ecoMap, evs[1..]);
      assert forall i :: 1 <= i < |evs| ==> evs[i] == evs[1..][i - 1];
    }
  }

  /**
   * `getEvidenceFromCodes(list)` against a code table: `undefined` for an
   * absent list, otherwise the HTML of its evidences (an empty list, being
   * truthy, gives the empty string).
   */
  function EvidenceFromCodes(ecoMap: seq<EcoEntry>, list: Option<seq<Evidence>>): Option<string>
  {
    if list.None? then None else Some(EvidenceHtml(ecoMap, list.value))
  }

  /**
   * The callback `getEvidenceFromCodes` maps over the list: append the
   * block of one evidence to the HTML accumulated so far.
   */
  method AppendEvidence(ecoMap: seq<EcoEntry>, html: string, ev: Evidence) returns (html': string)
    ensures html' == html + EvidenceBlock(ecoMap, ev)
    ensures FindEco(ecoMap, ev.code).None? ==> html' == html
  {
    html' := html;
    var ecoMatch := FindEco(ecoMap, ev.code);
    if ecoMatch.None? {
      return;
    }
    html' := html' + BlockOpening(ecoMatch.value);
    if ev.source.Some? {
      html' := html' + SourceLink(ev.source.value);
    }
    html' := html' + BlockClosing;
  }

  /** `getEvidenceFromCodes(list)`, accumulating the HTML evidence by evidence. */
  method GetEvidenceFromCodes(ecoMap: seq<EcoEntry>, list: Option<seq<Evidence>>) returns (r: Option<string>)
    ensures r == EvidenceFromCodes(ecoMap, list)
    ensures list.None? <==> r.None?
  {
    if list.None? {
      return None;
    }
    var evs := list.value;
    var html := "";
    var i := 0;
    while i < |evs|
      invariant 0 <= i <= |evs|
      invariant html == EvidenceHtml(ecoMap, evs[..i])
    {
      EvidenceHtmlStep(ecoMap, evs, i);
      html := AppendEvidence(ecoMap, html, evs[i]);
      i := i + 1;
    }
    assert evs[..i] == evs;
    r := Some(html);
  }

  /** The text of the tooltip template before the description slot. */
  const TooltipHead: string := " \n            <table>                        \n                "

  /** The text between the description slot and the evidence slot. */
  const TooltipMiddle: string := " \n                "

  /** The text after the evidence slot. */
  const TooltipTail: string := "\n            </table> \n        "

  /** A table row with a heading cell and a value cell. */
  function Row(heading: string, value: string): string
  {
    "<tr><td>" + heading + "</td><td>" + value + "</td></tr>"
  }

  /**
   * A slot of the tooltip template: the row with this heading when the
   * value is truthy (present and non-empty), else nothing.
   */
  function Slot(heading: string, value: Option<string>): (r: string)
    ensures r == "" <==> !StringTruthy(value)
    ensures StringTruthy(value) ==> |r| > |value.value| + |heading|
  {
    if StringTruthy(value) then Row(heading, value.value) else ""
  }

  /**
   * `formatTooltip(feature)`: the template with the description slot and
   * the evidence slot filled in; with neither, only the template's text.
   */
  function FormatTooltip(ecoMap: seq<EcoEntry>, f: EntryFeature): (r: string)
    ensures !StringTruthy(f.description) && !StringTruthy(EvidenceFromCodes(ecoMap, f.evidences)) ==>
      r == TooltipHead + TooltipMiddle + TooltipTail
  {
    TooltipHead + Slot("Description", f.description) + TooltipMiddle
      + Slot("Evidence", EvidenceFromCodes(ecoMap, f.evidences)) + TooltipTail
  }

  /** The three parts of a concatenation can be sliced back out of it. */
  lemma SlicesOfConcat(pre: string, mid: string, post: string)
    ensures (pre + mid + post)[..|pre|] == pre
    ensures (pre + mid + post)[|pre|..|pre| + |mid|] == mid
    ensures (pre + mid + post)[|pre| + |mid|..] == post
  {
  }

  /** A slice that lies within the first part of a concatenation is a slice of that part. */
  lemma SliceOfPrefix(a: string, b: string, i: int, j: int)
    requires 0 <= i <= j <= |a|
    ensures (a + b)[i..j] == a[i..j]
  {
  }

  /** The tooltip starts with the table's opening text. */
  lemma TooltipOpening(ecoMap: seq<EcoEntry>, f: EntryFeature)
    ensures FormatTooltip(ecoMap, f)[..|TooltipHead|] == TooltipHead
  {
    var rest := Slot("Evidence", EvidenceFromCodes(ecoMap, f.evidences)) + TooltipTail;
    SlotAfterHead(TooltipHead, Slot("Description", f.description), TooltipMiddle, rest);
  }

  /** A truthy description gets its row right after the table's opening text. */
  lemma TooltipDescriptionRow(ecoMap: seq<EcoEntry>, f: EntryFeature)
    ensures var t := FormatTooltip(ecoMap, f); var n := |TooltipHead|;
      StringTruthy(f.description) ==>
        t[n..n + |Row("Description", f.description.value)|] == Row("Description", f.description.value)
  {
    var rest := Slot("Evidence", EvidenceFromCodes(ecoMap, f.evidences)) + TooltipTail;
    SlotAfterHead(TooltipHead, Slot("Description", f.description), TooltipMiddle, rest);
  }

  /** Without a truthy description the template's own next text follows the opening at once. */
  lemma TooltipNoDescriptionRow(ecoMap: seq<EcoEntry>, f: EntryFeature)
    ensures var t := FormatTooltip(ecoMap, f); var n := |TooltipHead|;
      !StringTruthy(f.description) ==> t[n..n + |TooltipMiddle|] == TooltipMiddle
  {
    var rest := Slot("Evidence", EvidenceFromCodes(ecoMap, f.evidences)) + TooltipTail;
    SlotAfterHead(TooltipHead, Slot("Description", f.description), TooltipMiddle, rest);
  }

  /** In `head + slot + middle + rest`, the head, then the slot, then (for an empty slot) the middle. */
  lemma SlotAfterHead(head: string, slot: string, middle: string, rest: string)
    ensures var t := head + slot + middle + rest;
      t[..|head|] == head && t[|head|..|head| + |slot|] == slot
      && (slot == "" ==> t[|head|..|head| + |middle|] == middle)
  {
    var withMiddle := head + slot + middle;
    SlicesOfConcat(head, slot, middle);
    SliceOfPrefix(withMiddle, rest, 0, |head|);
    SliceOfPrefix(withMiddle, rest, |head|, |head| + |slot|);
    if slot == "" {
      SliceOfPrefix(withMiddle, rest, |head|, |head| + |middle|);
    }
  }

  /**
   * The evidence row: after the description slot and the text that follows
   * it comes the row holding the evidence HTML when that HTML is non-empty;
   * when it is absent or empty, the template's closing text follows at once.
   */
  lemma TooltipEvidenceRow(ecoMap: seq<EcoEntry>, f: EntryFeature)
    ensures var t := FormatTooltip(ecoMap, f); var h := EvidenceFromCodes(ecoMap, f.evidences);
      var n := |TooltipHead| + |Slot("Description", f.description)| + |TooltipMiddle|;
      (StringTruthy(h) ==> t[n..n + |Row("Evidence", h.value)|] == Row("Evidence", h.value))
      && (!StringTruthy(h) ==> t[n..] == TooltipTail)
  {
    var prefix := TooltipHead + Slot("Description", f.description) + TooltipMiddle;
    var slot := Slot("Evidence", EvidenceFromCodes(ecoMap, f.evidences));
    assert FormatTooltip(ecoMap, f) == prefix + slot + TooltipTail;
    SlicesOfConcat(prefix, slot, TooltipTail);
  }

  /**
   * A feature whose evidences all have codes outside the table (or that
   * has none) gets the same tooltip as a feature without evidences.
   */
  lemma TooltipIgnoresUnmatchedEvidence(ecoMap: seq<EcoEntry>, f: EntryFeature)
    requires f.evidences.Some?
    requires forall i :: 0 <= i < |f.evidences.value| ==> FindEco(ecoMap, f.evidences.value[i].code).None?
    ensures FormatTooltip(ecoMap, f) == FormatTooltip(ecoMap, f.(evidences := None))
  {
    EvidenceHtmlEmptyIff(ecoMap, f.evidences.value);
  }

  /** An empty description yields the same tooltip as an absent one. */
  lemma TooltipEmptyDescriptionIsAbsent(ecoMap: seq<EcoEntry>, f: EntryFeature)
    ensures FormatTooltip(ecoMap, f.(description := Some(""))) == FormatTooltip(ecoMap, f.(description := None))
  {
  }
}
