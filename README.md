# protvista-track and the UniProt entry adapter, modelled in Dafny

This project models two pieces of the Nightingale protein-visualisation components.

**The `protvista-track` element** (`protvista-track.js`) takes a list of feature records and draws every fragment of every location of every feature as one SVG path.
- Before drawing, it normalizes the records in place: a record without `locations` gets one location holding one fragment with its own `start` and `end`.
- Each path gets a shape, a translation and a colour. Colour and shape are resolved through a four-tier fallback chain.
- It keeps a highlight rectangle for an optional coordinate interval.
- It picks a lane-layout strategy from its `layout` attribute.
- Hovering a path emits a `change` event carrying the fragment's bounds.

**The UniProt entry adapter** (`dist/index.js`, lines 857-1051):
- renames `begin` to `start` on feature records in place;
- renders ECO evidence codes into HTML blocks through a fixed code table, and builds an HTML tooltip for a feature;
- keeps the features whose `type` appears in the comma-separated `filters` attribute.

How the model is built:
- **JavaScript values.** `undefined` and `null` become `Option.None` wherever the code only tests them for truthiness. Where they are printed or handed on, they are kept apart (`JsValues.Nullable`): in the source link of an evidence, which a template literal renders as `undefined` or `null`, and in the `change` payloads the track dispatches. Truthiness is written out per kind of value (`JsValues`): the empty string and `0` are falsy, and any array is truthy, even an empty one. A computation JavaScript would turn into `NaN` yields `None`.
- **Mutable objects become classes.** That covers feature records, the highlight rectangle and both elements. Their operations are methods with `modifies` clauses. Each method is proved against a pure function of the old state: `Normalized`, `Renamed`, `Flatten`, `Paths`, `Fills`, `Highlight` and `FilterByType`. Lemmas then prove what the sources promise about those functions.
- **Collaborators the model does not see are parameters.** These are the zoom controller's coordinate mapper `xScale` (an arbitrary `int -> real`), the layout object's answers (`LayoutView`), and the config helper's by-type tables (`Config`).
- **The ECO table.** The evidence functions take the code table as a parameter; the adapter's own table is `EcoCodes.EcoMap`.

Three behaviours of the code are easy to miss:
- **Reversed highlight interval.** `_updateHighlight` shows the highlight whenever both bounds are integers, including when `end < start` (`TrackGeometry.HighlightReversedIsShown`: for a monotone mapper its width is then at most 0).
- **No fragment validation.** A fragment whose non-zero `end` is below its `start`, or one without `start`, is drawn like any other. The first gets a length of at most 0 (`TrackGeometry.ShapeLengthOfReversedFragment`); the second gets an absent x translation (`TrackGeometry.Place`). An `end` of 0 is falsy, so `{start: 5, end: 0}` gets length 1 (`TrackGeometry.ShapeLengthSinglePoint`).
- **Single-point features.** `normalizeLocations` turns `{start: 7}` into a fragment whose `end` stays absent (`TrackFeatures.NormalizedShorthand`). The fragment is drawn with length 1, the same as `{start: 7, end: 7}` (`TrackGeometry.ShapeLengthSinglePoint`).

## Model

| member | source | states |
|---|---|---|
| JsValues.ToLowerAscii | packages/protvista-track/src/protvista-track.js:21 | lower-casing keeps the length and maps every character through the ASCII lower-case mapping, so no upper-case letter remains |
| JsValues.ToLowerIdempotent | packages/protvista-track/src/protvista-track.js:21 | lower-casing an already lower-cased string changes nothing |
| JsValues.AsProperty | packages/protvista-track/src/protvista-track.js:72-75 | a key copied from an optional property is `undefined` exactly when the property is missing, otherwise its value; never `null` |
| JsValues.IntegerOf | packages/protvista-track/src/protvista-track.js:273 | `Number.isInteger` on a value that is an integer, `undefined` or `null`: an integer exactly when the value is present |
| TrackFeatures.Normalized | packages/protvista-track/src/protvista-track.js:68-77 | what `normalizeLocations` makes of one record: the record itself when it has `locations`, otherwise the record with one location holding one fragment of its own `start` and `end` (properties proved in the lemmas below) |
| TrackFeatures.NormalizedFixesExactlyNormalized | packages/protvista-track/src/protvista-track.js:68-69 | after normalization every record carries `locations`, and a record is left unchanged exactly when it already carried them |
| TrackFeatures.NormalizedShorthand | packages/protvista-track/src/protvista-track.js:70-77 | a record without `locations` gets exactly one location holding exactly one fragment with the record's own `start` and `end`, and nothing else changes |
| TrackFeatures.NormalizedKeepsOtherProperties | packages/protvista-track/src/protvista-track.js:70-77 | normalization touches no property other than `locations` |
| TrackFeatures.NormalizedIdempotent | packages/protvista-track/src/protvista-track.js:68-77 | normalizing a normalized record changes nothing |
| TrackFeatures.NormalizeLocations | packages/protvista-track/src/protvista-track.js:60-79 | the result is the input: the same objects, same length, same order. Each object's new properties are `Normalized` of its old ones, including when an object is listed twice |
| TrackFeatures.NormalizeTwice | packages/protvista-track/src/protvista-track.js:60-79 | two normalization passes leave every record as one pass does |
| TrackFragments.Snapshot | packages/protvista-track/src/protvista-track.js:252-256 | one entry per feature, in order, pairing the feature object and its current properties with its `locations` |
| TrackFragments.Tag | packages/protvista-track/src/protvista-track.js:254-257 | one record per fragment, in order, with that fragment's bounds and the owning feature |
| TrackFragments.FoldLocations | packages/protvista-track/src/protvista-track.js:253-257 | the inner `reduce` with `concat`: each location's tagged fragments concatenated onto the accumulator, left to right |
| TrackFragments.FoldFeatures | packages/protvista-track/src/protvista-track.js:252-258 | the outer `reduce` with `concat`: each feature's location fold concatenated onto the accumulator, left to right |
| TrackFragments.Flatten | packages/protvista-track/src/protvista-track.js:252-258 | the records `refresh` binds: the outer fold started from `[]`; equal to the reference enumeration by `FlattenIsAllRecords` |
| TrackFragments.FoldLocationsIsConcat | packages/protvista-track/src/protvista-track.js:253-258 | the inner `reduce`/`concat` appends the records of every location, in location order, to its accumulator |
| TrackFragments.FoldFeaturesIsConcat | packages/protvista-track/src/protvista-track.js:252-258 | the outer `reduce`/`concat` appends the records of every feature, in feature order, to its accumulator |
| TrackFragments.FlattenIsAllRecords | packages/protvista-track/src/protvista-track.js:252-258 | the nested folds equal the plain feature → location → fragment concatenation |
| TrackFragments.AllRecordsAppend | packages/protvista-track/src/protvista-track.js:252-258 | the reference enumeration distributes over concatenation of feature lists |
| TrackFragments.FlattenAppend | packages/protvista-track/src/protvista-track.js:252-258 | flattening two feature lists one after the other gives their records one after the other |
| TrackFragments.FlattenSplitsAtFeature | packages/protvista-track/src/protvista-track.js:252-258 | the records of feature `i` lie between those of the earlier features and those of the later ones |
| TrackFragments.LocationRecordsAppend | packages/protvista-track/src/protvista-track.js:253-257 | one feature's records distribute over concatenation of its locations |
| TrackFragments.LocationRecordsSplitAt | packages/protvista-track/src/protvista-track.js:253-257 | within a feature, location `j` contributes exactly its fragments, in order, between the other locations' records |
| TrackFragments.LocationRecordsCount | packages/protvista-track/src/protvista-track.js:253-257 | a feature contributes as many records as its locations hold fragments |
| TrackFragments.AllRecordsCount | packages/protvista-track/src/protvista-track.js:252-258 | the reference enumeration has as many records as there are fragments in total |
| TrackFragments.FlattenCount | packages/protvista-track/src/protvista-track.js:252-258 | the number of flattened records is the sum of all fragment counts |
| TrackFragments.InLocationRecords | packages/protvista-track/src/protvista-track.js:253-257 | a record is among one feature's records if and only if it is some fragment of some location, tagged with that feature |
| TrackFragments.InAllRecords | packages/protvista-track/src/protvista-track.js:252-258 | a record is in the reference enumeration if and only if it is fragment `k` of location `j` of feature `i` for some `i`, `j`, `k` |
| TrackFragments.FlattenMembers | packages/protvista-track/src/protvista-track.js:252-258 | a record is flattened if and only if it is some fragment of some feature, carrying that feature: nothing dropped, nothing invented |
| TrackStyle.Resolve | packages/protvista-track/src/protvista-track.js:91-113 | the value is the entity's own if truthy; else the track's if truthy; else the by-type lookup if the type is truthy; else the default |
| TrackStyle.FeatureColor | packages/protvista-track/src/protvista-track.js:91-101 | colour resolution falls back to `black` when no tier supplies a value |
| TrackStyle.FeatureShapeName | packages/protvista-track/src/protvista-track.js:103-113 | shape resolution falls back to `rectangle` when no tier supplies a value |
| TrackStyle.ResolveComesFromATier | packages/protvista-track/src/protvista-track.js:91-113 | the resolved value is always one of the four tiers' values |
| TrackStyle.ResolveIgnoresLowerTiers | packages/protvista-track/src/protvista-track.js:91-113 | a truthy tier makes every lower tier irrelevant |
| TrackStyle.ResolveEmptyIsUnset | packages/protvista-track/src/protvista-track.js:91-113 | an empty string at any tier behaves exactly like an absent value |
| TrackStyle.GetLayout | packages/protvista-track/src/protvista-track.js:20-28 | the layout gets the track's height; the strategy is non-overlapping if and only if the attribute is present and lower-cases to `non-overlapping`; an absent attribute gives the default strategy |
| TrackStyle.GetLayoutIgnoresCase | packages/protvista-track/src/protvista-track.js:21 | the choice does not depend on letter case |
| TrackGeometry.UnitWidth | packages/protvista-track/src/protvista-track.js:169 | the pixel width of one coordinate unit, `xScale(2) - xScale(1)`; the slope for a linear mapper by `UnitWidthOfLinear` |
| TrackGeometry.ShapeLength | packages/protvista-track/src/protvista-track.js:170 | the length is 1 when `end` is falsy (absent or 0); otherwise it is `end - start + 1`, undefined (NaN) exactly when `start` is absent |
| TrackGeometry.ShapeLengthPositive | packages/protvista-track/src/protvista-track.js:170 | a fragment with `start <= end`, or without `end`, has length at least 1 |
| TrackGeometry.ShapeLengthSinglePoint | packages/protvista-track/src/protvista-track.js:170 | `{start: s}` has the length of `{start: s, end: s}`, namely 1; an `end` of 0 also gives 1 |
| TrackGeometry.ShapeLengthOfReversedFragment | packages/protvista-track/src/protvista-track.js:170 | a fragment whose non-zero end precedes its start gets a length of at most 0: nothing validates fragments |
| TrackGeometry.Place | packages/protvista-track/src/protvista-track.js:167-175 | a path's shape request uses the unit width `xScale(2) - xScale(1)`, the layout's height for the record, the shape length and the resolved shape. Its x is `xScale(start)` (absent without `start`) and its y is `10 +` the layout's y position of its feature |
| TrackGeometry.UnitWidthOfLinear | packages/protvista-track/src/protvista-track.js:169 | for a linear mapper the unit width is its slope |
| TrackGeometry.Highlight | packages/protvista-track/src/protvista-track.js:272-283 | the highlight is visible exactly when both bounds are integers, and then starts at `xScale(start)` and is `xScale(end - start + 1) - xScale(0)` wide |
| TrackGeometry.HighlightWidthNonNegative | packages/protvista-track/src/protvista-track.js:277-279 | under a monotone mapper an interval with `start <= end` has non-negative width |
| TrackGeometry.HighlightReversedIsShown | packages/protvista-track/src/protvista-track.js:273 | a reversed interval is still shown, with width at most 0 under a monotone mapper |
| TrackGeometry.HighlightOfLinear | packages/protvista-track/src/protvista-track.js:275-279 | under a linear mapper the highlight covers `end - start + 1` units from `xScale(start)` |
| TrackGeometry.MouseOverDetail | packages/protvista-track/src/protvista-track.js:187-194 | the hover payload carries the fragment's own start and end, and `undefined` (never `null`) for a bound the fragment lacks |
| TrackGeometry.MouseOutDetail | packages/protvista-track/src/protvista-track.js:204-211 | the leave payload carries two null bounds |
| TrackGeometry.HighlightOfDetail | packages/protvista-track/src/protvista-track.js:272-283 | a track taking a payload's bounds as its own shows the highlight exactly when both bounds are present integers |
| TrackGeometry.HoverHighlightsFragment | packages/protvista-track/src/protvista-track.js:178-212 | a track that takes a hover payload as its highlight highlights exactly the span the fragment is drawn over (linear mapper); the leave payload hides it |
| TrackGeometry.HoverSinglePointHidesHighlight | packages/protvista-track/src/protvista-track.js:189-190 | a fragment without `end` is drawn with length 1, but its hover payload's undefined end hides the highlight |
| TrackComponent.HighlightRect.constructor | packages/protvista-track/src/protvista-track.js:128-132 | a new highlight rectangle has the track's height and no position, width or opacity yet |
| TrackComponent.Paths | packages/protvista-track/src/protvista-track.js:259-268 | one placement per record, in order, each with the record's resolved shape |
| TrackComponent.Fills | packages/protvista-track/src/protvista-track.js:176-177 | one fill per record, in order, each the owning feature's resolved colour |
| TrackComponent.ProtVistaTrack.constructor | packages/protvista-track/src/protvista-track.js:18 | a new track has no data, no layout and no drawing |
| TrackComponent.ProtVistaTrack.SetHeight | packages/protvista-track/src/protvista-track.js:30-32 | the height becomes the given value |
| TrackComponent.ProtVistaTrack.ReadAttributes | packages/protvista-track/src/protvista-track.js:40-47 | keeps the track valid and leaves it `Configured`: the highlight bounds and colour/shape come from the attributes, the height from the attribute or 44, and the tooltip event from the attribute if truthy or `mouseover`. The layout is `GetLayout` of the attribute at that height |
| TrackComponent.ProtVistaTrack.ConnectedCallback | packages/protvista-track/src/protvista-track.js:38-59 | reads the attributes as above; its frame leaves data and config alone. With data, the track is drawn afresh; without data, the drawing is untouched |
| TrackComponent.ProtVistaTrack.SetData | packages/protvista-track/src/protvista-track.js:81-84 | the data becomes the given objects, each normalized in place. With a layout (after connection) the track is drawn from them; before connection the setter stops there and the drawing is untouched |
| TrackComponent.ProtVistaTrack.CreateTrack | packages/protvista-track/src/protvista-track.js:115-139 | creates a fresh highlight rectangle of the track's height. Afterwards the records are the flattening of the data, paths and fills are computed from them, and the highlight shows `Highlight` of the bounds |
| TrackComponent.ProtVistaTrack.CreateFeatures | packages/protvista-track/src/protvista-track.js:141-177 | the records become the flattening of the data, with one placement and one fill per record |
| TrackComponent.ProtVistaTrack.Refresh | packages/protvista-track/src/protvista-track.js:249-271 | with a mapper and a drawing, the track is redrawn from the current data; otherwise nothing changes. The rectangle's height is kept |
| TrackComponent.ProtVistaTrack.UpdateHighlight | packages/protvista-track/src/protvista-track.js:272-283 | the rectangle shows `Highlight` of the bounds. A hidden rectangle keeps its old x and width; the height is kept |
| EcoCodes.FindIndex | packages/uniprot-entry-data-adapter/dist/index.js:938 | the index of the first row whose name equals the code; absent exactly when no row matches |
| EcoCodes.FindEco | packages/uniprot-entry-data-adapter/dist/index.js:938 | the lookup finds a row exactly when some row's name equals the code, and the row found is a table row with that name |
| EcoCodes.EcoMapNamesDistinct | packages/uniprot-entry-data-adapter/dist/index.js:857-919 | no two rows of the table share a code |
| EcoCodes.FindIndexOfOwnName | packages/uniprot-entry-data-adapter/dist/index.js:938 | in a table with distinct codes, a row's own code finds that row |
| EcoCodes.FindEcoOfListedCode | packages/uniprot-entry-data-adapter/dist/index.js:857-919 | every code of the adapter's table finds its own row |
| BasicHelper.Renamed | packages/uniprot-entry-data-adapter/dist/index.js:925-928 | a truthy `begin` moves into `start` and `begin` is removed; a record with falsy `begin` is unchanged (both directions); nothing else changes |
| BasicHelper.RenamedIdempotent | packages/uniprot-entry-data-adapter/dist/index.js:924-929 | renaming twice is renaming once |
| BasicHelper.RenameProperties | packages/uniprot-entry-data-adapter/dist/index.js:923-932 | returns the same collection, and every record's new properties are `Renamed` of its old ones, also when a record is listed twice |
| BasicHelper.BlockOpening | packages/uniprot-entry-data-adapter/dist/index.js:940 | the opening of a block: `<p title='…'>` with the row's description, then its short description |
| BasicHelper.SourceLink | packages/uniprot-entry-data-adapter/dist/index.js:942-944 | the link of a source: url, id and name printed as a template literal prints them, `undefined` and `null` included |
| BasicHelper.EvidenceBlock | packages/uniprot-entry-data-adapter/dist/index.js:938-946 | what one evidence appends: nothing without a matching row, else the block of the first matching row with the link when the evidence has a source (stated in `EvidenceBlockCases`) |
| BasicHelper.EvidenceBlockCases | packages/uniprot-entry-data-adapter/dist/index.js:938-946 | an unmatched code gives nothing; a matched code gives one `<p title='…'>…</p>` block from the first matching row, with the source link exactly when the evidence has a source |
| BasicHelper.ListedCodeBlock | packages/uniprot-entry-data-adapter/dist/index.js:938-946 | against the adapter's table, a listed code renders its own row's description and short description |
| BasicHelper.EvidenceHtml | packages/uniprot-entry-data-adapter/dist/index.js:937-947 | the HTML of a list of evidences: their blocks one after the other, in list order |
| BasicHelper.EvidenceFromCodes | packages/uniprot-entry-data-adapter/dist/index.js:934-949 | `undefined` for a falsy list, otherwise the list's HTML; an empty list gives the empty string |
| BasicHelper.EvidenceHtmlAppend | packages/uniprot-entry-data-adapter/dist/index.js:937-947 | the HTML of two lists one after the other is their HTML in order |
| BasicHelper.EvidenceHtmlSnoc | packages/uniprot-entry-data-adapter/dist/index.js:937-947 | one more evidence appends exactly its own block |
| BasicHelper.EvidenceHtmlStep | packages/uniprot-entry-data-adapter/dist/index.js:937-947 | the HTML of the first `i + 1` evidences is that of the first `i` followed by the block of evidence `i` |
| BasicHelper.UnmatchedContributesNothing | packages/uniprot-entry-data-adapter/dist/index.js:938-939 | removing an unmatched evidence anywhere leaves the HTML unchanged |
| BasicHelper.EvidenceHtmlEmptyIff | packages/uniprot-entry-data-adapter/dist/index.js:937-947 | the HTML is empty exactly when no evidence matches a row |
| BasicHelper.AppendEvidence | packages/uniprot-entry-data-adapter/dist/index.js:937-947 | the callback appends exactly the evidence's block to the HTML so far |
| BasicHelper.GetEvidenceFromCodes | packages/uniprot-entry-data-adapter/dist/index.js:934-949 | the result is absent exactly when the list is absent; otherwise it is the blocks of the list's evidences, in order |
| BasicHelper.Slot | packages/uniprot-entry-data-adapter/dist/index.js:955-956 | a slot of the template is empty exactly when its value is falsy, and is a row longer than the value and heading otherwise |
| BasicHelper.FormatTooltip | packages/uniprot-entry-data-adapter/dist/index.js:951-958 | the template with the description and evidence slots filled in; a feature with neither is just the template's text (the slot positions are stated in the lemmas below) |
| BasicHelper.TooltipOpening | packages/uniprot-entry-data-adapter/dist/index.js:951-954 | the tooltip opens with the table's opening text |
| BasicHelper.TooltipDescriptionRow | packages/uniprot-entry-data-adapter/dist/index.js:951-955 | a truthy description's row follows the opening text |
| BasicHelper.TooltipNoDescriptionRow | packages/uniprot-entry-data-adapter/dist/index.js:951-956 | without a truthy description the template's next text follows the opening at once |
| BasicHelper.TooltipEvidenceRow | packages/uniprot-entry-data-adapter/dist/index.js:951-958 | the Evidence row with the HTML follows when the HTML is non-empty; otherwise the closing text follows at once |
| BasicHelper.TooltipIgnoresUnmatchedEvidence | packages/uniprot-entry-data-adapter/dist/index.js:952-956 | a feature whose evidences all have unknown codes gets the tooltip of a feature without evidences |
| BasicHelper.TooltipEmptyDescriptionIsAbsent | packages/uniprot-entry-data-adapter/dist/index.js:955 | an empty description gives the tooltip of an absent one |
| EntryAdapter.Split | packages/uniprot-entry-data-adapter/dist/index.js:971 | splitting yields at least one piece, and no piece contains the separator |
| EntryAdapter.SplitCount | packages/uniprot-entry-data-adapter/dist/index.js:971 | there is one piece more than there are separators |
| EntryAdapter.JoinSplit | packages/uniprot-entry-data-adapter/dist/index.js:971 | joining the pieces with the separator gives back the attribute |
| EntryAdapter.SplitJoin | packages/uniprot-entry-data-adapter/dist/index.js:971 | a non-empty list of separator-free pieces is recovered by splitting its join |
| EntryAdapter.ParseFilters | packages/uniprot-entry-data-adapter/dist/index.js:971 | the filter list is empty exactly when the attribute is falsy. Otherwise it has one filter per comma plus one, and joining it gives back the attribute |
| EntryAdapter.Kept | packages/uniprot-entry-data-adapter/dist/index.js:988 | `filters.includes(d.type)`: the feature has a type and it is one of the filters |
| EntryAdapter.FilterByType | packages/uniprot-entry-data-adapter/dist/index.js:987-989 | every kept feature is from the data and has a listed type, and every such feature of the data is kept |
| EntryAdapter.FilterAppend | packages/uniprot-entry-data-adapter/dist/index.js:987-989 | filtering distributes over concatenation, so the kept features keep their order |
| EntryAdapter.FilterKeepsAll | packages/uniprot-entry-data-adapter/dist/index.js:987-989 | when every feature has a listed type, filtering returns the data itself |
| EntryAdapter.FilterIdempotent | packages/uniprot-entry-data-adapter/dist/index.js:987-989 | filtering twice is filtering once |
| EntryAdapter.ProtVistaUniProtEntryAdapter.constructor | packages/uniprot-entry-data-adapter/dist/index.js:964-968 | a new adapter has no data and no filter list yet |
| EntryAdapter.ProtVistaUniProtEntryAdapter.ConnectedCallback | packages/uniprot-entry-data-adapter/dist/index.js:970-971 | the filter list becomes `ParseFilters` of the `filters` attribute |
| EntryAdapter.ProtVistaUniProtEntryAdapter.ParseEntry | packages/uniprot-entry-data-adapter/dist/index.js:978-983 | the adapted data becomes, and is returned as, the given entry |
| EntryAdapter.ProtVistaUniProtEntryAdapter.FilterData | packages/uniprot-entry-data-adapter/dist/index.js:985-991 | with an empty filter list the data is unchanged; otherwise it becomes the features whose type is listed, in order |

## Left out

- DOM and rendering: d3 selections, SVG and group construction and teardown, element ids and classes, and the `fill` colour of the highlight rectangle. Paths are represented only by the attribute values the track computes for them (`d`, `transform`, `fill`/`stroke`).
- The d3 data join maps records to paths one-to-one, in record order. Keyed joins, the enter and exit selections of later refreshes, and the `g_accession` and location groups are not modelled.
- `NonOverlappingLayout`, `DefaultLayout`, `FeatureShape` and `ConfigHelper` are not part of this model. The layout's `init` and its `getFeatureYPos`/`getFeatureHeight` answers are the parameter `LayoutView`. The shape generator is represented by the arguments passed to it (`ShapeRequest`). The colour and shape tables are the functions in `Config`.
- The `xScale` mapper and the `width` come from the zoomable base class, which is not part of this model. `xScale` is an arbitrary function passed in; `super.connectedCallback()` is not modelled.
- Floating point: pixel values are Dafny reals, and `xScale` of an absent start is `None` instead of `NaN`.
- Attribute parsing: `parseInt` and `getAttribute` are abstracted to optional integers and strings (`Attributes`). A present but unparsable `height` (`NaN` in the source) is not represented.
- `Number.isInteger` is abstracted to `Option<int>`.
- Lower-casing covers ASCII letters only.
- Events and timers: the tooltip `setTimeout` calls, `createTooltip`/`removeAllTooltips`, the click handler, event bubbling, and the `load` listener that sets `data`. Only the `change` payloads are modelled.
- TrackComponent.ProtVistaTrack.SetData: before `connectedCallback`, `_createTrack` throws a `TypeError` on the undefined layout object, after the data has been normalized and stored. The model stops at that point and does not model the exception reaching the caller.
- TrackComponent.ProtVistaTrack.CreateTrack: the mapper is given. The source's `_createFeatures` applies `this.xScale` unconditionally.
- The entry adapter's `_initLoaders`, `_removeChildrenInList` and `_addLoaderListeners` (loader child removal and the `load`/`error` event wiring) are not modelled. The same goes for the `adaptedData` and `basicHelper` getters and the bundled lodash code. `forEach` is modelled as iteration over a sequence.
- BasicHelper.RenameProperties: works on a sequence of records. lodash `forEach` over a non-array object, or over `undefined`, is not modelled.
- EntryAdapter.ProtVistaUniProtEntryAdapter.FilterData: requires the filter list to be set. In the source, calling it before `connectedCallback` throws on the undefined `_filters`.
- TrackFeatures.Fragment, TrackFeatures.FeatureValue: the track's `start` and `end` are integers or absent. String bounds, such as the adapter's `begin`/`start`/`end` may hold (where `"0"` is truthy and a non-numeric string gives `NaN`), and fractional bounds are not modelled.
- UniProtEntry.EntryFeature: only the properties the adapter reads or writes are modelled, plus `end`. `begin`, `start` and `end` may hold a string or an integer; fractional numbers and `NaN` (falsy, so never renamed) are not represented. `delete` is modelled as the property becoming absent.
- EcoCodes.EcoEntry: the automatic-assertion rows have no `isManual` property in the source. They carry `false`, the value an absent property tests as.
