# Heritage at Risk: CSV row to Peripleo feature, in Dafny

This project models the record-to-feature transformation of the two
MicroPasts heritage-at-risk batch scripts. The scripts read one row of Historic England's
"Heritage at Risk" register, parsed into a map from header to cell text.
Each row is either dropped or turned into a GeoJSON `Feature` for the
Peripleo map front end. The surviving features are then collected, in row
order, into a `FeatureCollection`.

- `scripts/transform-har-lp.js` (module `HarLp`) reads human-readable
  headers. It always writes all fifteen description items, adds no
  enrichment, and folds the rows with `reduce` into `{type, features}`.
- `scripts/transform-har-lp-enhanced.js` (module `HarLpEnhanced`) reads
  snake_case headers. It filters the sixteen description fields by
  truthiness and adds Wikidata `types`, `seeAlso` `links` and a Commons
  `depictions` entry. It collects with `map(...).filter(Boolean)` into
  `{type, indexing, features}`.

The shared parts are in these modules:
- `Features`: the output datatypes, column renaming, the Point geometry, the
  description HTML, the enrichment-free core of `buildFeature`, and
  gathering per-row outcomes.
- `JsText`: the JavaScript semantics the scripts rely on. A missing header
  reads as `undefined`. A string is truthy when present and non-empty.
  `undefined` is concatenated as "undefined". `trim` removes ECMAScript
  whitespace and line terminators.
- `Seqs`: one order-preserving selection, `FilterMap`. It stands for
  `reduce` with a conditional `push`, for `map(...).filter(Boolean)` and for
  `filter(...).map(...)`.

Each row's callback has one of three outcomes (`Features.Outcome`): the row
is dropped, a feature is built, or a `TypeError` is thrown. A throw happens
in two places:
- `source.trim()` on a row without a `url` cell;
- `place.trim()` on a row without a county cell but with a non-blank
  longitude.

The source takes no care over either case, so the model represents them
rather than forbidding them. One throw aborts the whole run, so a run is a
`Result` holding the first error.

External calls are parameters of the model, bundled in `Features.Externals`:
- `parseFloat`;
- moment's date formatting and year extraction;
- the Commons thumbnail-URL builder.

The two moment results are typed as non-empty strings. `format()` yields a
date or "Invalid date", and `Number#toString` yields digits or "NaN".
Because of this the `|| null` fallback of `yearListed` can never fire.

Some details of the code are easy to get wrong, and the model keeps them as written:
- The description filter tests plain truthiness and does not trim.
  Whitespace-only cells are listed.
- `links` is always present, possibly as an empty list.
- Links are emitted in the order of the `urls` table, which puts Wikipedia
  before the Commons category.
- The JSDoc of `buildFeature` (transform-har-lp-enhanced.js:174) promises
  "undefined if place and lon are not provided". When the place is undefined
  but the longitude is not blank, the code throws a `TypeError` from
  `place.trim()` instead of returning.

## Model

| member | source | states |
|---|---|---|
| JsText.Trim | scripts/transform-har-lp-enhanced.js:185 | `trim` yields "" exactly when the text is all whitespace. Otherwise it yields the contiguous slice of the input that neither starts nor ends with whitespace, and only whitespace lies outside that slice |
| JsText.TrimOpt | scripts/transform-har-lp-enhanced.js:178 | `v?.trim()` is truthy exactly when `v` is defined and not blank, and is undefined exactly when `v` is |
| JsText.TrimIdempotent | scripts/transform-har-lp-enhanced.js:185 | trimming an already trimmed place changes nothing |
| JsText.Str | scripts/transform-har-lp-enhanced.js:317 | interpolating a cell gives its text, and an absent cell gives exactly "undefined" |
| Seqs.Concat | scripts/transform-har-lp-enhanced.js:318 | `join('')` is empty exactly when every part is empty, and a single part joins to itself; with `ConcatAppend` this fixes the join as each part once, in order |
| Seqs.ConcatAppend | scripts/transform-har-lp-enhanced.js:318 | joining a concatenation of item lists is the concatenation of the joined lists |
| Seqs.FilterMapSelectsInOrder | scripts/transform-har-lp-enhanced.js:152-161 | a conditional-push reduce keeps the image of exactly the elements it accepts. It keeps them at strictly increasing source positions, in source order, with nothing else |
| Seqs.FilterMapAppend | scripts/transform-har-lp-enhanced.js:318 | filtering a concatenation is the concatenation of the filtered parts |
| Seqs.FilterMapKeepsAll | scripts/transform-har-lp-enhanced.js:318 | when every element is accepted, the filter drops nothing and maps pointwise |
| Seqs.FilterMapKeepsNone | scripts/transform-har-lp-enhanced.js:318 | when no element is accepted, the result is empty |
| Features.Renamed | scripts/transform-har-lp-enhanced.js:321-330 | a property is present exactly when its mapped header is in the row, and it then carries that cell's text |
| Features.DescriptionHead | scripts/transform-har-lp.js:76 | the head is exactly "Heritage at Risk Entry: ", the list entry number ("undefined" when that cell is absent), "<br/>", the title, then "<ul>", each at its stated slice |
| Features.DescriptionHtml | scripts/transform-har-lp-enhanced.js:317-319 | the description is the head, then exactly the joined items, then "</ul>" as its last five characters; the trailing `.trim().replace(...)` touches only that literal |
| Features.GetPlace | scripts/transform-har-lp.js:4-12 | the geometry is a Point with exactly two coordinates: parsed longitude first, then parsed latitude |
| Features.BuildFeature | scripts/transform-har-lp.js:14-30 | the row is dropped exactly when place and longitude are both undefined or blank. The call throws exactly when the place is undefined and the longitude is not blank. Otherwise the feature keeps the record's `@id`, type and descriptions. Its properties are the record's with only `place`, the trimmed place, added, and every other key is unchanged. Its geometry is the Point, and it has no depictions, types or links |
| Features.Gather | scripts/transform-har-lp-enhanced.js:281-335 | a run succeeds exactly when no row throws. It then yields the built features, in row order. Otherwise it fails with the error of the first row that throws |
| Features.GatherKeepsOrder | scripts/transform-har-lp-enhanced.js:335 | after a successful run, the features are those of the built outcomes, at strictly increasing row positions, and every built outcome is listed |
| Features.GatherStep | scripts/transform-har-lp.js:35-144 | one more row either keeps the failure, fails with its throw, adds nothing when dropped, or appends its feature |
| HarLpEnhanced.GetTypes | scripts/transform-har-lp-enhanced.js:66-100 | The instance-of type (`wikiInstanceOf` URL, "A Wikidata type: " + `site_sub_type`) comes first exactly when both cells are truthy. The entity type (`wikidataEntityID`, `heritage_category`) comes last exactly when both of those are. There are two types exactly when both pairs qualify (even when the two entries are equal), and no `types` key when neither does |
| HarLpEnhanced.GetDepiction | scripts/transform-har-lp-enhanced.js:109-119 | There is no `depictions` key exactly when `image_path_commons` is falsy. Otherwise there is one depiction whose `@id` and thumbnail are both the Commons URL of "File:" + path at width 800, with the fixed label |
| HarLpEnhanced.GetLinks | scripts/transform-har-lp-enhanced.js:133-164 | there are at most six links |
| HarLpEnhanced.LinksFollowSourceOrder | scripts/transform-har-lp-enhanced.js:134-161 | The links come from exactly the six keys whose cell is truthy, at most one each, in the fixed key order. Each link is the base URL + raw id, "seeAlso", and the prefix + raw id (prefix only for Wikipedia and Commons category) |
| HarLpEnhanced.LinksAreSeeAlso | scripts/transform-har-lp-enhanced.js:152-158 | every link has type "seeAlso", and its identifier is one table base URL followed by that key's raw id |
| HarLpEnhanced.WikipediaBeforeCommonsCategory | scripts/transform-har-lp-enhanced.js:139-140 | when both ids are given, the Wikipedia link precedes the Commons-category link, each with its bare label |
| HarLpEnhanced.ListEntryLinkExample | scripts/transform-har-lp-enhanced.js:134-157 | list entry "1234567" alone gives exactly the link `https://historicengland.org.uk/listing/the-list/list-entry/1234567`, "seeAlso", "Historic England NHLE number 1234567" |
| HarLpEnhanced.DescriptionFieldReads | scripts/transform-har-lp-enhanced.js:298-315 | Field `e` has the `e`-th fixed label and reads its own column. The exception is "First listed", which holds the formatted `list_start_date` when that cell is truthy and null otherwise |
| HarLpEnhanced.DescriptionItemsFollowFieldOrder | scripts/transform-har-lp-enhanced.js:298-319 | The `<li>` items list, in the fixed 16-field order, exactly the fields whose cell is a non-empty string, whitespace-only cells included. Each item is `<li>Label: value</li>`, and "First listed" appears exactly when `list_start_date` is non-empty |
| HarLpEnhanced.DescriptionText | scripts/transform-har-lp-enhanced.js:317-319 | the description is the head built from `list_entry_number` and `name`, then the filtered items joined, then "</ul>" |
| HarLpEnhanced.YearListed | scripts/transform-har-lp-enhanced.js:294-296 | `yearListed` is never empty, a fact assumed from `Number#toString` (the given year function returns non-empty text), so the fallback to null on that line never applies |
| HarLpEnhanced.BuildFeature | scripts/transform-har-lp-enhanced.js:176-198 | it follows the same drop and throw law as the core. A built feature is the core feature with the depiction and types keys of the row added, and a `links` key that is always present. Its only exception is the `place.trim()` TypeError |
| HarLpEnhanced.ProcessRow | scripts/transform-har-lp-enhanced.js:281-334 | The row throws exactly when it has no `url`, or no county but a non-blank `lon`. It is dropped exactly when county and `lon` are blank. Otherwise the feature's `@id` is the trimmed url and its type is "Feature". Its properties are the renamed columns plus `yearListed` and the trimmed county as `place`. It has the one description, the Point, and the links, types and depiction of the row |
| HarLpEnhanced.Transform | scripts/transform-har-lp-enhanced.js:281-341 | the run succeeds exactly when no row throws. The collection then has type "FeatureCollection", the constant dataset indexing, and no more features than rows. Otherwise the run fails with the error of the first row that throws |
| HarLpEnhanced.TransformKeepsRowOrder | scripts/transform-har-lp-enhanced.js:281-341 | the features are the built features of the rows, in row order with no gaps. Row `i` contributes exactly when its county or longitude is non-blank |
| HarLp.DescriptionItems | scripts/transform-har-lp.js:76-92 | the plain description always has fifteen items, with no filtering |
| HarLp.EveryFieldIsListed | scripts/transform-har-lp.js:76-92 | item `i` is `<li>Label: value</li>` for the `i`-th label, showing the cell as it is (even empty), or "undefined" when the row lacks that column |
| HarLp.DescriptionText | scripts/transform-har-lp.js:76-92 | the description is the head built from "List entry number" and `name`, then the fifteen items joined, then "</ul>" |
| HarLp.ItemsAreEnhancedFieldsWithoutFirstListed | scripts/transform-har-lp.js:76-92 | the fifteen labels are the enriched script's sixteen with "First listed" removed, in the same order |
| HarLp.FullRowsDescribeAlike | scripts/transform-har-lp.js:76-92 | when every listed cell is non-empty and no `list_start_date` is given, the plain and enriched scripts write the same items |
| HarLp.LinkGateIsAlwaysOpen | scripts/transform-har-lp.js:137-141 | `listEntryNumber + '-HAR2024'` is never empty after trimming, so the gate before `buildFeature` never drops a row |
| HarLp.ProcessRow | scripts/transform-har-lp.js:35-141 | The row throws exactly when it has no `url`, or no County but a non-blank `lon`. It is dropped exactly when County and `lon` are blank. Otherwise the feature carries the trimmed url, the renamed columns plus the trimmed County as `place`, the fifteen-item description and the Point, with no enrichment |
| HarLp.Fold | scripts/transform-har-lp.js:35-144 | the `reduce` over the row outcomes, with `[...all, ...features]` as its step, yields exactly what gathering the outcomes in order yields |
| HarLp.Transform | scripts/transform-har-lp.js:35-149 | the `reduce` over the rows agrees with gathering the row outcomes in order. On success the collection has type "FeatureCollection", no indexing, and exactly the gathered features. On failure it has the first error |
| HarLp.GatherStopsAtFirstThrow | scripts/transform-har-lp.js:35-144 | once some prefix of the rows has thrown, the whole run ends with that error |

## Left out

- Reading the CSV file, writing the JSON file and pretty-printing with `JSON.stringify`: these are I/O. The order of keys in the serialised objects is not modelled, because properties are a map.
- CSV parsing with PapaParse: a foreign library. The model takes the parsed rows, each a map from header to text.
- `parseFloat`: floating point. It is a given function from a cell (or `undefined`) to a number, and `NaN` coordinates are kept as the code keeps them.
- `moment` date formatting and year extraction: a foreign, lenient library. Both are given functions, with results typed as non-empty strings. For an absent `list_start_date`, `formatDate` yields whatever the given function returns for `undefined`.
- The `wikimedia-commons-file-path` thumbnail builder: a foreign call, given as a function of file name and width.
- `console.log` diagnostics in both scripts.
- Properties whose value is `undefined` are omitted from the property maps. The serialised output omits them, so the model does too.
- HarLpEnhanced.GetTypes: the `reduce` that copies each type into the `types` array is modelled as the array itself.
- HarLp.DescriptionItems: its contract states only the item count. The text of each item is stated by `EveryFieldIsListed`.
- `peripleo/src/tutorial/Welcome.jsx`: a React overlay with DOM and localStorage side effects, outside the transformation.
