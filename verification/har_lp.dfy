/** The plain transform (`transform-har-lp.js`): human-readable headers, an
    unfiltered description, no enrichment, and a `reduce` over the rows into
    a collection without dataset metadata. */
module HarLp {
  import opened Wrappers
  import opened JsText
  import opened Seqs
  import opened Features
  import HarLpEnhanced

  /** The record properties, by the header each reads. */
  const PropertyColumns: map<string, string> := map[
    "title" := "name", "source" := "url", "listEntryNumber" := "List entry number",
    "designatedSiteName" := "Designated.Site.Name", "heritageCategory" := "Heritage.Category",
    "localPlanningAuthority" := "Local planning authority", "siteType" := "Site type",
    "siteSubType" := "Site sub type", "county" := "County",
    "districtOrBorough" := "District or borough", "parish" := "Parish",
    "parliamentaryConstituency" := "Parliamentary Constituency", "region" := "Region",
    "assessmentType" := "Assessment Type", "condition" := "Condition",
    "principalVunerability" := "Principal Vunerability", "trend" := "Trend",
    "ownership" := "Ownership", "unitaryAuthority" := "Unitary Authority",
    "buildingName" := "Building name", "occupancyOrUse" := "Occupancy or use",
    "priority" := "Priority", "priorityComment" := "Priority comment",
    "previousPriority" := "Previous priority", "designation" := "Designation",
    "locality" := "Locality", "listEntryNumbers" := "List entry numbers",
    "nationalPark" := "National park", "streetName" := "Street name",
    "vulnerability" := "Vulnerability", "endDate" := "end date", "entity" := "entity",
    "entryDate" := "entry date"
  ]

  /** The fifteen description items, in order. */
  const ItemCaptions: seq<string> := [
    "Entry date", "Assessment type", "Condition", "Principal vulnerability", "Trend",
    "Ownership", "Unitary authority", "Building name", "Occupancy or use", "Priority",
    "Priority comment", "Previous priority", "Designation", "Locality", "List entry numbers"
  ]

  const ItemColumns: seq<string> := [
    "entry date", "Assessment Type", "Condition", "Principal Vunerability", "Trend",
    "Ownership", "Unitary Authority", "Building name", "Occupancy or use", "Priority",
    "Priority comment", "Previous priority", "Designation", "Locality", "List entry numbers"
  ]

  /** The `<li>` items, one per field whatever its value: an absent cell
      is concatenated as "undefined". */
  function DescriptionItems(row: Row): (items: seq<string>)
    ensures |items| == 15
  {
    seq(15, i requires 0 <= i < 15 => ListItem(ItemCaptions[i], Str(Get(row, ItemColumns[i]))))
  }

  function DescriptionText(row: Row): (text: string)
    ensures var head := DescriptionHead(Get(row, "List entry number"), Get(row, "name"));
      && |text| == |head| + |Concat(DescriptionItems(row))| + 5
      && text[..|head|] == head
      && text[|head|..|text| - 5] == Concat(DescriptionItems(row))
      && text[|text| - 5..] == "</ul>"
  {
    DescriptionHtml(Get(row, "List entry number"), Get(row, "name"), DescriptionItems(row))
  }

  /** Every field gets its item whatever its cell: a present cell is shown
      as it is, even when empty, and an absent one as "undefined". */
  lemma EveryFieldIsListed(row: Row, i: nat)
    requires i < 15
    ensures ItemColumns[i] !in row ==>
              DescriptionItems(row)[i] == ListItem(ItemCaptions[i], "undefined")
    ensures ItemColumns[i] in row ==>
              DescriptionItems(row)[i] == ListItem(ItemCaptions[i], row[ItemColumns[i]])
  {
  }

  /** The items are exactly those of the enriched description with
      "First listed" taken out, shown unconditionally. */
  lemma ItemsAreEnhancedFieldsWithoutFirstListed()
    ensures ItemCaptions == HarLpEnhanced.FieldCaptions[..1] + HarLpEnhanced.FieldCaptions[2..]
  {
  }

  /** Where every field the plain script lists is a non-empty string, and no
      `list_start_date` is given, both scripts list the same `<li>` items. */
  lemma FullRowsDescribeAlike(enriched: Row, plain: Row, ext: Externals)
    requires !Truthy(Get(enriched, "list_start_date"))
    requires forall e :: 0 <= e < 16 && e != HarLpEnhanced.FirstListed ==>
               && Truthy(Get(enriched, HarLpEnhanced.FieldColumns[e]))
               && Get(plain, ItemColumns[if e == 0 then 0 else e - 1]) == Get(enriched, HarLpEnhanced.FieldColumns[e])
    ensures HarLpEnhanced.DescriptionItems(enriched, ext) == DescriptionItems(plain)
  {
    var fields := HarLpEnhanced.DescriptionFields(enriched, ext);
    var f := HarLpEnhanced.ItemFor;
    var head, listed, tail := fields[..1], fields[1], fields[2..];
    assert fields == head + ([listed] + tail);
    FilterMapAppend(f, head, [listed] + tail);
    FilterMapAppend(f, [listed], tail);
    HarLpEnhanced.DescriptionFieldReads(enriched, ext, 1);
    FilterMapKeepsNone(f, [listed]);
    var kept := head + tail;
    assert HarLpEnhanced.DescriptionItems(enriched, ext) == FilterMap(f, head) + FilterMap(f, tail);
    FilterMapAppend(f, head, tail);
    ItemsAreEnhancedFieldsWithoutFirstListed();
    forall i | 0 <= i < 15
      ensures kept[i] == HarLpEnhanced.Field(ItemCaptions[i], Get(plain, ItemColumns[i]))
      ensures f(kept[i]).Some?
    {
      var e := if i == 0 then 0 else i + 1;
      HarLpEnhanced.DescriptionFieldReads(enriched, ext, e);
      assert kept[i] == fields[e];
      assert ItemCaptions[i] == HarLpEnhanced.FieldCaptions[e];
    }
    FilterMapKeepsAll(f, kept);
  }

  /** `listEntryNumber + '-HAR2024'`: the gate the plain script puts in
      front of `buildFeature`. */
  function LinkGate(row: Row): string
  {
    Str(Get(row, "List entry number")) + "-HAR2024"
  }

  /** The gate never closes: its text ends in a visible suffix. */
  lemma LinkGateIsAlwaysOpen(row: Row)
    ensures Trim(LinkGate(row)) != ""
  {
    var gate := LinkGate(row);
    TrimKeepsVisibleText(gate, |gate| - 1);
  }

  /** The `reduce` callback for one row: `source.trim()` throws when the row
      has no `url`; then the gated `buildFeature`, placed at the county. */
  function ProcessRow(row: Row, ext: Externals): (r: Outcome)
    ensures r.Threw? <==> "url" !in row || ("County" !in row && !Blank(Get(row, "lon")))
    ensures "url" !in row ==> r == Threw(TrimOfUndefined("source"))
    ensures r.Dropped? <==> "url" in row && Blank(Get(row, "County")) && Blank(Get(row, "lon"))
    ensures r.Built? ==>
              && "url" in row && "County" in row
              && r.feature.id == Trim(row["url"])
              && r.feature.kind == "Feature"
              && r.feature.properties == Renamed(PropertyColumns, row)["place" := Trim(row["County"])]
              && r.feature.descriptions == [Description(DescriptionText(row))]
              && r.feature.geometry == GetPlace(Get(row, "lon"), Get(row, "lat"), ext)
              && r.feature.links.None? && r.feature.types.None? && r.feature.depictions.None?
  {
    if "url" !in row then Threw(TrimOfUndefined("source"))
    else
      var record := Record(
        Trim(row["url"]), "Feature", Renamed(PropertyColumns, row), [Description(DescriptionText(row))]);
      LinkGateIsAlwaysOpen(row);
      if Trim(LinkGate(row)) != "" then
        Features.BuildFeature(record, Get(row, "County"), Get(row, "lon"), Get(row, "lat"), ext)
      else Dropped
  }

  /** The outcome of each row, in row order. */
  function ProcessRows(rows: seq<Row>, ext: Externals): (outs: seq<Outcome>)
    ensures |outs| == |rows|
    ensures forall i :: 0 <= i < |rows| ==> outs[i] == ProcessRow(rows[i], ext)
  {
    seq(|rows|, i requires 0 <= i < |rows| => ProcessRow(rows[i], ext))
  }

  /** The `reduce((all, row) => [...all, ...features], [])` over the
      per-row outcomes: an exception stops the fold, a dropped row adds
      nothing, a built feature is appended. */
  method Fold(outs: seq<Outcome>) returns (r: Result<seq<Feature>, JsError>)
    ensures r == Gather(outs)
  {
    var all: seq<Feature> := [];
    var i := 0;
    while i < |outs|
      invariant 0 <= i <= |outs|
      invariant Gather(outs[..i]) == Success(all)
    {
      GatherStep(outs, i);
      match outs[i] {
        case Threw(e) =>
          GatherStopsAtFirstThrow(outs, i + 1);
          return Failure(e);
        case Dropped =>
        case Built(f) =>
          all := all + [f];
      }
      i := i + 1;
    }
    assert outs[..i] == outs;
    return Success(all);
  }

  /** The whole run as the script writes it: the fold, then `{type, features}`. */
  method Transform(rows: seq<Row>, ext: Externals) returns (r: Result<FeatureCollection, JsError>)
    ensures r.Success? <==> forall i :: 0 <= i < |rows| ==> !ProcessRow(rows[i], ext).Threw?
    ensures r.Success? ==>
              && r.value.kind == "FeatureCollection"
              && r.value.indexing.None?
              && Gather(ProcessRows(rows, ext)) == Success(r.value.features)
    ensures r.Failure? ==> Gather(ProcessRows(rows, ext)) == Failure(r.error)
  {
    var folded := Fold(ProcessRows(rows, ext));
    match folded {
      case Success(fs) => r := Success(FeatureCollection("FeatureCollection", None, fs));
      case Failure(e) => r := Failure(e);
    }
  }

  /** Once a prefix of the outcomes fails, the whole run fails the same way. */
  lemma {:induction false} GatherStopsAtFirstThrow(outs: seq<Outcome>, n: nat)
    requires n <= |outs| && Gather(outs[..n]).Failure?
    ensures Gather(outs) == Gather(outs[..n])
    decreases |outs| - n
  {
    if n < |outs| {
      assert outs[..n + 1][..n] == outs[..n];
      GatherStopsAtFirstThrow(outs, n + 1);
    } else {
      assert outs[..n] == outs;
    }
  }
}
