/** The enriched transform (`transform-har-lp-enhanced.js`): snake_case
    headers, a filtered description, Wikidata types, seeAlso links, a Commons
    depiction, and a collection carrying dataset metadata. */
module HarLpEnhanced {
  import opened Wrappers
  import opened JsText
  import opened Seqs
  import opened Features

  /** `getIndexing()`. */
  const DatasetIndexing: Indexing := Indexing(
    "https://schema.org/",
    "Dataset",
    "Heritage-at-Risk - Historic England",
    "An enriched dataset of Heritage at Risk entries in England",
    "https://www.nationalarchives.gov.uk/doc/open-government-licence/version/3/",
    "https://www.planning.data.gov.uk/dataset/heritage-at-risk")

  const WikidataBase := "https://www.wikidata.org/wiki/"
  const TypePrefix := "A Wikidata type: "

  /** `getTypes(row)`: an instance-of type when `wikiInstanceOf` and
      `site_sub_type` are both truthy, then an entity type when
      `wikidataEntityID` and `heritage_category` are; no `types` key when
      neither pair qualifies. */
  function GetTypes(row: Row): (r: Option<seq<TypeRef>>)
    ensures r.None? <==>
              !(Truthy(Get(row, "wikiInstanceOf")) && Truthy(Get(row, "site_sub_type")))
              && !(Truthy(Get(row, "wikidataEntityID")) && Truthy(Get(row, "heritage_category")))
    ensures r.Some? ==> 1 <= |r.value| <= 2
    ensures Truthy(Get(row, "wikiInstanceOf")) && Truthy(Get(row, "site_sub_type")) ==>
              r.Some? && r.value[0] == TypeRef(
                WikidataBase + row["wikiInstanceOf"], TypePrefix + row["site_sub_type"])
    ensures Truthy(Get(row, "wikidataEntityID")) && Truthy(Get(row, "heritage_category")) ==>
              r.Some? && r.value[|r.value| - 1] == TypeRef(
                WikidataBase + row["wikidataEntityID"], TypePrefix + row["heritage_category"])
    ensures Truthy(Get(row, "wikiInstanceOf")) && Truthy(Get(row, "site_sub_type"))
            && Truthy(Get(row, "wikidataEntityID")) && Truthy(Get(row, "heritage_category")) ==>
              r.Some? && |r.value| == 2
    ensures r.Some? && |r.value| == 2 ==>
              Truthy(Get(row, "wikiInstanceOf")) && Truthy(Get(row, "site_sub_type"))
              && Truthy(Get(row, "wikidataEntityID")) && Truthy(Get(row, "heritage_category"))
  {
    var instanceOf := Get(row, "wikiInstanceOf");
    var entity := Get(row, "wikidataEntityID");
    var subType := Get(row, "site_sub_type");
    var category := Get(row, "heritage_category");
    var types :=
      (if Truthy(instanceOf) && Truthy(subType)
       then [TypeRef(WikidataBase + instanceOf.value, TypePrefix + subType.value)] else [])
      + (if Truthy(entity) && Truthy(category)
         then [TypeRef(WikidataBase + entity.value, TypePrefix + category.value)] else []);
    if |types| == 0 then None else Some(types)
  }

  const DepictionCaption := "A depiction of the heritage site sourced via Wikimedia Commons"
  const ThumbnailWidth: nat := 800

  /** `getDepiction(row)`: one depiction whose `@id` and thumbnail are the
      Commons URL of "File:" + `image_path_commons` at 800 pixels; no
      `depictions` key when the image path is falsy. */
  function GetDepiction(row: Row, ext: Externals): (r: Option<seq<Depiction>>)
    ensures r.None? <==> !Truthy(Get(row, "image_path_commons"))
    ensures r.Some? ==>
              var url := ext.commonsFilePath("File:" + row["image_path_commons"], 800);
              r.value == [Depiction(url, url, DepictionCaption)]
  {
    var path := Get(row, "image_path_commons");
    if !Truthy(path) then None
    else
      var url := ext.commonsFilePath("File:" + path.value, ThumbnailWidth);
      Some([Depiction(url, url, DepictionCaption)])
  }

  /** One entry of the `urls`/`labels` tables of `getLinks`. */
  datatype LinkSource = LinkSource(key: string, base: string, prefix: string)

  /** The link sources in `Object.keys(urls)` order. */
  const LinkSources: seq<LinkSource> := [
    LinkSource("churchnearyouID", "https://www.achurchnearyou.com/church/", "A Church Near You entry "),
    LinkSource("britishListedBuildingID", "https://britishlistedbuildings.co.uk/", "British Listed Building entry "),
    LinkSource("wikidata", "https://www.wikidata.org/wiki/", "Wikidata entity "),
    LinkSource("list_entry_number", "https://historicengland.org.uk/listing/the-list/list-entry/", "Historic England NHLE number "),
    LinkSource("wikipediaENID", "https://en.wikipedia.org/wiki/", "Wikipedia (English)"),
    LinkSource("wikicommonsCategoryID", "https://commons.wikimedia.org/wiki/", "Wikimedia Commons Category")
  ]

  /** The Wikipedia and Commons-category labels do not repeat the id. */
  predicate LabelRepeatsId(key: string)
  {
    key != "wikipediaENID" && key != "wikicommonsCategoryID"
  }

  function MakeLink(src: LinkSource, id: string): Link
  {
    Link(src.base + id, "seeAlso", src.prefix + (if LabelRepeatsId(src.key) then id else ""))
  }

  /** The reducer step of `getLinks` for one key. */
  function LinkFor(row: Row, src: LinkSource): Option<Link>
  {
    if Truthy(Get(row, src.key)) then Some(MakeLink(src, row[src.key])) else None
  }

  /** `getLinks(row).links`: the `links` key is always present. */
  function GetLinks(row: Row): (links: seq<Link>)
    ensures |links| <= |LinkSources|
  {
    FilterMap(src => LinkFor(row, src), LinkSources)
  }

  /** Positions in `LinkSources` of the links `GetLinks` emits. */
  function LinkSourceIndices(row: Row): seq<nat>
  {
    KeptIndices(src => LinkFor(row, src), LinkSources)
  }

  /** The links are the seeAlso links of exactly the sources whose cell is
      truthy, at most one per source, in source-table order. */
  lemma LinksFollowSourceOrder(row: Row)
    ensures var links, ix := GetLinks(row), LinkSourceIndices(row);
      && |ix| == |links| <= 6
      && (forall j :: 0 <= j < |ix| ==>
            ix[j] < 6 && LinkSources[ix[j]].key in row
            && links[j] == MakeLink(LinkSources[ix[j]], row[LinkSources[ix[j]].key]))
      && (forall j, k :: 0 <= j < k < |ix| ==> ix[j] < ix[k])
      && (forall i :: 0 <= i < 6 ==> (i in ix <==> Truthy(Get(row, LinkSources[i].key))))
  {
    var f := src => LinkFor(row, src);
    FilterMapSelectsInOrder(f, LinkSources);
  }

  /** Every link is of type seeAlso, its identifier is a table base URL
      followed by the raw id, and its label a table prefix. */
  lemma LinksAreSeeAlso(row: Row)
    ensures forall l :: l in GetLinks(row) ==>
              && l.kind == "seeAlso"
              && (exists i :: 0 <= i < 6 && LinkSources[i].key in row
                   && l.identifier == LinkSources[i].base + row[LinkSources[i].key])
  {
    LinksFollowSourceOrder(row);
    var links, ix := GetLinks(row), LinkSourceIndices(row);
    forall l | l in links
      ensures l.kind == "seeAlso"
      ensures exists i :: 0 <= i < 6 && LinkSources[i].key in row
                 && l.identifier == LinkSources[i].base + row[LinkSources[i].key]
    {
      var j :| 0 <= j < |links| && links[j] == l;
      assert l.identifier == LinkSources[ix[j]].base + row[LinkSources[ix[j]].key];
    }
  }

  /** When both are given, the Wikipedia link comes before the Commons-category link. */
  lemma WikipediaBeforeCommonsCategory(row: Row)
    requires Truthy(Get(row, "wikipediaENID")) && Truthy(Get(row, "wikicommonsCategoryID"))
    ensures exists j, k :: 0 <= j < k < |GetLinks(row)|
              && GetLinks(row)[j] == Link(
                   "https://en.wikipedia.org/wiki/" + row["wikipediaENID"], "seeAlso", "Wikipedia (English)")
              && GetLinks(row)[k] == Link(
                   "https://commons.wikimedia.org/wiki/" + row["wikicommonsCategoryID"], "seeAlso",
                   "Wikimedia Commons Category")
  {
    LinksFollowSourceOrder(row);
    var links, ix := GetLinks(row), LinkSourceIndices(row);
    assert 4 in ix && 5 in ix;
    var j :| 0 <= j < |ix| && ix[j] == 4;
    var k :| 0 <= k < |ix| && ix[k] == 5;
    assert j < k;
  }

  /** The Historic England list-entry link of the documentation's example. */
  lemma ListEntryLinkExample(row: Row)
    requires row == map["list_entry_number" := "1234567"]
    ensures GetLinks(row) == [Link(
              "https://historicengland.org.uk/listing/the-list/list-entry/1234567", "seeAlso",
              "Historic England NHLE number 1234567")]
  {
    var f := src => LinkFor(row, src);
    var before, entry, after := LinkSources[..3], LinkSources[3], LinkSources[4..];
    assert LinkSources == before + ([entry] + after);
    FilterMapAppend(f, before, [entry] + after);
    FilterMapAppend(f, [entry], after);
    FilterMapKeepsNone(f, before);
    FilterMapKeepsNone(f, after);
    assert [entry][..0] == [];
    assert FilterMap(f, [entry]) == [MakeLink(entry, "1234567")];
    assert LabelRepeatsId("list_entry_number");
    assert "https://historicengland.org.uk/listing/the-list/list-entry/" + "1234567"
        == "https://historicengland.org.uk/listing/the-list/list-entry/1234567";
    assert "Historic England NHLE number " + "1234567" == "Historic England NHLE number 1234567";
  }

  /** One candidate line of the description: `{label, value}`; a `null`
      value is `None`. */
  datatype Field = Field(caption: string, value: Option<string>)

  /** The labels of the sixteen description fields, in order. */
  const FieldCaptions: seq<string> := [
    "Entry date", "First listed", "Assessment type", "Condition", "Principal vulnerability",
    "Trend", "Ownership", "Unitary authority", "Building name", "Occupancy or use",
    "Priority", "Priority comment", "Previous priority", "Designation", "Locality",
    "List entry numbers"
  ]

  /** The header each field reads; "First listed" shows the formatted
      `list_start_date`. */
  const FieldColumns: seq<string> := [
    "entry_date", "list_start_date", "assessment_type", "condition", "principal_vunerability",
    "trend", "ownership", "unitary_authority", "building_name", "occupancy_or_use",
    "priority", "priority_comment", "previous_priority", "designation", "locality",
    "list_entry_numbers"
  ]

  const FirstListed := 1

  /** The `fields` array built for each row. */
  function DescriptionFields(row: Row, ext: Externals): (fields: seq<Field>)
    ensures |fields| == 16
  {
    var listed := Get(row, "list_start_date");
    seq(16, i requires 0 <= i < 16 =>
      Field(FieldCaptions[i],
            if i == FirstListed then (if Truthy(listed) then Some(ext.formatDate(listed)) else None)
            else Get(row, FieldColumns[i])))
  }

  /** Field `e` reads its own column, except "First listed", which shows the
      formatted `list_start_date` only when that cell is truthy. */
  lemma DescriptionFieldReads(row: Row, ext: Externals, e: nat)
    requires e < 16
    ensures DescriptionFields(row, ext)[e].caption == FieldCaptions[e]
    ensures e != FirstListed ==> DescriptionFields(row, ext)[e].value == Get(row, FieldColumns[e])
    ensures e == FirstListed ==>
              DescriptionFields(row, ext)[e].value ==
                if Truthy(Get(row, "list_start_date")) then Some(ext.formatDate(Get(row, "list_start_date")))
                else None
  {
  }

  /** `field.value ? <li>…</li> : dropped` — plain truthiness, no trimming. */
  function ItemFor(field: Field): Option<string>
  {
    if Truthy(field.value) then Some(ListItem(field.caption, field.value.value)) else None
  }

  function DescriptionItems(row: Row, ext: Externals): seq<string>
  {
    FilterMap(ItemFor, DescriptionFields(row, ext))
  }

  function DescriptionItemIndices(row: Row, ext: Externals): seq<nat>
  {
    KeptIndices(ItemFor, DescriptionFields(row, ext))
  }

  /** The description HTML.  The trailing `.trim().replace(…)` binds to the
      literal '</ul>' only, so the values are left as they are. */
  function DescriptionText(row: Row, ext: Externals): (text: string)
    ensures var head := DescriptionHead(Get(row, "list_entry_number"), Get(row, "name"));
      && |text| == |head| + |Concat(DescriptionItems(row, ext))| + 5
      && text[..|head|] == head
      && text[|head|..|text| - 5] == Concat(DescriptionItems(row, ext))
      && text[|text| - 5..] == "</ul>"
  {
    DescriptionHtml(Get(row, "list_entry_number"), Get(row, "name"), DescriptionItems(row, ext))
  }

  /** The description lists, in field order, the `<li>` item of exactly the
      fields whose cell is a non-empty string (whitespace-only cells
      included); "First listed" appears exactly when `list_start_date` is. */
  lemma DescriptionItemsFollowFieldOrder(row: Row, ext: Externals)
    ensures var items, ix := DescriptionItems(row, ext), DescriptionItemIndices(row, ext);
      && |ix| == |items| <= 16
      && (forall j, k :: 0 <= j < k < |ix| ==> ix[j] < ix[k])
      && (forall j :: 0 <= j < |ix| && ix[j] != FirstListed ==>
            ix[j] < 16 && FieldColumns[ix[j]] in row
            && items[j] == ListItem(FieldCaptions[ix[j]], row[FieldColumns[ix[j]]]))
      && (forall j :: 0 <= j < |ix| && ix[j] == FirstListed ==>
            "list_start_date" in row
            && items[j] == ListItem("First listed", ext.formatDate(Get(row, "list_start_date"))))
      && (forall i :: 0 <= i < 16 && i != FirstListed ==>
            (i in ix <==> FieldColumns[i] in row && row[FieldColumns[i]] != ""))
      && (FirstListed in ix <==> Truthy(Get(row, "list_start_date")))
  {
    FilterMapSelectsInOrder(ItemFor, DescriptionFields(row, ext));
    DescriptionFieldReads(row, ext, FirstListed);
  }

  /** The record properties: every renamed column the row has, plus
      `yearListed`. */
  const PropertyColumns: map<string, string> := map[
    "title" := "name", "source" := "url", "listEntryNumber" := "list_entry_number",
    "heritageCategory" := "heritage_category", "localPlanningAuthority" := "local_planning_authority",
    "siteType" := "site_type", "siteSubType" := "site_sub_type", "county" := "county",
    "districtOrBorough" := "district_or_borough", "parish" := "parish",
    "parliamentaryConstituency" := "parliamentary_constituency", "region" := "region",
    "assessmentType" := "assessment_type", "condition" := "condition",
    "principalVunerability" := "principal_vunerability", "trend" := "trend",
    "ownership" := "ownership", "unitaryAuthority" := "unitary_authority",
    "buildingName" := "building_name", "occupancyOrUse" := "occupancy_or_use",
    "priority" := "priority", "priorityComment" := "priority_comment",
    "previousPriority" := "previous_priority", "designation" := "designation",
    "locality" := "locality", "listEntryNumbers" := "list_entry_numbers",
    "nationalPark" := "national_park", "streetName" := "street_name",
    "vulnerability" := "vulnerability", "endDate" := "end_date", "entity" := "entity",
    "entryDate" := "entry_date", "wikicommonsCategoryID" := "wikicommonsCategoryID",
    "wikipediaENID" := "wikipediaENID", "wikiInstanceOf" := "wikiInstanceOf",
    "wikidataEntityID" := "wikidataEntityID"
  ]

  /** `yearListed`: the year of the re-parsed display date. */
  function YearListed(row: Row, ext: Externals): (year: string)
    ensures year != ""
  {
    ext.yearOf(ext.formatDate(Get(row, "list_start_date")))
  }

  function RecordProperties(row: Row, ext: Externals): map<string, string>
  {
    Renamed(PropertyColumns, row)["yearListed" := YearListed(row, ext)]
  }

  /** `buildFeature(record, place, lon, lat, row)`: the core feature, then
      the depiction, types and links keys spread in. */
  function BuildFeature(
    record: Record, place: Option<string>, lon: Option<string>, lat: Option<string>,
    row: Row, ext: Externals)
    : (r: Outcome)
    ensures r.Dropped? <==> Blank(place) && Blank(lon)
    ensures r.Threw? <==> place.None? && !Blank(lon)
    ensures r.Threw? ==> r.error == TrimOfUndefined("place")
    ensures r.Built? ==>
              && r.feature.links == Some(GetLinks(row))
              && r.feature.types == GetTypes(row)
              && r.feature.depictions == GetDepiction(row, ext)
              && Features.BuildFeature(record, place, lon, lat, ext)
                 == Built(r.feature.(depictions := None, types := None, links := None))
  {
    match Features.BuildFeature(record, place, lon, lat, ext)
    case Built(f) =>
      Built(f.(depictions := GetDepiction(row, ext), types := GetTypes(row), links := Some(GetLinks(row))))
    case other => other
  }

  /** The `records.data.map` callback for one row: `source.trim()` throws
      when the row has no `url`; the place is the county. */
  function ProcessRow(row: Row, ext: Externals): (r: Outcome)
    ensures r.Threw? <==> "url" !in row || ("county" !in row && !Blank(Get(row, "lon")))
    ensures "url" !in row ==> r == Threw(TrimOfUndefined("source"))
    ensures r.Dropped? <==> "url" in row && Blank(Get(row, "county")) && Blank(Get(row, "lon"))
    ensures r.Built? ==>
              && "url" in row && "county" in row
              && r.feature.id == Trim(row["url"])
              && r.feature.kind == "Feature"
              && r.feature.properties == RecordProperties(row, ext)["place" := Trim(row["county"])]
              && r.feature.descriptions == [Description(DescriptionText(row, ext))]
              && r.feature.geometry == GetPlace(Get(row, "lon"), Get(row, "lat"), ext)
              && r.feature.links == Some(GetLinks(row))
              && r.feature.types == GetTypes(row)
              && r.feature.depictions == GetDepiction(row, ext)
  {
    if "url" !in row then Threw(TrimOfUndefined("source"))
    else
      var record := Record(
        Trim(row["url"]), "Feature", RecordProperties(row, ext), [Description(DescriptionText(row, ext))]);
      BuildFeature(record, Get(row, "county"), Get(row, "lon"), Get(row, "lat"), row, ext)
  }

  /** The outcome of each row, in row order. */
  function ProcessRows(rows: seq<Row>, ext: Externals): (outs: seq<Outcome>)
    ensures |outs| == |rows|
    ensures forall i :: 0 <= i < |rows| ==> outs[i] == ProcessRow(rows[i], ext)
  {
    seq(|rows|, i requires 0 <= i < |rows| => ProcessRow(rows[i], ext))
  }

  /** The whole run: `map(...).filter(Boolean)` into a collection with the
      dataset indexing; an exception in any row aborts it. */
  function Transform(rows: seq<Row>, ext: Externals): (r: Result<FeatureCollection, JsError>)
    ensures r.Success? <==> forall i :: 0 <= i < |rows| ==> !ProcessRow(rows[i], ext).Threw?
    ensures r.Success? ==>
              && r.value.kind == "FeatureCollection"
              && r.value.indexing == Some(DatasetIndexing)
              && |r.value.features| <= |rows|
    ensures r.Failure? ==> Gather(ProcessRows(rows, ext)) == Failure(r.error)
  {
    match Gather(ProcessRows(rows, ext))
    case Success(fs) => Success(FeatureCollection("FeatureCollection", Some(DatasetIndexing), fs))
    case Failure(e) => Failure(e)
  }

  /** The features of a successful run are the built features of the rows
      that were not dropped, in row order, with no gaps: row `i` contributes
      exactly when its county or longitude is non-blank. */
  lemma TransformKeepsRowOrder(rows: seq<Row>, ext: Externals)
    ensures Transform(rows, ext).Success? ==>
      var fs, ix := Transform(rows, ext).value.features, KeptIndices(AsFeature, ProcessRows(rows, ext));
      && |ix| == |fs|
      && (forall j, k :: 0 <= j < k < |ix| ==> ix[j] < ix[k])
      && (forall j :: 0 <= j < |ix| ==> ix[j] < |rows| && ProcessRow(rows[ix[j]], ext) == Built(fs[j]))
      && (forall i :: 0 <= i < |rows| ==>
            (i in ix <==> !(Blank(Get(rows[i], "county")) && Blank(Get(rows[i], "lon")))))
  {
    GatherKeepsOrder(ProcessRows(rows, ext));
  }
}
