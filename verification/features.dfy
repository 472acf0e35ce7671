/** The Peripleo-flavoured GeoJSON the scripts emit, and the parts both
    scripts share: renaming CSV columns into properties, the Point geometry,
    the `<li>` HTML of descriptions, the core of `buildFeature`, and gathering
    the per-row results of a run into its feature list. */
module Features {
  import opened Wrappers
  import opened JsText
  import opened Seqs

  /** A JavaScript number as produced by `parseFloat`. */
  datatype Number = Finite(value: real) | NaN | Infinity(negative: bool)

  type NonEmptyString = s: string | s != "" witness "?"

  /** The libraries and built-ins the scripts call, taken as given functions.
      - parseFloat: the built-in, of a cell or of `undefined`;
      - formatDate: `moment(d, "YYYY-MM-DD").format("DD/MM/YYYY")`, which is
        a date or "Invalid date", never empty;
      - yearOf: `moment(d, "DD/MM/YYYY").year().toString()`, the decimal
        text of a number ("NaN" on failure), never empty;
      - commonsFilePath: the `wikimedia-commons-file-path` thumbnail URL
        builder, of a file name and a pixel width. */
  datatype Externals = Externals(
    parseFloat: Option<string> -> Number,
    formatDate: Option<string> -> NonEmptyString,
    yearOf: string -> NonEmptyString,
    commonsFilePath: (string, nat) -> string)

  /** `{type: "Point", coordinates}`. */
  datatype Geometry = Point(coordinates: seq<Number>)

  datatype Description = Description(value: string)

  /** `{identifier, type, label}`; `type` is always "seeAlso" (`label` is a Dafny keyword, hence `caption`). */
  datatype Link = Link(identifier: string, kind: string, caption: string)

  datatype TypeRef = TypeRef(identifier: string, caption: string)

  /** `{'@id', thumbnail, label}`. */
  datatype Depiction = Depiction(id: string, thumbnail: string, caption: string)

  /** The `peripleoRecord` a row is first turned into.  Properties whose
      value is `undefined` are left out, as serialisation leaves them out. */
  datatype Record = Record(
    id: string, kind: string, properties: map<string, string>, descriptions: seq<Description>)

  /** A feature: the record's keys, `geometry`, and the optional enrichment
      keys (`None` = the key is not present at all). */
  datatype Feature = Feature(
    id: string, kind: string, properties: map<string, string>, descriptions: seq<Description>,
    geometry: Geometry,
    depictions: Option<seq<Depiction>>, types: Option<seq<TypeRef>>, links: Option<seq<Link>>)

  /** Dataset-level metadata (`getIndexing`). */
  datatype Indexing = Indexing(
    context: string, schemaType: string, name: string, description: string,
    license: string, identifier: string)

  datatype FeatureCollection = FeatureCollection(
    kind: string, indexing: Option<Indexing>, features: seq<Feature>)

  /** The TypeError raised by calling `.trim()` on `undefined`, naming the variable. */
  datatype JsError = TrimOfUndefined(variable: string)

  /** What one row contributes: nothing, a feature, or an exception that
      aborts the run. */
  datatype Outcome = Dropped | Built(feature: Feature) | Threw(error: JsError)

  function AsFeature(o: Outcome): Option<Feature>
  {
    if o.Built? then Some(o.feature) else None
  }

  /** The `properties` object literal: property name to the row's cell under
      the mapped header; a header the row lacks gives an undefined property,
      which is absent here. */
  function Renamed(renames: map<string, string>, row: Row): (props: map<string, string>)
    ensures forall p :: p in renames && renames[p] in row ==> p in props
    ensures forall p :: p in props ==> p in renames && renames[p] in row && props[p] == row[renames[p]]
  {
    map p | p in renames && renames[p] in row :: row[renames[p]]
  }

  /** `getPlace(lon, lat)`. */
  function GetPlace(lon: Option<string>, lat: Option<string>, ext: Externals): (g: Geometry)
    ensures |g.coordinates| == 2
    ensures g.coordinates[0] == ext.parseFloat(lon) && g.coordinates[1] == ext.parseFloat(lat)
  {
    Point([ext.parseFloat(lon), ext.parseFloat(lat)])
  }

  /** One `<li>Label: value</li>` item. */
  function ListItem(caption: string, text: string): string
  {
    "<li>" + caption + ": " + text + "</li>"
  }

  /** The text before the items: `Heritage at Risk Entry: {entry}<br/>{title}<ul>`. */
  function DescriptionHead(entry: Option<string>, title: Option<string>): (head: string)
    ensures |head| == 24 + |Str(entry)| + 5 + |Str(title)| + 4
    ensures var n := 24 + |Str(entry)|;
      && head[..24] == "Heritage at Risk Entry: "
      && head[24..n] == Str(entry)
      && head[n..n + 5] == "<br/>"
      && head[n + 5..|head| - 4] == Str(title)
      && head[|head| - 4..] == "<ul>"
    ensures entry.None? ==> head[..33] == "Heritage at Risk Entry: undefined"
  {
    "Heritage at Risk Entry: " + Str(entry) + "<br/>" + Str(title) + "<ul>"
  }

  /** `Heritage at Risk Entry: {entry}<br/>{title}<ul>{items}</ul>`. */
  function DescriptionHtml(entry: Option<string>, title: Option<string>, items: seq<string>): (html: string)
    ensures var head := DescriptionHead(entry, title);
      && |html| == |head| + |Concat(items)| + 5
      && html[..|head|] == head
      && html[|head|..|html| - 5] == Concat(items)
      && html[|html| - 5..] == "</ul>"
  {
    DescriptionHead(entry, title) + Concat(items) + "</ul>"
  }

  /** `buildFeature(record, place, lon, lat)` without enrichment: drops the
      row when both `place?.trim()` and `lon?.trim()` are falsy, otherwise
      calls `place.trim()` (throwing when `place` is undefined), adds the
      trimmed place to the properties and attaches the Point. */
  function BuildFeature(
    record: Record, place: Option<string>, lon: Option<string>, lat: Option<string>, ext: Externals)
    : (r: Outcome)
    ensures r.Dropped? <==> Blank(place) && Blank(lon)
    ensures r.Threw? <==> place.None? && !Blank(lon)
    ensures r.Threw? ==> r.error == TrimOfUndefined("place")
    ensures r.Built? ==>
              && place.Some?
              && r.feature.id == record.id
              && r.feature.kind == record.kind
              && r.feature.descriptions == record.descriptions
              && r.feature.properties.Keys == record.properties.Keys + {"place"}
              && r.feature.properties["place"] == Trim(place.value)
              && (forall k :: k in record.properties && k != "place" ==>
                    r.feature.properties[k] == record.properties[k])
              && r.feature.geometry == GetPlace(lon, lat, ext)
              && r.feature.depictions.None? && r.feature.types.None? && r.feature.links.None?
  {
    if !Truthy(TrimOpt(place)) && !Truthy(TrimOpt(lon)) then Dropped
    else if place.None? then Threw(TrimOfUndefined("place"))
    else
      Built(Feature(
        record.id, record.kind, record.properties["place" := Trim(place.value)], record.descriptions,
        GetPlace(lon, lat, ext), None, None, None))
  }

  /** Running the row callbacks in order: the first exception aborts the run,
      otherwise the features of the rows that were not dropped, in row order. */
  function Gather(outs: seq<Outcome>): (r: Result<seq<Feature>, JsError>)
    ensures r.Success? <==> forall i :: 0 <= i < |outs| ==> !outs[i].Threw?
    ensures r.Success? ==> r.value == FilterMap(AsFeature, outs)
    ensures r.Failure? ==>
              exists i :: 0 <= i < |outs| && outs[i] == Threw(r.error)
                && forall j :: 0 <= j < i ==> !outs[j].Threw?
    decreases |outs|
  {
    if |outs| == 0 then Success([])
    else
      var init := outs[..|outs| - 1];
      assert forall i :: 0 <= i < |init| ==> init[i] == outs[i];
      match Gather(init)
      case Failure(e) => Failure(e)
      case Success(fs) =>
        match outs[|outs| - 1]
        case Threw(e) => Failure(e)
        case Dropped => Success(fs)
        case Built(f) => Success(fs + [f])
  }

  /** Gathering one more outcome: a failure sticks, a throw fails, a drop
      adds nothing, a feature is appended. */
  lemma GatherStep(outs: seq<Outcome>, i: nat)
    requires i < |outs|
    ensures Gather(outs[..i + 1]) ==
              match Gather(outs[..i])
              case Failure(e) => Failure(e)
              case Success(fs) =>
                match outs[i]
                case Threw(e) => Failure(e)
                case Dropped => Success(fs)
                case Built(f) => Success(fs + [f])
  {
    assert outs[..i + 1][..i] == outs[..i];
  }

  /** A successful run lists the features of the built outcomes, at strictly
      increasing positions, and of every built outcome. */
  lemma GatherKeepsOrder(outs: seq<Outcome>)
    ensures Gather(outs).Success? ==>
      var fs, ix := Gather(outs).value, KeptIndices(AsFeature, outs);
      && |ix| == |fs|
      && (forall j, k :: 0 <= j < k < |ix| ==> ix[j] < ix[k])
      && (forall j :: 0 <= j < |ix| ==> ix[j] < |outs| && outs[ix[j]] == Built(fs[j]))
      && (forall i :: 0 <= i < |outs| ==> (i in ix <==> outs[i].Built?))
  {
    FilterMapSelectsInOrder(AsFeature, outs);
  }
}
