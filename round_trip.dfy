/** Records written out in each input format and read back by the
    importers: a record whose fields `strip()` leaves alone, with a non-empty
    id and name, comes back from its CSV row, its XML record and its JSON
    item as exactly the defaults it was written from. */
module RoundTrip {
  import opened Outcomes
  import opened Text
  import Numbers
  import opened JsonValues
  import opened XmlElements
  import opened Store
  import opened ImportPoi

  /** The CSV row that holds the defaults `d` under `import_csv`'s column
      names, with the coordinates written as the given texts. */
  function CsvRowOf(d: PoiData, latitude: string, longitude: string): CsvRow
  {
    map["poi_id" := Some(d.externalId), "poi_name" := Some(d.name),
        "poi_latitude" := Some(latitude), "poi_longitude" := Some(longitude),
        "poi_category" := Some(d.category), "poi_ratings" := Some(d.ratingsData)]
  }

  /** Fields that `strip()` leaves alone, with a non-empty id and name. */
  predicate CleanFields(d: PoiData) {
    && d.externalId != "" && d.name != ""
    && Strip(d.externalId) == d.externalId && Strip(d.name) == d.name
    && Strip(d.category) == d.category && Strip(d.ratingsData) == d.ratingsData
  }

  /** A record written out as a CSV row imports as that record. */
  lemma CsvRoundTrip(d: PoiData, latitude: string, longitude: string)
    requires CleanFields(d) && d.description.None?
    requires Numbers.ParseFloat(latitude) == Some(d.latitude) && Numbers.ParseFloat(longitude) == Some(d.longitude)
    ensures CsvAction(CsvRowOf(d, latitude, longitude), d.sourceFile) == Write(d)
  {
    var row := CsvRowOf(d, latitude, longitude);
    CsvCoordinates(d, latitude, longitude);
    CsvTexts(d, latitude, longitude);
    CsvFromCells(d, row);
  }

  lemma CsvCoordinates(d: PoiData, latitude: string, longitude: string)
    requires Numbers.ParseFloat(latitude) == Some(d.latitude) && Numbers.ParseFloat(longitude) == Some(d.longitude)
    ensures CsvFloat(CsvRowOf(d, latitude, longitude), "poi_latitude") == Returned(d.latitude)
    ensures CsvFloat(CsvRowOf(d, latitude, longitude), "poi_longitude") == Returned(d.longitude)
  {
    CsvLatitude(d, latitude, longitude);
    CsvLongitude(d, latitude, longitude);
  }

  lemma CsvLatitude(d: PoiData, latitude: string, longitude: string)
    requires Numbers.ParseFloat(latitude) == Some(d.latitude)
    ensures CsvFloat(CsvRowOf(d, latitude, longitude), "poi_latitude") == Returned(d.latitude)
  {
    CsvLatitudeCell(d, latitude, longitude);
    CsvCell(CsvRowOf(d, latitude, longitude), "poi_latitude", latitude, d.latitude);
  }

  lemma CsvLongitude(d: PoiData, latitude: string, longitude: string)
    requires Numbers.ParseFloat(longitude) == Some(d.longitude)
    ensures CsvFloat(CsvRowOf(d, latitude, longitude), "poi_longitude") == Returned(d.longitude)
  {
    CsvLongitudeCell(d, latitude, longitude);
    CsvCell(CsvRowOf(d, latitude, longitude), "poi_longitude", longitude, d.longitude);
  }

  /** The two column names of the same length differ in their fifth character. */
  lemma DistinctColumns()
    ensures "poi_latitude" != "poi_category"
  {
    assert "poi_latitude"[4] != "poi_category"[4];
  }

  lemma CsvLatitudeCell(d: PoiData, latitude: string, longitude: string)
    ensures "poi_latitude" in CsvRowOf(d, latitude, longitude) && CsvRowOf(d, latitude, longitude)["poi_latitude"] == Some(latitude)
  {
    DistinctColumns();
  }

  lemma CsvLongitudeCell(d: PoiData, latitude: string, longitude: string)
    ensures "poi_longitude" in CsvRowOf(d, latitude, longitude) && CsvRowOf(d, latitude, longitude)["poi_longitude"] == Some(longitude)
  {
  }

  /** A cell that holds a number text reads as that number. */
  lemma CsvCell(row: CsvRow, column: string, text: string, x: real)
    requires column in row && row[column] == Some(text) && Numbers.ParseFloat(text) == Some(x)
    ensures CsvFloat(row, column) == Returned(x)
  {
  }

  lemma CsvTexts(d: PoiData, latitude: string, longitude: string)
    requires CleanFields(d)
    ensures var row := CsvRowOf(d, latitude, longitude);
      && CsvText(row, "poi_id") == d.externalId && CsvText(row, "poi_name") == d.name
      && CsvText(row, "poi_category") == d.category && CsvText(row, "poi_ratings") == d.ratingsData
  {
    var row := CsvRowOf(d, latitude, longitude);
    assert row["poi_id"] == Some(d.externalId) && row["poi_name"] == Some(d.name);
    assert row["poi_category"] == Some(d.category) && row["poi_ratings"] == Some(d.ratingsData);
  }

  /** A row whose cells read as the defaults' fields writes those defaults. */
  lemma CsvFromCells(d: PoiData, row: CsvRow)
    requires d.externalId != "" && d.name != "" && d.description.None?
    requires CsvFloat(row, "poi_latitude") == Returned(d.latitude)
    requires CsvFloat(row, "poi_longitude") == Returned(d.longitude)
    requires CsvText(row, "poi_id") == d.externalId && CsvText(row, "poi_name") == d.name
    requires CsvText(row, "poi_category") == d.category && CsvText(row, "poi_ratings") == d.ratingsData
    ensures CsvAction(row, d.sourceFile) == Write(d)
  {
  }

  /** The XML record that holds the defaults `d` under `import_xml`'s tag
      names, with the coordinates written as the given texts. */
  function XmlRecordOf(d: PoiData, latitude: string, longitude: string): Element
  {
    Element("DATA_RECORD", None, [
      Element("pid", Some(d.externalId), []), Element("pname", Some(d.name), []),
      Element("platitude", Some(latitude), []), Element("plongitude", Some(longitude), []),
      Element("pcategory", Some(d.category), []), Element("pratings", Some(d.ratingsData), [])])
  }

  /** A record written out as an XML record imports as that record. */
  lemma XmlRoundTrip(d: PoiData, latitude: string, longitude: string)
    requires CleanFields(d) && d.description.None?
    requires Numbers.ParseFloat(latitude) == Some(d.latitude) && Numbers.ParseFloat(longitude) == Some(d.longitude)
    requires latitude != "" && longitude != ""
    ensures XmlAction(XmlRecordOf(d, latitude, longitude), d.sourceFile) == Write(d)
  {
    XmlId(d, latitude, longitude);
    XmlName(d, latitude, longitude);
    XmlLatitude(d, latitude, longitude);
    XmlLongitude(d, latitude, longitude);
    XmlCategory(d, latitude, longitude);
    XmlRatings(d, latitude, longitude);
    XmlFromTexts(d, XmlRecordOf(d, latitude, longitude));
  }

  lemma XmlId(d: PoiData, latitude: string, longitude: string)
    requires Strip(d.externalId) == d.externalId
    ensures Strip(GetXmlText(XmlRecordOf(d, latitude, longitude), "pid", "")) == d.externalId
  {
    XmlField(XmlRecordOf(d, latitude, longitude), 0, "pid", d.externalId);
  }

  lemma XmlName(d: PoiData, latitude: string, longitude: string)
    requires Strip(d.name) == d.name
    ensures Strip(GetXmlText(XmlRecordOf(d, latitude, longitude), "pname", "")) == d.name
  {
    XmlField(XmlRecordOf(d, latitude, longitude), 1, "pname", d.name);
  }

  lemma XmlLatitude(d: PoiData, latitude: string, longitude: string)
    requires latitude != ""
    ensures Numbers.ParseFloat(GetXmlText(XmlRecordOf(d, latitude, longitude), "platitude", "0")) == Numbers.ParseFloat(latitude)
  {
    XmlCoordinate(XmlRecordOf(d, latitude, longitude), 2, "platitude", latitude);
    Numbers.ParseFloatStrips(latitude);
  }

  lemma XmlLongitude(d: PoiData, latitude: string, longitude: string)
    requires longitude != ""
    ensures Numbers.ParseFloat(GetXmlText(XmlRecordOf(d, latitude, longitude), "plongitude", "0")) == Numbers.ParseFloat(longitude)
  {
    XmlCoordinate(XmlRecordOf(d, latitude, longitude), 3, "plongitude", longitude);
    Numbers.ParseFloatStrips(longitude);
  }

  lemma XmlCategory(d: PoiData, latitude: string, longitude: string)
    requires Strip(d.category) == d.category
    ensures Strip(GetXmlText(XmlRecordOf(d, latitude, longitude), "pcategory", "")) == d.category
  {
    XmlField(XmlRecordOf(d, latitude, longitude), 4, "pcategory", d.category);
  }

  lemma XmlRatings(d: PoiData, latitude: string, longitude: string)
    requires Strip(d.ratingsData) == d.ratingsData
    ensures Strip(GetXmlText(XmlRecordOf(d, latitude, longitude), "pratings", "")) == d.ratingsData
  {
    XmlField(XmlRecordOf(d, latitude, longitude), 5, "pratings", d.ratingsData);
  }

  /** A stripped text of the first child with its tag is read back by `get_xml_text`. */
  lemma XmlField(e: Element, k: nat, tag: string, text: string)
    requires k < |e.children| && e.children[k].tag == tag && e.children[k].text == Some(text)
    requires forall i | 0 <= i < k :: e.children[i].tag != tag
    requires Strip(text) == text
    ensures Strip(GetXmlText(e, tag, "")) == text
  {
    assert Strip("") == "";
  }

  /** A non-empty coordinate text of the first child with its tag is read stripped. */
  lemma XmlCoordinate(e: Element, k: nat, tag: string, text: string)
    requires k < |e.children| && e.children[k].tag == tag && e.children[k].text == Some(text)
    requires forall i | 0 <= i < k :: e.children[i].tag != tag
    requires text != ""
    ensures GetXmlText(e, tag, "0") == Strip(text)
  {
  }

  /** A record whose texts read as the defaults' fields writes those defaults. */
  lemma XmlFromTexts(d: PoiData, e: Element)
    requires d.externalId != "" && d.name != "" && d.description.None?
    requires Numbers.ParseFloat(GetXmlText(e, "platitude", "0")) == Some(d.latitude)
    requires Numbers.ParseFloat(GetXmlText(e, "plongitude", "0")) == Some(d.longitude)
    requires Strip(GetXmlText(e, "pid", "")) == d.externalId && Strip(GetXmlText(e, "pname", "")) == d.name
    requires Strip(GetXmlText(e, "pcategory", "")) == d.category && Strip(GetXmlText(e, "pratings", "")) == d.ratingsData
    ensures XmlAction(e, d.sourceFile) == Write(d)
  {
  }

  /** The JSON item that holds the defaults `d` under `import_json`'s keys,
      with the coordinates written as number literals and the given ratings. */
  function JsonItemOf(d: PoiData, latitude: string, longitude: string, ratings: Json): Json
    requires d.description.Some?
  {
    JObj([("id", JStr(d.externalId)), ("name", JStr(d.name)),
          ("coordinates", JsonPointOf(latitude, longitude)),
          ("category", JStr(d.category)), ("ratings", ratings), ("description", JStr(d.description.value))])
  }

  /** The `coordinates` object of an item, with both coordinates as number literals. */
  function JsonPointOf(latitude: string, longitude: string): Json
  {
    JObj([("latitude", JNum(latitude)), ("longitude", JNum(longitude))])
  }

  /** A record written out as a JSON item imports as that record, its
      ratings as their `json.dumps` text. */
  lemma JsonRoundTrip(d: PoiData, latitude: string, longitude: string, ratings: Json)
    requires CleanFields(d) && d.description.Some? && Strip(d.description.value) == d.description.value
    requires Numbers.ParseJsonNumber(latitude) == Some(d.latitude) && Numbers.ParseJsonNumber(longitude) == Some(d.longitude)
    requires RatingsText(ratings) == d.ratingsData
    ensures JsonAction(JsonItemOf(d, latitude, longitude, ratings), d.sourceFile) == Write(d)
  {
    JsonItemTexts(d, latitude, longitude, ratings);
    JsonItemValues(d, latitude, longitude, ratings);
    JsonFromFields(d, JsonItemOf(d, latitude, longitude, ratings));
  }

  /** The four text fields of the item read back as the record's. */
  lemma JsonItemTexts(d: PoiData, latitude: string, longitude: string, ratings: Json)
    requires CleanFields(d) && d.description.Some? && Strip(d.description.value) == d.description.value
    ensures var m := JsonItemOf(d, latitude, longitude, ratings).members;
      && JsonText(m, "id") == d.externalId && JsonText(m, "name") == d.name
      && JsonText(m, "category") == d.category && JsonText(m, "description") == d.description.value
  {
    JsonId(d, latitude, longitude, ratings);
    JsonName(d, latitude, longitude, ratings);
    JsonCategory(d, latitude, longitude, ratings);
    JsonDescription(d, latitude, longitude, ratings);
  }

  /** The coordinates and the ratings of the item read back as the record's. */
  lemma JsonItemValues(d: PoiData, latitude: string, longitude: string, ratings: Json)
    requires d.description.Some?
    requires Numbers.ParseJsonNumber(latitude) == Some(d.latitude) && Numbers.ParseJsonNumber(longitude) == Some(d.longitude)
    ensures var m := JsonItemOf(d, latitude, longitude, ratings).members;
      && JsonRatings(m) == ratings
      && JsonFloat(JsonCoordinates(m), "latitude") == Returned(d.latitude)
      && JsonFloat(JsonCoordinates(m), "longitude") == Returned(d.longitude)
  {
    JsonItemRatings(d, latitude, longitude, ratings);
    JsonItemPoint(d, latitude, longitude, ratings);
    JsonPoint(d, latitude, longitude);
  }

  lemma JsonId(d: PoiData, latitude: string, longitude: string, ratings: Json)
    requires d.description.Some? && Strip(d.externalId) == d.externalId
    ensures JsonText(JsonItemOf(d, latitude, longitude, ratings).members, "id") == d.externalId
  {
    JsonMemberText(JsonItemOf(d, latitude, longitude, ratings).members, 0, "id", d.externalId);
  }

  lemma JsonName(d: PoiData, latitude: string, longitude: string, ratings: Json)
    requires d.description.Some? && Strip(d.name) == d.name
    ensures JsonText(JsonItemOf(d, latitude, longitude, ratings).members, "name") == d.name
  {
    JsonMemberText(JsonItemOf(d, latitude, longitude, ratings).members, 1, "name", d.name);
  }

  lemma JsonCategory(d: PoiData, latitude: string, longitude: string, ratings: Json)
    requires d.description.Some? && Strip(d.category) == d.category
    ensures JsonText(JsonItemOf(d, latitude, longitude, ratings).members, "category") == d.category
  {
    JsonMemberText(JsonItemOf(d, latitude, longitude, ratings).members, 3, "category", d.category);
  }

  lemma JsonDescription(d: PoiData, latitude: string, longitude: string, ratings: Json)
    requires d.description.Some? && Strip(d.description.value) == d.description.value
    ensures JsonText(JsonItemOf(d, latitude, longitude, ratings).members, "description") == d.description.value
  {
    JsonMemberText(JsonItemOf(d, latitude, longitude, ratings).members, 5, "description", d.description.value);
  }

  lemma JsonItemRatings(d: PoiData, latitude: string, longitude: string, ratings: Json)
    requires d.description.Some?
    ensures JsonRatings(JsonItemOf(d, latitude, longitude, ratings).members) == ratings
  {
    JsonMember(JsonItemOf(d, latitude, longitude, ratings).members, 4, "ratings", ratings);
  }

  lemma JsonItemPoint(d: PoiData, latitude: string, longitude: string, ratings: Json)
    requires d.description.Some?
    ensures JsonCoordinates(JsonItemOf(d, latitude, longitude, ratings).members) == JsonPointOf(latitude, longitude)
  {
    JsonMember(JsonItemOf(d, latitude, longitude, ratings).members, 2, "coordinates", JsonPointOf(latitude, longitude));
  }

  /** Both coordinates of the `coordinates` object convert back to the record's values. */
  lemma JsonPoint(d: PoiData, latitude: string, longitude: string)
    requires Numbers.ParseJsonNumber(latitude) == Some(d.latitude) && Numbers.ParseJsonNumber(longitude) == Some(d.longitude)
    ensures JsonFloat(JsonPointOf(latitude, longitude), "latitude") == Returned(d.latitude)
    ensures JsonFloat(JsonPointOf(latitude, longitude), "longitude") == Returned(d.longitude)
  {
    JsonLatitude(d, latitude, longitude);
    JsonLongitude(d, latitude, longitude);
  }

  lemma JsonLatitude(d: PoiData, latitude: string, longitude: string)
    requires Numbers.ParseJsonNumber(latitude) == Some(d.latitude)
    ensures JsonFloat(JsonPointOf(latitude, longitude), "latitude") == Returned(d.latitude)
  {
    JsonMember(JsonPointOf(latitude, longitude).members, 0, "latitude", JNum(latitude));
  }

  lemma JsonLongitude(d: PoiData, latitude: string, longitude: string)
    requires Numbers.ParseJsonNumber(longitude) == Some(d.longitude)
    ensures JsonFloat(JsonPointOf(latitude, longitude), "longitude") == Returned(d.longitude)
  {
    JsonMember(JsonPointOf(latitude, longitude).members, 1, "longitude", JNum(longitude));
  }

  /** A key that no later member repeats is looked up as its own value. */
  lemma JsonMember(m: seq<(string, Json)>, k: nat, key: string, v: Json)
    requires k < |m| && m[k] == (key, v)
    requires forall j | k < j < |m| :: m[j].0 != key
    ensures Lookup(m, key) == Some(v)
  {
    var r := Lookup(m, key);
    var i :| 0 <= i < |m| && m[i] == (key, r.value) && forall j | i < j < |m| :: m[j].0 != key;
    assert i == k;
  }

  /** A string member that `strip()` leaves alone is read back as itself. */
  lemma JsonMemberText(m: seq<(string, Json)>, k: nat, key: string, text: string)
    requires k < |m| && m[k] == (key, JStr(text)) && Strip(text) == text
    requires forall j | k < j < |m| :: m[j].0 != key
    ensures JsonText(m, key) == text
  {
    JsonMember(m, k, key, JStr(text));
  }

  /** The item whose members are read back as the record's fields imports as that record. */
  lemma JsonFromFields(d: PoiData, item: Json)
    requires item.JObj? && d.externalId != "" && d.name != "" && d.description.Some?
    requires JsonText(item.members, "id") == d.externalId && JsonText(item.members, "name") == d.name
    requires JsonText(item.members, "category") == d.category
    requires JsonText(item.members, "description") == d.description.value
    requires RatingsText(JsonRatings(item.members)) == d.ratingsData
    requires JsonFloat(JsonCoordinates(item.members), "latitude") == Returned(d.latitude)
    requires JsonFloat(JsonCoordinates(item.members), "longitude") == Returned(d.longitude)
    ensures JsonAction(item, d.sourceFile) == Write(d)
  {
  }
}
