/** The `import_poi` management command: each input file is decoded by its
    extension, every record is turned into the defaults of one
    `update_or_create` (or skipped), a file is imported in one transaction,
    and `handle` imports the files one after another, reporting each. */
module ImportPoi {
  import opened Outcomes
  import opened Text
  import Numbers
  import opened JsonValues
  import opened XmlElements
  import opened Store

  // ---------------------------------------------------------------------
  // What one input record becomes

  /** What the body of an importer's `for` loop does with one record: skip
      it (`continue`), write its defaults with `update_or_create`, or let an
      exception escape the loop. */
  datatype RowAction = Skip | Write(data: PoiData) | Abort(error: Exception)

  /** An exception raised while a record's defaults are built: the
      importer's `except` clause turns the listed ones into `continue`. */
  function Catch(e: Exception, caught: set<Exception>): (a: RowAction)
    ensures a.Skip? <==> e in caught
    ensures a.Abort? <==> e !in caught
    ensures a.Abort? ==> a.error == e
  {
    if e in caught then Skip else Abort(e)
  }

  /** `if not poi_data['external_id'] or not poi_data['name']: continue` */
  function Guarded(d: PoiData): (a: RowAction)
    ensures a.Write? <==> d.externalId != "" && d.name != ""
    ensures a.Write? ==> a.data == d
    ensures !a.Abort?
  {
    if d.externalId == "" || d.name == "" then Skip else Write(d)
  }

  /** The defaults every importer builds satisfy this: a non-empty id and
      name, the importing file's name, and a description only from JSON. */
  predicate Stamped(a: RowAction, filename: string, hasDescription: bool) {
    a.Write? ==>
      && a.data.externalId != "" && a.data.name != ""
      && a.data.sourceFile == filename
      && a.data.description.Some? == hasDescription
  }

  // ---------------------------------------------------------------------
  // CSV

  /** A row of `csv.DictReader`: column name to cell. A cell is `None` when
      the row is shorter than the header. */
  type CsvRow = map<string, Option<string>>

  /** The exceptions `import_csv` and `import_json` catch per record. */
  const RecordCaught: set<Exception> := {ValueError, KeyError}

  /** The exceptions `import_xml` catches per record. */
  const XmlCaught: set<Exception> := {ValueError, AttributeError}

  /** `str(row.get(column, '')).strip()`: `str(None)` is `"None"`. */
  function CsvText(row: CsvRow, column: string): (r: string)
    ensures column !in row ==> r == ""
    ensures column in row && row[column].None? ==> r == "None"
    ensures column in row && row[column].Some? ==> r == Strip(row[column].value)
  {
    if column !in row then ""
    else match row[column]
      case Some(s) => Strip(s)
      case None => "None"
  }

  /** `float(row.get(column, 0))`: a missing column reads as 0, a missing
      cell is a TypeError, and text that is not a number a ValueError. */
  function CsvFloat(row: CsvRow, column: string): (r: Outcome<real>)
    ensures column !in row ==> r == Returned(0.0)
    ensures column in row && row[column].None? ==> r == Raised(TypeError)
    ensures column in row && row[column].Some? ==>
      match Numbers.ParseFloat(row[column].value)
      case Some(x) => r == Returned(x)
      case None => r == Raised(ValueError)
  {
    if column !in row then Returned(0.0)
    else match row[column]
      case None => Raised(TypeError)
      case Some(s) =>
        match Numbers.ParseFloat(s)
        case Some(x) => Returned(x)
        case None => Raised(ValueError)
  }

  /** The body of `import_csv`'s loop for one row. */
  function CsvAction(row: CsvRow, filename: string): (a: RowAction)
    ensures Stamped(a, filename, false)
    ensures a.Abort? <==> (CsvFloat(row, "poi_latitude") == Raised(TypeError)
      || (CsvFloat(row, "poi_latitude").Returned? && CsvFloat(row, "poi_longitude") == Raised(TypeError)))
    ensures a.Abort? ==> a.error == TypeError
    ensures CsvFloat(row, "poi_latitude") == Raised(ValueError) ==> a == Skip
    ensures CsvFloat(row, "poi_latitude").Returned? && CsvFloat(row, "poi_longitude") == Raised(ValueError) ==> a == Skip
    ensures CsvFloat(row, "poi_latitude").Returned? && CsvFloat(row, "poi_longitude").Returned? ==>
      var id, name := CsvText(row, "poi_id"), CsvText(row, "poi_name");
      a == if id == "" || name == "" then Skip
           else Write(PoiData(id, name, CsvFloat(row, "poi_latitude").value, CsvFloat(row, "poi_longitude").value,
                              CsvText(row, "poi_category"), CsvText(row, "poi_ratings"), None, filename))
  {
    match CsvFloat(row, "poi_latitude")
    case Raised(e) => Catch(e, RecordCaught)
    case Returned(lat) =>
      match CsvFloat(row, "poi_longitude")
      case Raised(e) => Catch(e, RecordCaught)
      case Returned(lon) =>
        Guarded(PoiData(CsvText(row, "poi_id"), CsvText(row, "poi_name"), lat, lon,
          CsvText(row, "poi_category"), CsvText(row, "poi_ratings"), None, filename))
  }

  function CsvActions(rows: seq<CsvRow>, filename: string): (acts: seq<RowAction>)
    ensures |acts| == |rows| && forall i | 0 <= i < |rows| :: acts[i] == CsvAction(rows[i], filename)
  {
    seq(|rows|, i requires 0 <= i < |rows| => CsvAction(rows[i], filename))
  }

  // ---------------------------------------------------------------------
  // JSON

  /** What `for item in data` iterates over once a dict has been wrapped in
      a list: the items of a list, the characters of a string (as
      one-character strings), and a TypeError for anything else. */
  function JsonItems(data: Json): (r: Outcome<seq<Json>>)
    ensures data.JObj? ==> r == Returned([data])
    ensures data.JArr? ==> r == Returned(data.items)
    ensures data.JStr? ==> (r.Returned? && |r.value| == |data.s|
      && forall i | 0 <= i < |data.s| :: r.value[i] == JStr([data.s[i]]))
    ensures data.JNull? || data.JBool? || data.JNum? ==> r == Raised(TypeError)
  {
    match data
    case JObj(_) => Returned([data])
    case JArr(items) => Returned(items)
    case JStr(s) => Returned(seq(|s|, i requires 0 <= i < |s| => JStr([s[i]])))
    case _ => Raised(TypeError)
  }

  /** `float(coordinates.get(key, 0))`. */
  function JsonFloat(coordinates: Json, key: string): (r: Outcome<real>)
    ensures !coordinates.JObj? ==> r == Raised(AttributeError)
    ensures coordinates.JObj? ==> r == ToFloat(Get(coordinates, key, JNum("0")).value)
  {
    match Get(coordinates, key, JNum("0"))
    case Raised(e) => Raised(e)
    case Returned(v) => ToFloat(v)
  }

  /** `str(item.get(key, '')).strip()` for an object's members. */
  function JsonText(members: seq<(string, Json)>, key: string): string
  {
    match Lookup(members, key)
    case Some(v) => Strip(PyStr(v))
    case None => ""
  }

  /** `item.get('coordinates', {})` for an item that is an object. */
  function JsonCoordinates(members: seq<(string, Json)>): Json
  {
    match Lookup(members, "coordinates") case Some(c) => c case None => JObj([])
  }

  /** `item.get('ratings', [])` for an item that is an object. */
  function JsonRatings(members: seq<(string, Json)>): Json
  {
    match Lookup(members, "ratings") case Some(v) => v case None => JArr([])
  }

  /** `json.dumps(ratings) if ratings else ''` */
  function RatingsText(ratings: Json): (r: string)
    ensures !Truthy(ratings) ==> r == ""
    ensures Truthy(ratings) ==> r == Dumps(ratings)
  {
    if Truthy(ratings) then Dumps(ratings) else ""
  }

  /** The body of `import_json`'s loop for one item. An item that is not an
      object, or whose coordinates are not one, raises AttributeError, which
      this loop does not catch. */
  function JsonAction(item: Json, filename: string): (a: RowAction)
    ensures Stamped(a, filename, true)
    ensures !item.JObj? ==> a == Abort(AttributeError)
    ensures a.Abort? ==> a.error == AttributeError || a.error == TypeError
    ensures item.JObj? ==>
      var lat := JsonFloat(JsonCoordinates(item.members), "latitude");
      var lon := JsonFloat(JsonCoordinates(item.members), "longitude");
      && (lat.Raised? ==> a == Catch(lat.error, RecordCaught))
      && (lat.Returned? && lon.Raised? ==> a == Catch(lon.error, RecordCaught))
      && (lat.Returned? && lon.Returned? ==>
            var id, name := JsonText(item.members, "id"), JsonText(item.members, "name");
            a == if id == "" || name == "" then Skip
                 else Write(PoiData(id, name, lat.value, lon.value, JsonText(item.members, "category"),
                                    RatingsText(JsonRatings(item.members)),
                                    Some(JsonText(item.members, "description")), filename)))
  {
    match Get(item, "coordinates", JObj([]))
    case Raised(e) => Catch(e, RecordCaught)
    case Returned(coordinates) =>
      var members := item.members;
      var ratings := JsonRatings(members);
      match JsonFloat(coordinates, "latitude")
      case Raised(e) => Catch(e, RecordCaught)
      case Returned(lat) =>
        match JsonFloat(coordinates, "longitude")
        case Raised(e) => Catch(e, RecordCaught)
        case Returned(lon) =>
          Guarded(PoiData(JsonText(members, "id"), JsonText(members, "name"), lat, lon,
            JsonText(members, "category"), RatingsText(ratings),
            Some(JsonText(members, "description")), filename))
  }

  function JsonActions(items: seq<Json>, filename: string): (acts: seq<RowAction>)
    ensures |acts| == |items| && forall i | 0 <= i < |items| :: acts[i] == JsonAction(items[i], filename)
  {
    seq(|items|, i requires 0 <= i < |items| => JsonAction(items[i], filename))
  }

  // ---------------------------------------------------------------------
  // XML

  /** The body of `import_xml`'s loop for one record element. */
  function XmlAction(e: Element, filename: string): (a: RowAction)
    ensures Stamped(a, filename, false)
    ensures !a.Abort?
    ensures Numbers.ParseFloat(GetXmlText(e, "platitude", "0")).None? ==> a == Skip
    ensures Numbers.ParseFloat(GetXmlText(e, "plongitude", "0")).None? ==> a == Skip
    ensures var lat := Numbers.ParseFloat(GetXmlText(e, "platitude", "0"));
      var lon := Numbers.ParseFloat(GetXmlText(e, "plongitude", "0"));
      lat.Some? && lon.Some? ==>
        var id, name := Strip(GetXmlText(e, "pid", "")), Strip(GetXmlText(e, "pname", ""));
        a == if id == "" || name == "" then Skip
             else Write(PoiData(id, name, lat.value, lon.value, Strip(GetXmlText(e, "pcategory", "")),
                                Strip(GetXmlText(e, "pratings", "")), None, filename))
  {
    match Numbers.ParseFloat(GetXmlText(e, "platitude", "0"))
    case None => Catch(ValueError, XmlCaught)
    case Some(lat) =>
      match Numbers.ParseFloat(GetXmlText(e, "plongitude", "0"))
      case None => Catch(ValueError, XmlCaught)
      case Some(lon) =>
        Guarded(PoiData(Strip(GetXmlText(e, "pid", "")), Strip(GetXmlText(e, "pname", "")), lat, lon,
          Strip(GetXmlText(e, "pcategory", "")), Strip(GetXmlText(e, "pratings", "")), None, filename))
  }

  function XmlActions(elements: seq<Element>, filename: string): (acts: seq<RowAction>)
    ensures |acts| == |elements| && forall i | 0 <= i < |elements| :: acts[i] == XmlAction(elements[i], filename)
  {
    seq(|elements|, i requires 0 <= i < |elements| => XmlAction(elements[i], filename))
  }

  // ---------------------------------------------------------------------
  // One file, as a fold over its records

  /** The table after the records so far, and how many rows they created. */
  datatype Imported = Imported(rows: map<string, Record>, count: nat)

  /** Whether an action makes the importer raise: an escaping exception, or
      a write whose `save()` raises (a TypeError, which no importer catches). */
  predicate Fails(a: RowAction) {
    a.Abort? || (a.Write? && RatingRaises(a.data.ratingsData))
  }

  /** The external ids the writes among `acts` upsert. */
  function WrittenKeys(acts: seq<RowAction>): (keys: set<string>)
    ensures forall i | 0 <= i < |acts| && acts[i].Write? :: acts[i].data.externalId in keys
    ensures forall k | k in keys :: exists i | 0 <= i < |acts| :: acts[i].Write? && acts[i].data.externalId == k
  {
    set i | 0 <= i < |acts| && acts[i].Write? :: acts[i].data.externalId
  }

  /** One pass of the loop body on the state so far. */
  function Step(s: Imported, a: RowAction): Outcome<Imported>
  {
    match a
    case Skip => Returned(s)
    case Abort(e) => Raised(e)
    case Write(d) =>
      match UpdateOrCreateSpec(s.rows, d)
      case Returned(u) => Returned(Imported(u.rows, s.count + if u.created then 1 else 0))
      case Raised(e) => Raised(e)
  }

  /** The records of one file applied in order from `rows`: the first
      failing record ends the import with its exception. */
  function RunActions(rows: map<string, Record>, acts: seq<RowAction>): (r: Outcome<Imported>)
    ensures r.Returned? <==> forall i | 0 <= i < |acts| :: !Fails(acts[i])
    decreases |acts|
  {
    if acts == [] then Returned(Imported(rows, 0))
    else
      var n := |acts| - 1;
      var prefix := RunActions(rows, acts[..n]);
      assert forall i | 0 <= i < n :: acts[..n][i] == acts[i];
      match prefix
      case Raised(e) => Raised(e)
      case Returned(s) => Step(s, acts[n])
  }

  /** What a file's import that returns leaves: the table holds every
      written key, each row created counts once, and the rows no record
      names are untouched. */
  predicate Summarises(s: Imported, rows: map<string, Record>, written: set<string>) {
    && s.rows.Keys == rows.Keys + written
    && s.count == |written - rows.Keys|
    && forall k | k in rows && k !in written :: s.rows[k] == rows[k]
  }

  lemma {:induction false} RunActionsSummary(rows: map<string, Record>, acts: seq<RowAction>)
    requires RunActions(rows, acts).Returned?
    ensures Summarises(RunActions(rows, acts).value, rows, WrittenKeys(acts))
    decreases |acts|
  {
    if acts != [] {
      var n := |acts| - 1;
      PrefixStep(rows, acts);
      RunActionsSummary(rows, acts[..n]);
      var s := RunActions(rows, acts[..n]).value;
      StepSummary(s, acts[n], rows, WrittenKeys(acts[..n]));
    }
  }

  /** One more record keeps the summary true, with its key added when it writes. */
  lemma StepSummary(s: Imported, a: RowAction, rows: map<string, Record>, written: set<string>)
    requires Summarises(s, rows, written) && Step(s, a).Returned?
    ensures Summarises(Step(s, a).value, rows, written + if a.Write? then {a.data.externalId} else {})
  {
    if a.Write? {
      var u := UpdateOrCreateSpec(s.rows, a.data).value;
      StepWriteParts(s, a.data, u);
      UpsertSummary(s, a.data, u, rows, written);
    } else {
      assert written + {} == written;
    }
  }

  lemma UpsertSummary(s: Imported, d: PoiData, u: Upserted, rows: map<string, Record>, written: set<string>)
    requires Summarises(s, rows, written)
    requires (u.created <==> d.externalId !in s.rows) && u.rows.Keys == s.rows.Keys + {d.externalId}
    requires forall k | k in s.rows && k != d.externalId :: u.rows[k] == s.rows[k]
    ensures Summarises(Imported(u.rows, s.count + if u.created then 1 else 0), rows, written + {d.externalId})
  {
    KeysStep(s.rows, u.rows, rows, written, d.externalId);
    CountStep(rows.Keys, written, d.externalId, s.count);
  }

  /** Upserting key `k` into a table that covers `rows` and `written`
      covers `written + {k}` and leaves the other old rows alone. */
  lemma KeysStep<K, V>(before: map<K, V>, after: map<K, V>, rows: map<K, V>, written: set<K>, k: K)
    requires before.Keys == rows.Keys + written
    requires forall j | j in rows && j !in written :: before[j] == rows[j]
    requires after.Keys == before.Keys + {k}
    requires forall j | j in before && j != k :: after[j] == before[j]
    ensures after.Keys == rows.Keys + (written + {k})
    ensures forall j | j in rows && j !in written + {k} :: after[j] == rows[j]
  {
  }

  /** Adding a key to the written set adds one to the count of new keys
      exactly when the key is neither an old row nor written before. */
  lemma CountStep<K>(keys: set<K>, written: set<K>, k: K, count: nat)
    requires count == |written - keys|
    ensures |(written + {k}) - keys| == count + if k !in keys + written then 1 else 0
  {
    if k !in keys + written {
      assert (written + {k}) - keys == (written - keys) + {k};
    } else {
      assert (written + {k}) - keys == written - keys;
    }
  }

  /** How `WrittenKeys` and `Fails` extend by one record. */
  lemma PrefixStep(rows: map<string, Record>, acts: seq<RowAction>)
    requires acts != []
    ensures var n := |acts| - 1;
      WrittenKeys(acts) == WrittenKeys(acts[..n]) + (if acts[n].Write? then {acts[n].data.externalId} else {})
  {
    var n := |acts| - 1;
    assert forall i | 0 <= i < n :: acts[..n][i] == acts[i];
    var w, wp := WrittenKeys(acts), WrittenKeys(acts[..n]);
    var extra: set<string> := if acts[n].Write? then {acts[n].data.externalId} else {};
    forall k | k in w ensures k in wp + extra {
      var i :| 0 <= i < |acts| && acts[i].Write? && acts[i].data.externalId == k;
      if i < n { assert acts[..n][i] == acts[i]; }
    }
  }

  /** Once a prefix of the records raises, the whole run raises the same way. */
  lemma {:induction false} RaisedPrefix(rows: map<string, Record>, acts: seq<RowAction>, j: nat)
    requires j <= |acts| && RunActions(rows, acts[..j]).Raised?
    ensures RunActions(rows, acts) == RunActions(rows, acts[..j])
    decreases |acts| - j
  {
    if j < |acts| {
      var n := |acts| - 1;
      assert acts[..n][..j] == acts[..j];
      RaisedPrefix(rows, acts[..n], j);
      RaisedLast(rows, acts);
    } else {
      assert acts[..j] == acts;
    }
  }

  /** A run whose records but the last raise raises the same way. */
  lemma RaisedLast(rows: map<string, Record>, acts: seq<RowAction>)
    requires acts != [] && RunActions(rows, acts[..|acts| - 1]).Raised?
    ensures RunActions(rows, acts) == RunActions(rows, acts[..|acts| - 1])
  {
  }

  /** What a method importing one file leaves, given the run that specifies
      it: the run's table and count when it returns; the table as it was
      before (the transaction rolled back) and the exception when it raises. */
  predicate Transacted(before: map<string, Record>, after: map<string, Record>,
                       result: Outcome<nat>, run: Outcome<Imported>) {
    match run
    case Returned(s) => after == s.rows && result == Returned(s.count)
    case Raised(e) => after == before && result == Raised(e)
  }

  /** The loop body every importer runs inside `transaction.atomic`: build
      the defaults (or skip), `update_or_create`, count the rows created.
      An exception escaping the loop rolls the table back to the savepoint. */
  method RunRows(table: PoiTable, acts: seq<RowAction>) returns (result: Outcome<nat>)
    modifies table
    ensures Transacted(old(table.rows), table.rows, result, RunActions(old(table.rows), acts))
  {
    var savepoint := table.rows;
    var count: nat := 0;
    var i := 0;
    while i < |acts|
      invariant 0 <= i <= |acts|
      invariant RunActions(savepoint, acts[..i]) == Returned(Imported(table.rows, count))
    {
      ghost var before := Imported(table.rows, count);
      match acts[i] {
        case Skip =>
          NextRun(savepoint, acts, i, before, before);
        case Abort(e) =>
          FailRun(savepoint, acts, i, before, e);
          table.rows := savepoint;
          return Raised(e);
        case Write(d) =>
          var r := table.UpdateOrCreate(d);
          match r {
            case Raised(e) =>
              StepRaise(before, d, e);
              FailRun(savepoint, acts, i, before, e);
              table.rows := savepoint;
              return Raised(e);
            case Returned(created) =>
              if created {
                count := count + 1;
              }
              WriteRun(savepoint, acts, i, before, table.rows, created, count);
          }
      }
      i := i + 1;
    }
    assert acts[..i] == acts;
    return Returned(count);
  }

  /** A step that raises ends the whole run with its exception. */
  lemma FailRun(rows: map<string, Record>, acts: seq<RowAction>, i: nat, s: Imported, e: Exception)
    requires i < |acts| && RunActions(rows, acts[..i]) == Returned(s) && Step(s, acts[i]) == Raised(e)
    ensures RunActions(rows, acts) == Raised(e)
  {
    RunStep(rows, acts, i, s);
  }

  /** A write whose upsert raises raises the same exception. */
  lemma StepRaise(s: Imported, d: PoiData, e: Exception)
    requires UpdateOrCreateSpec(s.rows, d) == Raised(e)
    ensures Step(s, Write(d)) == Raised(e)
  {
  }

  /** A step that returns extends a run that returns. */
  lemma NextRun(rows: map<string, Record>, acts: seq<RowAction>, i: nat, s: Imported, next: Imported)
    requires i < |acts| && RunActions(rows, acts[..i]) == Returned(s) && Step(s, acts[i]) == Returned(next)
    ensures RunActions(rows, acts[..i + 1]) == Returned(next)
  {
    RunStep(rows, acts, i, s);
  }

  /** A write that returns extends a run that returns, adding its created row to the count. */
  lemma WriteRun(rows: map<string, Record>, acts: seq<RowAction>, i: nat, s: Imported,
                  after: map<string, Record>, created: bool, count: nat)
    requires i < |acts| && RunActions(rows, acts[..i]) == Returned(s) && acts[i].Write?
    requires UpdateOrCreateSpec(s.rows, acts[i].data) == Returned(Upserted(after, created))
    requires count == s.count + if created then 1 else 0
    ensures RunActions(rows, acts[..i + 1]) == Returned(Imported(after, count))
  {
    StepWrite(s, acts[i].data, Upserted(after, created));
    NextRun(rows, acts, i, s, Imported(after, count));
  }

  /** A write that returns adds its created row to the count. */
  lemma StepWrite(s: Imported, d: PoiData, u: Upserted)
    requires UpdateOrCreateSpec(s.rows, d) == Returned(u)
    ensures Step(s, Write(d)) == Returned(Imported(u.rows, s.count + if u.created then 1 else 0))
  {
    StepWriteParts(s, d, u);
  }

  lemma StepWriteParts(s: Imported, d: PoiData, u: Upserted)
    requires UpdateOrCreateSpec(s.rows, d) == Returned(u)
    ensures Step(s, Write(d)).Returned?
    ensures Step(s, Write(d)).value.rows == u.rows
    ensures Step(s, Write(d)).value.count == s.count + if u.created then 1 else 0
  {
  }

  /** One more record extends the run by one step; a step that raises
      ends the whole run. */
  lemma RunStep(rows: map<string, Record>, acts: seq<RowAction>, i: nat, s: Imported)
    requires i < |acts| && RunActions(rows, acts[..i]) == Returned(s)
    ensures RunActions(rows, acts[..i + 1]) == Step(s, acts[i])
    ensures Step(s, acts[i]).Raised? ==> RunActions(rows, acts) == Step(s, acts[i])
  {
    assert acts[..i + 1][..i] == acts[..i];
    if Step(s, acts[i]).Raised? {
      RaisedPrefix(rows, acts, i + 1);
    }
  }

  // ---------------------------------------------------------------------
  // Files

  /** What a decoder made of a file: a value, or the parse error's message. */
  datatype Parsed<T> = Parsed(value: T) | Malformed(detail: string)

  /** An existing file as each reader sees it: the rows of `csv.DictReader`,
      the result of `json.load` and the result of `ET.parse`. Only the one
      its extension selects is read. */
  datatype FileView = FileView(csvRows: seq<CsvRow>, json: Parsed<Json>, xml: Parsed<Element>)

  /** The records `import_json` goes through, or the exception it raises
      before the first one. */
  function JsonPlan(file: Parsed<Json>, filename: string): (r: Outcome<seq<RowAction>>)
    ensures file.Malformed? ==> r == Raised(CommandError("Invalid JSON file: " + file.detail))
    ensures file.Parsed? && JsonItems(file.value).Returned? ==>
      r == Returned(JsonActions(JsonItems(file.value).value, filename))
    ensures file.Parsed? && JsonItems(file.value).Raised? ==> r == Raised(TypeError)
    ensures r.Returned? ==> forall i | 0 <= i < |r.value| :: Stamped(r.value[i], filename, true)
  {
    match file
    case Malformed(detail) => Raised(CommandError("Invalid JSON file: " + detail))
    case Parsed(data) =>
      match JsonItems(data)
      case Raised(e) => Raised(e)
      case Returned(items) => Returned(JsonActions(items, filename))
  }

  /** The records `import_xml` goes through, or the exception it raises
      before the first one. */
  function XmlPlan(file: Parsed<Element>, filename: string): (r: Outcome<seq<RowAction>>)
    ensures file.Malformed? ==> r == Raised(CommandError("Invalid XML file: " + file.detail))
    ensures file.Parsed? ==> r == Returned(XmlActions(RecordElements(file.value), filename))
    ensures r.Returned? ==> forall i | 0 <= i < |r.value| :: Stamped(r.value[i], filename, false) && !r.value[i].Abort?
  {
    match file
    case Malformed(detail) => Raised(CommandError("Invalid XML file: " + detail))
    case Parsed(root) => Returned(XmlActions(RecordElements(root), filename))
  }

  /** `import_file(path)`: the records of the file its extension selects
      (compared in lower case), stamped with the file's base name, or the
      CommandError for a missing file or an unsupported extension. */
  function Plan(fs: map<string, FileView>, path: string): (r: Outcome<seq<RowAction>>)
    ensures path !in fs ==> r == Raised(CommandError("File does not exist: " + path))
    ensures path in fs && Lower(Suffix(path)) !in {".csv", ".json", ".xml"} ==>
      r == Raised(CommandError("Unsupported file type: " + Lower(Suffix(path))))
    ensures path in fs && Lower(Suffix(path)) == ".csv" ==> r == Returned(CsvActions(fs[path].csvRows, Basename(path)))
    ensures path in fs && Lower(Suffix(path)) == ".json" ==> r == JsonPlan(fs[path].json, Basename(path))
    ensures path in fs && Lower(Suffix(path)) == ".xml" ==> r == XmlPlan(fs[path].xml, Basename(path))
    ensures r.Returned? ==> forall i | 0 <= i < |r.value| ::
      Stamped(r.value[i], Basename(path), Lower(Suffix(path)) == ".json")
  {
    if path !in fs then Raised(CommandError("File does not exist: " + path))
    else
      var ext := Lower(Suffix(path));
      var filename := Basename(path);
      if ext == ".csv" then Returned(CsvActions(fs[path].csvRows, filename))
      else if ext == ".json" then JsonPlan(fs[path].json, filename)
      else if ext == ".xml" then XmlPlan(fs[path].xml, filename)
      else Raised(CommandError("Unsupported file type: " + ext))
  }

  /** A plan carried out on the table. */
  function Run(rows: map<string, Record>, plan: Outcome<seq<RowAction>>): Outcome<Imported>
  {
    match plan
    case Raised(e) => Raised(e)
    case Returned(acts) => RunActions(rows, acts)
  }

  /** `import_csv(file_path, filename)`. */
  method ImportCsv(table: PoiTable, rows: seq<CsvRow>, filename: string) returns (result: Outcome<nat>)
    modifies table
    ensures Transacted(old(table.rows), table.rows, result, RunActions(old(table.rows), CsvActions(rows, filename)))
  {
    result := RunRows(table, CsvActions(rows, filename));
  }

  /** `import_json(file_path, filename)`. */
  method ImportJson(table: PoiTable, file: Parsed<Json>, filename: string) returns (result: Outcome<nat>)
    modifies table
    ensures Transacted(old(table.rows), table.rows, result, Run(old(table.rows), JsonPlan(file, filename)))
  {
    match JsonPlan(file, filename)
    case Raised(e) => result := Raised(e);
    case Returned(acts) => result := RunRows(table, acts);
  }

  /** `import_xml(file_path, filename)`. */
  method ImportXml(table: PoiTable, file: Parsed<Element>, filename: string) returns (result: Outcome<nat>)
    modifies table
    ensures Transacted(old(table.rows), table.rows, result, Run(old(table.rows), XmlPlan(file, filename)))
  {
    match XmlPlan(file, filename)
    case Raised(e) => result := Raised(e);
    case Returned(acts) => result := RunRows(table, acts);
  }

  /** `import_file(file_path)`: check the file exists, then dispatch on its extension. */
  method ImportFile(table: PoiTable, fs: map<string, FileView>, path: string) returns (result: Outcome<nat>)
    modifies table
    ensures Transacted(old(table.rows), table.rows, result, Run(old(table.rows), Plan(fs, path)))
  {
    if path !in fs {
      return Raised(CommandError("File does not exist: " + path));
    }
    var ext := Lower(Suffix(path));
    var filename := Basename(path);
    if ext == ".csv" {
      result := ImportCsv(table, fs[path].csvRows, filename);
    } else if ext == ".json" {
      result := ImportJson(table, fs[path].json, filename);
    } else if ext == ".xml" {
      result := ImportXml(table, fs[path].xml, filename);
    } else {
      result := Raised(CommandError("Unsupported file type: " + ext));
    }
  }

  // ---------------------------------------------------------------------
  // The command

  /** The line `handle` prints for one file: its count, or the exception. */
  datatype Report = Succeeded(path: string, count: nat) | Failed(path: string, error: Exception)

  /** The table and the reports after a list of files. */
  datatype Batch = Batch(rows: map<string, Record>, log: seq<Report>)

  /** The files imported one after another from `rows`: a file that fails is
      reported and leaves the table as it was; the others go on. */
  function RunBatch(rows: map<string, Record>, fs: map<string, FileView>, files: seq<string>): Batch
    decreases |files|
  {
    if files == [] then Batch(rows, [])
    else
      var n := |files| - 1;
      var b := RunBatch(rows, fs, files[..n]);
      match Run(b.rows, Plan(fs, files[n]))
      case Returned(s) => Batch(s.rows, b.log + [Succeeded(files[n], s.count)])
      case Raised(e) => Batch(b.rows, b.log + [Failed(files[n], e)])
  }

  /** The sum of the counts of the files that succeeded. */
  function Total(log: seq<Report>): nat
  {
    if log == [] then 0
    else Total(log[..|log| - 1]) + match log[|log| - 1] case Succeeded(_, c) => c case Failed(_, _) => 0
  }

  /** `handle(*files, clear=clear)`: optionally empty the table, import each
      file, report it, and add up the counts. */
  method Handle(table: PoiTable, fs: map<string, FileView>, files: seq<string>, clear: bool)
    returns (total: nat, log: seq<Report>)
    modifies table
    ensures RunBatch(if clear then map[] else old(table.rows), fs, files) == Batch(table.rows, log)
    ensures total == Total(log)
  {
    if clear {
      table.DeleteAll();
    }
    var start := table.rows;
    total := 0;
    log := [];
    var i := 0;
    while i < |files|
      invariant 0 <= i <= |files|
      invariant RunBatch(start, fs, files[..i]) == Batch(table.rows, log)
      invariant total == Total(log)
    {
      var path := files[i];
      ghost var rows := table.rows;
      var r := ImportFile(table, fs, path);
      BatchStep(start, fs, files, i, rows, log, table.rows, r);
      TotalStep(log, ReportOf(path, r));
      match r {
        case Returned(count) =>
          total := total + count;
          log := log + [Succeeded(path, count)];
        case Raised(e) =>
          log := log + [Failed(path, e)];
      }
      i := i + 1;
    }
    assert files[..i] == files;
  }

  /** The report of one file's import. */
  function ReportOf(path: string, result: Outcome<nat>): (r: Report)
    ensures r.path == path && (r.Failed? <==> result.Raised?)
  {
    match result
    case Returned(count) => Succeeded(path, count)
    case Raised(e) => Failed(path, e)
  }

  /** One more file extends the batch by its transacted import and its report. */
  lemma BatchStep(start: map<string, Record>, fs: map<string, FileView>, files: seq<string>, i: nat,
                  rows: map<string, Record>, log: seq<Report>, after: map<string, Record>, result: Outcome<nat>)
    requires i < |files| && RunBatch(start, fs, files[..i]) == Batch(rows, log)
    requires Transacted(rows, after, result, Run(rows, Plan(fs, files[i])))
    ensures RunBatch(start, fs, files[..i + 1]) == Batch(after, log + [ReportOf(files[i], result)])
  {
    assert files[..i + 1][..i] == files[..i];
  }

  /** One more report adds its count to the total. */
  lemma TotalStep(log: seq<Report>, r: Report)
    ensures Total(log + [r]) == Total(log) + match r case Succeeded(_, c) => c case Failed(_, _) => 0
  {
    assert (log + [r])[..|log|] == log;
  }

  // ---------------------------------------------------------------------
  // Properties of the command

  /** Importing the same records again, on the table the first import left,
      creates no row and changes no row. */
  lemma ReimportChangesNothing(rows: map<string, Record>, acts: seq<RowAction>)
    requires RunActions(rows, acts).Returned?
    ensures var once := RunActions(rows, acts).value.rows;
      RunActions(once, acts) == Returned(Imported(once, 0))
  {
    var once := RunActions(rows, acts).value.rows;
    RunActionsSummary(rows, acts);
    RunActionsSummary(once, acts);
    assert WrittenKeys(acts) - once.Keys == {};
    RunIsReplay(rows, acts);
    RunIsReplay(once, acts);
    ReplayIdempotent(rows, acts);
  }

  /** No record among `acts` fails. */
  predicate NoFails(acts: seq<RowAction>) {
    forall i | 0 <= i < |acts| :: !Fails(acts[i])
  }

  /** The table a file's records leave when none of them fails. */
  function Replay(rows: map<string, Record>, acts: seq<RowAction>): map<string, Record>
    requires NoFails(acts)
    decreases |acts|
  {
    if acts == [] then rows
    else
      var n := |acts| - 1;
      assert forall i | 0 <= i < n :: acts[..n][i] == acts[i];
      var before := Replay(rows, acts[..n]);
      match acts[n]
      case Write(d) => Upsert(before, d)
      case _ => before
  }

  lemma {:induction false} RunIsReplay(rows: map<string, Record>, acts: seq<RowAction>)
    requires RunActions(rows, acts).Returned?
    ensures NoFails(acts) && RunActions(rows, acts).value.rows == Replay(rows, acts)
    decreases |acts|
  {
    if acts != [] {
      var n := |acts| - 1;
      var p := acts[..n];
      assert forall i | 0 <= i < n :: p[i] == acts[i];
      RunIsReplay(rows, p);
      StepIsReplay(RunActions(rows, p).value, acts[n]);
    }
  }

  /** A step that returns leaves the table one record's replay leaves. */
  lemma StepIsReplay(s: Imported, a: RowAction)
    requires Step(s, a).Returned?
    ensures !Fails(a)
    ensures Step(s, a).value.rows == match a case Write(d) => Upsert(s.rows, d) case _ => s.rows
  {
  }

  /** Replaying records twice leaves what replaying them once does. */
  lemma {:induction false} ReplayIdempotent(x: map<string, Record>, acts: seq<RowAction>)
    requires NoFails(acts)
    ensures Replay(Replay(x, acts), acts) == Replay(x, acts)
    decreases |acts|
  {
    if acts != [] {
      var n := |acts| - 1;
      var p := acts[..n];
      assert forall i | 0 <= i < n :: p[i] == acts[i];
      ReplayIdempotent(x, p);
      var once := Replay(x, p);
      match acts[n] {
        case Write(d) =>
          Absorb(once, p, d);
          assert Replay(Replay(x, acts), acts) == Upsert(Replay(Upsert(once, d), p), d);
        case Skip =>
        case Abort(_) =>
      }
    }
  }

  /** A write that is written again after more records can be left out
      the first time. */
  lemma {:induction false} Absorb(y: map<string, Record>, p: seq<RowAction>, d: PoiData)
    requires NoFails(p) && !RatingRaises(d.ratingsData)
    ensures Upsert(Replay(Upsert(y, d), p), d) == Upsert(Replay(y, p), d)
    decreases |p|
  {
    if p == [] {
      UpsertTwice(y, d);
    } else {
      var n := |p| - 1;
      var q := p[..n];
      assert forall i | 0 <= i < n :: q[i] == p[i];
      Absorb(y, q, d);
      match p[n] {
        case Write(e) =>
          UpsertCongruence(Replay(Upsert(y, d), q), Replay(y, q), d, e);
        case Skip =>
        case Abort(_) =>
      }
    }
  }

  /** The table invariant the command keeps: every row is filed under its
      own external id, and its id and name are not empty. */
  predicate Consistent(rows: map<string, Record>) {
    forall k | k in rows :: rows[k].externalId == k && k != "" && rows[k].name != ""
  }

  /** Every row the records write names `filename` as its source. */
  predicate WritesFrom(acts: seq<RowAction>, filename: string) {
    forall i | 0 <= i < |acts| :: Stamped(acts[i], filename, acts[i].Write? && acts[i].data.description.Some?)
  }

  /** A file's import keeps the table consistent, and every row it writes
      records the file it came from. */
  lemma {:induction false} RunKeepsConsistent(rows: map<string, Record>, acts: seq<RowAction>, filename: string)
    requires Consistent(rows) && WritesFrom(acts, filename) && RunActions(rows, acts).Returned?
    ensures var after := RunActions(rows, acts).value.rows;
      && Consistent(after)
      && forall k | k in WrittenKeys(acts) :: k in after && after[k].sourceFile == filename
    decreases |acts|
  {
    if acts != [] {
      var n := |acts| - 1;
      assert forall i | 0 <= i < n :: acts[..n][i] == acts[i];
      PrefixStep(rows, acts);
      RunKeepsConsistent(rows, acts[..n], filename);
      var s := RunActions(rows, acts[..n]).value;
      if acts[n].Write? {
        StepKeepsConsistent(s.rows, acts[n].data, WrittenKeys(acts[..n]), filename);
      }
    }
  }

  lemma StepKeepsConsistent(rows: map<string, Record>, d: PoiData, written: set<string>, filename: string)
    requires Consistent(rows) && d.externalId != "" && d.name != "" && d.sourceFile == filename
    requires forall k | k in written :: k in rows && rows[k].sourceFile == filename
    requires UpdateOrCreateSpec(rows, d).Returned?
    ensures var after := UpdateOrCreateSpec(rows, d).value.rows;
      && Consistent(after)
      && forall k | k in written + {d.externalId} :: k in after && after[k].sourceFile == filename
  {
    UpsertWrites(rows, d);
  }

  /** A file that the command reads writes consistent rows stamped with its name. */
  lemma PlanWritesFrom(fs: map<string, FileView>, path: string)
    requires Plan(fs, path).Returned?
    ensures WritesFrom(Plan(fs, path).value, Basename(path))
  {
  }

  /** Whatever the files hold, the command keeps the table consistent. */
  lemma {:induction false} BatchKeepsConsistent(rows: map<string, Record>, fs: map<string, FileView>, files: seq<string>)
    requires Consistent(rows)
    ensures Consistent(RunBatch(rows, fs, files).rows)
    decreases |files|
  {
    if files != [] {
      var n := |files| - 1;
      BatchKeepsConsistent(rows, fs, files[..n]);
      var b := RunBatch(rows, fs, files[..n]);
      var plan := Plan(fs, files[n]);
      if plan.Returned? && RunActions(b.rows, plan.value).Returned? {
        PlanWritesFrom(fs, files[n]);
        RunKeepsConsistent(b.rows, plan.value, Basename(files[n]));
      }
    }
  }

  /** Whether a file fails, whatever the table holds: it cannot be read, or
      one of its records raises. */
  predicate FileFails(fs: map<string, FileView>, path: string) {
    var plan := Plan(fs, path);
    plan.Raised? || exists i | 0 <= i < |plan.value| :: Fails(plan.value[i])
  }

  /** `handle` reports every file once, in order, and a file is reported as
      failed exactly when it fails on its own: one file's failure does not
      depend on the files before it. */
  lemma {:induction false} BatchLog(rows: map<string, Record>, fs: map<string, FileView>, files: seq<string>)
    ensures var log := RunBatch(rows, fs, files).log;
      && |log| == |files|
      && forall i | 0 <= i < |files| :: log[i].path == files[i] && (log[i].Failed? <==> FileFails(fs, files[i]))
    decreases |files|
  {
    if files != [] {
      var n := |files| - 1;
      BatchLog(rows, fs, files[..n]);
      var b := RunBatch(rows, fs, files[..n]);
      var log := RunBatch(rows, fs, files).log;
      LastReport(rows, fs, files);
      ExtendLog(b.log, log, p => FileFails(fs, p), files);
    }
  }

  /** Reports that match a list of files, extended by a matching last report. */
  lemma ExtendLog(earlier: seq<Report>, log: seq<Report>, fails: string -> bool, files: seq<string>)
    requires files != [] && |earlier| == |files| - 1
    requires forall i | 0 <= i < |earlier| ::
      (earlier[i].path == files[..|earlier|][i] && (earlier[i].Failed? <==> fails(files[..|earlier|][i])))
    requires |log| == |earlier| + 1 && log[..|earlier|] == earlier
    requires log[|earlier|].path == files[|earlier|] && (log[|earlier|].Failed? <==> fails(files[|earlier|]))
    ensures forall i | 0 <= i < |files| :: log[i].path == files[i] && (log[i].Failed? <==> fails(files[i]))
  {
    forall i | 0 <= i < |files|
      ensures log[i].path == files[i] && (log[i].Failed? <==> fails(files[i]))
    {
      if i < |earlier| {
        assert files[..|earlier|][i] == files[i];
        assert log[i] == log[..|earlier|][i];
      }
    }
  }

  /** The last file adds one report to the log of the files before it. */
  lemma LastReport(rows: map<string, Record>, fs: map<string, FileView>, files: seq<string>)
    requires files != []
    ensures var n := |files| - 1;
      var b := RunBatch(rows, fs, files[..n]);
      var log := RunBatch(rows, fs, files).log;
      && |log| == |b.log| + 1 && log[..|b.log|] == b.log
      && log[|b.log|].path == files[n] && (log[|b.log|].Failed? <==> FileFails(fs, files[n]))
  {
    var n := |files| - 1;
    var b := RunBatch(rows, fs, files[..n]);
    RunFails(b.rows, fs, files[n]);
    var log := RunBatch(rows, fs, files).log;
    assert log[..|b.log|] == b.log;
  }

  /** A file's import raises exactly when the file fails. */
  lemma RunFails(rows: map<string, Record>, fs: map<string, FileView>, path: string)
    ensures Run(rows, Plan(fs, path)).Raised? <==> FileFails(fs, path)
  {
  }

  /** The count `handle` prints is the number of rows created: with
      `--clear`, the number of rows the table ends with. */
  lemma {:induction false} BatchTotal(rows: map<string, Record>, fs: map<string, FileView>, files: seq<string>)
    ensures var b := RunBatch(rows, fs, files);
      b.rows.Keys >= rows.Keys && Total(b.log) == |b.rows.Keys - rows.Keys|
    decreases |files|
  {
    if files != [] {
      var n := |files| - 1;
      BatchTotal(rows, fs, files[..n]);
      var b := RunBatch(rows, fs, files[..n]);
      var run := Run(b.rows, Plan(fs, files[n]));
      LastFile(rows, fs, files);
      match run {
        case Returned(s) =>
          TotalStep(b.log, Succeeded(files[n], s.count));
          RunActionsSummary(b.rows, Plan(fs, files[n]).value);
          AddedKeys(rows.Keys, b.rows.Keys, s.rows.Keys);
        case Raised(e) =>
          TotalStep(b.log, Failed(files[n], e));
      }
    }
  }

  /** The batch of a non-empty list of files: the batch of all but the last,
      then the last file's import and report. */
  lemma LastFile(rows: map<string, Record>, fs: map<string, FileView>, files: seq<string>)
    requires files != []
    ensures var n := |files| - 1;
      var b := RunBatch(rows, fs, files[..n]);
      RunBatch(rows, fs, files) ==
        match Run(b.rows, Plan(fs, files[n]))
        case Returned(s) => Batch(s.rows, b.log + [Succeeded(files[n], s.count)])
        case Raised(e) => Batch(b.rows, b.log + [Failed(files[n], e)])
  {
  }

  /** New keys add up across nested key sets. */
  lemma AddedKeys<K>(a: set<K>, b: set<K>, c: set<K>)
    requires a <= b <= c
    ensures |c - a| == |b - a| + |c - b|
  {
    assert c - a == (b - a) + (c - b);
    assert (b - a) * (c - b) == {};
  }

  // ---------------------------------------------------------------------
  // Field extraction edge cases

  /** An XML coordinate that is missing or has empty text reads as 0. */
  lemma XmlCoordinateDefault(e: Element, tag: string)
    requires Find(e, tag).None? || Find(e, tag).value.text.None? || Find(e, tag).value.text == Some("")
    ensures Numbers.ParseFloat(GetXmlText(e, tag, "0")) == Some(0.0)
  {
    assert GetXmlText(e, tag, "0") == "0";
    ZeroParses();
  }

  lemma ZeroParses()
    ensures Numbers.ParseFloat("0") == Some(0.0)
  {
    assert Strip("0") == "0";
    assert Numbers.DigitsValue("0") == 0;
  }

  /** An XML coordinate whose text is only whitespace reads as `''`, which
      `float()` rejects, so the record is skipped rather than given 0. */
  lemma XmlBlankCoordinateSkips(e: Element, filename: string)
    requires var c := Find(e, "platitude");
      c.Some? && c.value.text.Some? && c.value.text.value != ""
      && forall i | 0 <= i < |c.value.text.value| :: IsSpace(c.value.text.value[i])
    ensures XmlAction(e, filename) == Skip
  {
    var t := Find(e, "platitude").value.text.value;
    assert GetXmlText(e, "platitude", "0") == Strip(t) == "";
    EmptyDoesNotParse();
  }

  lemma EmptyDoesNotParse()
    ensures Numbers.ParseFloat("").None?
  {
    assert Strip("") == "";
  }

  /** A CSV or XML row leaves the stored description alone when it updates a row. */
  lemma UpdateKeepsDescription(rows: map<string, Record>, d: PoiData)
    requires d.description.None? && d.externalId in rows && UpdateOrCreateSpec(rows, d).Returned?
    ensures UpdateOrCreateSpec(rows, d).value.rows[d.externalId].description == rows[d.externalId].description
  {
    UpsertWrites(rows, d);
  }

  /** A JSON item always writes a description: its stripped text, or the
      empty string when the item has none, replacing what was stored. */
  lemma JsonWritesDescription(item: Json, filename: string)
    requires JsonAction(item, filename).Write?
    ensures item.JObj?
    ensures var d := JsonAction(item, filename).data;
      d.description == Some(JsonText(item.members, "description"))
      && (Lookup(item.members, "description").None? ==> d.description == Some(""))
  {
  }

  /** A JSON item whose `ratings` is a non-empty list of numbers stores
      those numbers as the JSON text `json.dumps` writes, and the row it
      writes gets their mean rounded to two decimals as its average. */
  lemma JsonNumericRatings(rows: map<string, Record>, item: Json, lits: seq<string>, filename: string)
    requires item.JObj?
    requires lits != [] && forall i | 0 <= i < |lits| :: Numbers.ParseJsonNumber(lits[i]).Some?
    requires Lookup(item.members, "ratings") == Some(JArr(seq(|lits|, i requires 0 <= i < |lits| => JNum(lits[i]))))
    requires JsonAction(item, filename).Write?
    ensures var d := JsonAction(item, filename).data;
      var average := Some(Ratings.Round2(Ratings.Mean(Ratings.Values(Ratings.LiteralItems(lits)))));
      && d.ratingsData == "[" + Join(lits, ", ") + "]"
      && UpdateOrCreateSpec(rows, d).Returned?
      && UpdateOrCreateSpec(rows, d).value.rows[d.externalId].averageRating == average
  {
    var d := JsonAction(item, filename).data;
    JsonActionRatings(item, filename);
    RatingsTextOfNumbers(lits);
    StoredAverage(rows, d, lits);
  }

  /** The ratings a JSON item writes are `json.dumps` of its `ratings`
      member when that is truthy. */
  lemma JsonActionRatings(item: Json, filename: string)
    requires item.JObj? && JsonAction(item, filename).Write?
    ensures JsonAction(item, filename).data.ratingsData ==
      RatingsText(match Lookup(item.members, "ratings") case Some(v) => v case None => JArr([]))
  {
  }

  lemma RatingsTextOfNumbers(lits: seq<string>)
    requires lits != []
    ensures RatingsText(JArr(seq(|lits|, i requires 0 <= i < |lits| => JNum(lits[i])))) == "[" + Join(lits, ", ") + "]"
  {
    var ratings := JArr(seq(|lits|, i requires 0 <= i < |lits| => JNum(lits[i])));
    assert Truthy(ratings);
    DumpsNumbers(lits);
  }

  lemma StoredAverage(rows: map<string, Record>, d: PoiData, lits: seq<string>)
    requires lits != [] && forall i | 0 <= i < |lits| :: Numbers.ParseJsonNumber(lits[i]).Some?
    requires d.ratingsData == "[" + Join(lits, ", ") + "]"
    ensures UpdateOrCreateSpec(rows, d).Returned?
    ensures UpdateOrCreateSpec(rows, d).value.rows[d.externalId].averageRating
      == Some(Ratings.Round2(Ratings.Mean(Ratings.Values(Ratings.LiteralItems(lits)))))
  {
    Ratings.BracketAndCommaAgree(lits);
    UpsertWrites(rows, d);
  }
}
