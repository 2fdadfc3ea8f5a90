/** The `PointOfInterest` model and its table: the fields a row stores,
    `save()` (which recomputes the average rating first) and the
    `update_or_create` the importers call, keyed by the external id. */
module Store {
  import opened Outcomes
  import Ratings

  /** One stored point of interest. Coordinates are exact reals; the
      description is `None` for SQL NULL. */
  datatype Record = Record(
    externalId: string,
    name: string,
    latitude: real,
    longitude: real,
    category: string,
    ratingsData: string,
    averageRating: Option<real>,
    description: Option<string>,
    sourceFile: string)

  /** The `defaults` an importer passes to `update_or_create`. The CSV and
      XML importers pass no description (`None`); the JSON importer always
      passes one. */
  datatype PoiData = PoiData(
    externalId: string,
    name: string,
    latitude: real,
    longitude: real,
    category: string,
    ratingsData: string,
    description: Option<string>,
    sourceFile: string)

  /** `PointOfInterest(external_id=key)` before any default is applied:
      every other field holds its declared default. */
  function Blank(key: string): (r: Record)
    ensures r.externalId == key && r.averageRating.None? && r.description.None?
  {
    Record(key, "", 0.0, 0.0, "", "", None, None, "")
  }

  /** `setattr(obj, k, v)` for every entry of the defaults. */
  function Assign(r: Record, d: PoiData): Record
  {
    r.(externalId := d.externalId, name := d.name, latitude := d.latitude,
       longitude := d.longitude, category := d.category, ratingsData := d.ratingsData,
       description := if d.description.Some? then d.description else r.description,
       sourceFile := d.sourceFile)
  }

  /** Whether `save()` raises for these ratings: computing the average lets
      `sum()`'s TypeError escape. */
  predicate RatingRaises(ratingsData: string) {
    Ratings.CalculateAverageRating(ratingsData).Raised?
  }

  /** `save()`: the average is recomputed only when the ratings are not
      empty; otherwise the stored average is kept. */
  function SaveSpec(r: Record): (s: Outcome<Record>)
    ensures s.Raised? <==> RatingRaises(r.ratingsData)
    ensures s.Raised? ==> s.error == TypeError
    ensures s.Returned? ==> s.value.(averageRating := r.averageRating) == r
    ensures s.Returned? && r.ratingsData != "" ==>
      Ratings.CalculateAverageRating(r.ratingsData) == Returned(s.value.averageRating)
    ensures s.Returned? && r.ratingsData == "" ==> s.value == r
  {
    if r.ratingsData != "" then
      match Ratings.CalculateAverageRating(r.ratingsData)
      case Returned(a) => Returned(r.(averageRating := a))
      case Raised(e) => Raised(e)
    else Returned(r)
  }

  /** The row `update_or_create(external_id=d.externalId, defaults=d)`
      leaves, given the row that was there before (`None` when there was
      none): every field of the defaults is written; the description is
      kept when the defaults have none; the average is recomputed from
      non-empty ratings and otherwise kept. */
  predicate Written(rec: Record, d: PoiData, prior: Option<Record>) {
    && rec.externalId == d.externalId && rec.name == d.name
    && rec.latitude == d.latitude && rec.longitude == d.longitude
    && rec.category == d.category && rec.ratingsData == d.ratingsData
    && rec.sourceFile == d.sourceFile
    && rec.description == (if d.description.Some? then d.description
                           else if prior.Some? then prior.value.description else None)
    && (if d.ratingsData != "" then Ratings.CalculateAverageRating(d.ratingsData) == Returned(rec.averageRating)
        else rec.averageRating == (if prior.Some? then prior.value.averageRating else None))
  }

  /** The table after an upsert, and whether a row was created. */
  datatype Upserted = Upserted(rows: map<string, Record>, created: bool)

  /** `PointOfInterest.objects.update_or_create(external_id=key, defaults=d)`
      on a table keyed by external id. */
  function UpdateOrCreateSpec(rows: map<string, Record>, d: PoiData): (r: Outcome<Upserted>)
    ensures r.Raised? <==> RatingRaises(d.ratingsData)
    ensures r.Raised? ==> r.error == TypeError
    ensures r.Returned? ==>
      && (r.value.created <==> d.externalId !in rows)
      && r.value.rows.Keys == rows.Keys + {d.externalId}
      && (forall k | k in rows && k != d.externalId :: r.value.rows[k] == rows[k])
  {
    var key := d.externalId;
    var created := key !in rows;
    var base := if created then Blank(key) else rows[key];
    match SaveSpec(Assign(base, d))
    case Returned(rec) => Returned(Upserted(rows[key := rec], created))
    case Raised(e) => Raised(e)
  }

  /** The row an upsert leaves holds the defaults, as `Written` says. */
  lemma UpsertWrites(rows: map<string, Record>, d: PoiData)
    requires UpdateOrCreateSpec(rows, d).Returned?
    ensures var prior := if d.externalId in rows then Some(rows[d.externalId]) else None;
      Written(UpdateOrCreateSpec(rows, d).value.rows[d.externalId], d, prior)
  {
    var base := if d.externalId in rows then rows[d.externalId] else Blank(d.externalId);
    var rec := UpdateOrCreateSpec(rows, d).value.rows[d.externalId];
    assert SaveSpec(Assign(base, d)) == Returned(rec);
  }

  /** Upserting the same defaults a second time creates nothing and changes nothing. */
  lemma UpsertIdempotent(rows: map<string, Record>, d: PoiData)
    requires UpdateOrCreateSpec(rows, d).Returned?
    ensures var once := UpdateOrCreateSpec(rows, d).value.rows;
      UpdateOrCreateSpec(once, d) == Returned(Upserted(once, false))
  {
    var once := UpdateOrCreateSpec(rows, d).value.rows;
    var rec := once[d.externalId];
    assert Assign(rec, d) == rec;
    assert once[d.externalId := rec] == once;
  }

  /** The row `save()` stores for instance `r` after `d` is assigned, when
      computing the average does not raise. */
  function Patch(r: Record, d: PoiData): (p: Record)
    requires !RatingRaises(d.ratingsData)
    ensures p == Assign(r, d).(averageRating := p.averageRating)
    ensures d.ratingsData == "" ==> p.averageRating == r.averageRating
    ensures d.ratingsData != "" ==> Ratings.CalculateAverageRating(d.ratingsData) == Returned(p.averageRating)
  {
    SaveSpec(Assign(r, d)).value
  }

  /** `update_or_create` as a table update, when it does not raise. */
  function Upsert(rows: map<string, Record>, d: PoiData): (after: map<string, Record>)
    requires !RatingRaises(d.ratingsData)
    ensures UpdateOrCreateSpec(rows, d) == Returned(Upserted(after, d.externalId !in rows))
  {
    var k := d.externalId;
    rows[k := Patch(if k in rows then rows[k] else Blank(k), d)]
  }

  /** Writing the same defaults twice is writing them once. */
  lemma PatchTwice(r: Record, d: PoiData)
    requires !RatingRaises(d.ratingsData)
    ensures Patch(Patch(r, d), d) == Patch(r, d)
  {
  }

  lemma UpsertTwice(rows: map<string, Record>, d: PoiData)
    requires !RatingRaises(d.ratingsData)
    ensures Upsert(Upsert(rows, d), d) == Upsert(rows, d)
  {
    var k := d.externalId;
    var base := if k in rows then rows[k] else Blank(k);
    var once := Upsert(rows, d);
    assert once == rows[k := Patch(base, d)];
    assert Upsert(once, d) == once[k := Patch(once[k], d)];
    PatchTwice(base, d);
    SameUpdate(once, k, Patch(once[k], d));
  }

  /** Writing a key with the value it already holds leaves a map as it was. */
  lemma SameUpdate<K, V>(m: map<K, V>, k: K, v: V)
    requires k in m && v == m[k]
    ensures m[k := v] == m
  {
  }

  /** Whatever `a` overwrites, it overwrites after `b` too: if two rows
      agree once `a` is written, they agree once `b` and then `a` are. */
  lemma PatchCongruence(r1: Record, r2: Record, a: PoiData, b: PoiData)
    requires !RatingRaises(a.ratingsData) && !RatingRaises(b.ratingsData)
    requires Patch(r1, a) == Patch(r2, a)
    ensures Patch(Patch(r1, b), a) == Patch(Patch(r2, b), a)
  {
    var p1, p2 := Patch(r1, a), Patch(r2, a);
    assert a.description.None? ==> r1.description == r2.description by {
      assert p1.description == p2.description;
    }
    assert a.ratingsData == "" ==> r1.averageRating == r2.averageRating by {
      assert p1.averageRating == p2.averageRating;
    }
  }

  /** `PatchCongruence` lifted to tables. */
  lemma UpsertCongruence(z1: map<string, Record>, z2: map<string, Record>, a: PoiData, b: PoiData)
    requires !RatingRaises(a.ratingsData) && !RatingRaises(b.ratingsData)
    requires Upsert(z1, a) == Upsert(z2, a)
    ensures Upsert(Upsert(z1, b), a) == Upsert(Upsert(z2, b), a)
  {
    var ka, kb := a.externalId, b.externalId;
    var base1 := if ka in z1 then z1[ka] else Blank(ka);
    var base2 := if ka in z2 then z2[ka] else Blank(ka);
    AgreeOff(z1, z2, ka, Patch(base1, a), Patch(base2, a));
    var v1, v2 := Upsert(z1, b), Upsert(z2, b);
    var x1, x2 := v1[kb], v2[kb];
    var y1 := Patch(if ka in v1 then v1[ka] else Blank(ka), a);
    var y2 := Patch(if ka in v2 then v2[ka] else Blank(ka), a);
    if ka == kb {
      PatchCongruence(base1, base2, a, b);
      assert y1 == y2;
    } else {
      assert (kb in z1 <==> kb in z2) && (kb in z1 ==> z1[kb] == z2[kb]);
      assert x1 == x2;
      assert y1 == Patch(base1, a) && y2 == Patch(base2, a);
    }
    Rebuild(z1, z2, ka, kb, x1, x2, y1);
  }

  /** Two maps that agree once `k` is overwritten agree away from `k`. */
  lemma AgreeOff<K, V>(z1: map<K, V>, z2: map<K, V>, k: K, v1: V, v2: V)
    requires z1[k := v1] == z2[k := v2]
    ensures forall j | j != k :: (j in z1 <==> j in z2) && (j in z1 ==> z1[j] == z2[j])
  {
    forall j | j != k ensures (j in z1 <==> j in z2) && (j in z1 ==> z1[j] == z2[j]) {
      assert j in z1 <==> j in z1[k := v1];
      assert j in z2 <==> j in z2[k := v2];
      if j in z1 {
        assert z1[j] == z1[k := v1][j];
      }
    }
  }

  /** Maps that agree away from `ka` agree after writing `kb` (with the
      same value, unless `kb` is `ka`) and then `ka`. */
  lemma Rebuild<K, V>(z1: map<K, V>, z2: map<K, V>, ka: K, kb: K, x1: V, x2: V, y: V)
    requires forall j | j != ka :: (j in z1 <==> j in z2) && (j in z1 ==> z1[j] == z2[j])
    requires ka == kb || x1 == x2
    ensures z1[kb := x1][ka := y] == z2[kb := x2][ka := y]
  {
    var w1, w2 := z1[kb := x1][ka := y], z2[kb := x2][ka := y];
    assert w1.Keys == w2.Keys;
    forall j | j in w1 ensures w1[j] == w2[j] {
      if j != ka && j != kb {
        assert w1[j] == z1[j] && w2[j] == z2[j];
      }
    }
  }

  /** A model instance: the fields `update_or_create` assigns and `save()` stores. */
  class PointOfInterest {
    var externalId: string
    var name: string
    var latitude: real
    var longitude: real
    var category: string
    var ratingsData: string
    var averageRating: Option<real>
    var description: Option<string>
    var sourceFile: string

    /** The row this instance would store. */
    function Snapshot(): Record
      reads this
    {
      Record(externalId, name, latitude, longitude, category, ratingsData,
             averageRating, description, sourceFile)
    }

    /** An instance holding the given row's values. */
    constructor FromRecord(r: Record)
      ensures Snapshot() == r
    {
      externalId := r.externalId;
      name := r.name;
      latitude := r.latitude;
      longitude := r.longitude;
      category := r.category;
      ratingsData := r.ratingsData;
      averageRating := r.averageRating;
      description := r.description;
      sourceFile := r.sourceFile;
    }

    /** `for k, v in defaults.items(): setattr(obj, k, v)`. */
    method Apply(d: PoiData)
      modifies this
      ensures Snapshot() == Assign(old(Snapshot()), d)
    {
      externalId := d.externalId;
      name := d.name;
      latitude := d.latitude;
      longitude := d.longitude;
      category := d.category;
      ratingsData := d.ratingsData;
      if d.description.Some? {
        description := d.description;
      }
      sourceFile := d.sourceFile;
    }

    /** `save()`: recompute the average from non-empty ratings, then store
      the instance. A raise leaves both the instance and the table alone. */
    method Save(table: PoiTable) returns (error: Option<Exception>)
      modifies this, table
      ensures match SaveSpec(old(Snapshot()))
        case Returned(r) =>
          Snapshot() == r && error.None? && table.rows == old(table.rows)[r.externalId := r]
        case Raised(e) =>
          Snapshot() == old(Snapshot()) && error == Some(e) && table.rows == old(table.rows)
    {
      ghost var before := Snapshot();
      error := None;
      if ratingsData != "" {
        match Ratings.CalculateAverageRating(ratingsData)
        case Returned(a) =>
          averageRating := a;
        case Raised(e) =>
          error := Some(e);
          return;
      }
      assert SaveSpec(before) == Returned(Snapshot());
      table.rows := table.rows[externalId := Snapshot()];
    }
  }

  /** The `PointOfInterest` table, one row per external id. */
  class PoiTable {
    var rows: map<string, Record>

    constructor (initial: map<string, Record>)
      ensures rows == initial
    {
      rows := initial;
    }

    /** `PointOfInterest.objects.all().delete()`. */
    method DeleteAll()
      modifies this
      ensures rows == map[]
    {
      rows := map[];
    }

    /** `update_or_create(external_id=d.externalId, defaults=d)`: fetch the
        row or start a blank instance, assign the defaults, save. Returns
        whether a row was created; a raise changes nothing. */
    method UpdateOrCreate(d: PoiData) returns (result: Outcome<bool>)
      modifies this
      ensures match UpdateOrCreateSpec(old(rows), d)
        case Returned(u) => rows == u.rows && result == Returned(u.created)
        case Raised(e) => rows == old(rows) && result == Raised(e)
    {
      var key := d.externalId;
      var created := key !in rows;
      var poi := new PointOfInterest.FromRecord(if created then Blank(key) else rows[key]);
      poi.Apply(d);
      var error := poi.Save(this);
      match error
      case Some(e) => result := Raised(e);
      case None => result := Returned(created);
    }
  }
}
