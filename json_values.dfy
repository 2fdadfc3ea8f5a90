/** Decoded JSON values as the JSON importer sees them, with the Python
    operations it applies to them: `dict.get`, truthiness, `str()`,
    `float()` and `json.dumps()`. */
module JsonValues {
  import opened Outcomes
  import opened Text
  import Numbers

  /** A value `json.load` returns. A number keeps the literal it was written
      as; an object keeps its members in file order, duplicates included. */
  datatype Json =
    | JNull
    | JBool(b: bool)
    | JNum(literal: string)
    | JStr(s: string)
    | JArr(items: seq<Json>)
    | JObj(members: seq<(string, Json)>)

  /** The value a decoded object holds for `key`: Python's dict keeps the
      last of duplicate keys. */
  function Lookup(members: seq<(string, Json)>, key: string): (r: Option<Json>)
    ensures r.None? <==> forall i | 0 <= i < |members| :: members[i].0 != key
    ensures r.Some? ==> exists i | 0 <= i < |members| ::
      (members[i] == (key, r.value) && forall j | i < j < |members| :: members[j].0 != key)
    decreases |members|
  {
    if members == [] then None
    else
      var n := |members| - 1;
      if members[n].0 == key then Some(members[n].1)
      else
        var r := Lookup(members[..n], key);
        assert forall i | 0 <= i < n :: members[..n][i] == members[i];
        r
  }

  /** `v.get(key, default)`: only an object has `.get`. */
  function Get(v: Json, key: string, default: Json): (r: Outcome<Json>)
    ensures r.Raised? <==> !v.JObj?
    ensures r.Raised? ==> r.error == AttributeError
    ensures v.JObj? && Lookup(v.members, key).Some? ==> r == Returned(Lookup(v.members, key).value)
    ensures v.JObj? && Lookup(v.members, key).None? ==> r == Returned(default)
  {
    match v
    case JObj(members) =>
      (match Lookup(members, key)
       case Some(x) => Returned(x)
       case None => Returned(default))
    case _ => Raised(AttributeError)
  }

  /** Python truthiness: `None`, `False`, zero and empty containers are false. */
  predicate Truthy(v: Json) {
    match v
    case JNull => false
    case JBool(b) => b
    case JNum(l) => Numbers.ParseFloat(l) != Some(0.0)
    case JStr(s) => s != []
    case JArr(items) => items != []
    case JObj(members) => members != []
  }

  /** `float(v)`: a number or bool converts, a string is parsed (ValueError
      when it is not a number), and `None`, a list or a dict is a TypeError. */
  function ToFloat(v: Json): (r: Outcome<real>)
    ensures v.JNull? || v.JArr? || v.JObj? ==> r == Raised(TypeError)
    ensures v.JBool? ==> r == Returned(if v.b then 1.0 else 0.0)
    ensures v.JNum? && Numbers.ParseJsonNumber(v.literal).Some? ==> r == Returned(Numbers.ParseJsonNumber(v.literal).value)
    ensures v.JStr? && Numbers.ParseFloat(v.s).Some? ==> r == Returned(Numbers.ParseFloat(v.s).value)
    ensures v.JStr? && Numbers.ParseFloat(v.s).None? ==> r == Raised(ValueError)
    ensures r.Raised? ==> r.error == TypeError || r.error == ValueError
  {
    match v
    case JNull => Raised(TypeError)
    case JBool(b) => Returned(if b then 1.0 else 0.0)
    case JNum(l) =>
      if Numbers.ParseJsonNumber(l).Some? then
        Numbers.JsonNumberIsFloat(l);
        Returned(Numbers.ParseJsonNumber(l).value)
      else
        (match Numbers.ParseFloat(l)
         case Some(x) => Returned(x)
         case None => Raised(ValueError))
    case JStr(s) =>
      (match Numbers.ParseFloat(s)
       case Some(x) => Returned(x)
       case None => Raised(ValueError))
    case JArr(_) => Raised(TypeError)
    case JObj(_) => Raised(TypeError)
  }

  /** `json.dumps(v)` with its default separators `", "` and `": "`. */
  function Dumps(v: Json): string
    decreases v
  {
    match v
    case JNull => "null"
    case JBool(b) => if b then "true" else "false"
    case JNum(l) => l
    case JStr(s) => "\"" + s + "\""
    case JArr(items) =>
      "[" + Join(seq(|items|, i requires 0 <= i < |items| => Dumps(items[i])), ", ") + "]"
    case JObj(members) =>
      "{" + Join(seq(|members|, i requires 0 <= i < |members| =>
        assert members[i].1 < members[i];
        "\"" + members[i].0 + "\": " + Dumps(members[i].1)), ", ") + "}"
  }

  /** `repr(s)` for a string: single quotes unless the string holds a single
      quote and no double quote. */
  function QuoteRepr(s: string): string
  {
    if '\'' in s && '"' !in s then "\"" + s + "\"" else "'" + s + "'"
  }

  /** `repr(v)` of the Python value `v` decodes to. */
  function PyRepr(v: Json): string
    decreases v, 1
  {
    match v
    case JStr(s) => QuoteRepr(s)
    case _ => PyStr(v)
  }

  /** `str(v)` of the Python value `v` decodes to. */
  function PyStr(v: Json): string
    decreases v, 0
  {
    match v
    case JNull => "None"
    case JBool(b) => if b then "True" else "False"
    case JNum(l) => l
    case JStr(s) => s
    case JArr(items) =>
      "[" + Join(seq(|items|, i requires 0 <= i < |items| => PyRepr(items[i])), ", ") + "]"
    case JObj(members) =>
      "{" + Join(seq(|members|, i requires 0 <= i < |members| =>
        assert members[i].1 < members[i];
        QuoteRepr(members[i].0) + ": " + PyRepr(members[i].1)), ", ") + "}"
  }

  /** A list of number literals is dumped as the literals joined by `", "`
      between brackets. */
  lemma DumpsNumbers(lits: seq<string>)
    ensures Dumps(JArr(seq(|lits|, i requires 0 <= i < |lits| => JNum(lits[i]))))
      == "[" + Join(lits, ", ") + "]"
  {
    var items := seq(|lits|, i requires 0 <= i < |lits| => JNum(lits[i]));
    assert seq(|items|, i requires 0 <= i < |items| => Dumps(items[i])) == lits;
  }
}
