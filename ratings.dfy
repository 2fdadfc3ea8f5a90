/** `PointOfInterest.calculate_average_rating`: the average of the numbers a
    free-form ratings string holds, rounded to two decimals. The string is
    either a JSON list (`[4, 5]`) or a comma-separated list (`4, 5`). */
module Ratings {
  import opened Outcomes
  import opened Text
  import opened Numbers

  /** An element of the parsed ratings list: a number (JSON `true` and `false`
      add up as 1 and 0), or a value `sum()` cannot add. */
  datatype Item = Num(value: real) | NotNumber

  predicate AllNumbers(items: seq<Item>) {
    forall i | 0 <= i < |items| :: items[i].Num?
  }

  function Values(items: seq<Item>): (xs: seq<real>)
    requires AllNumbers(items)
    ensures |xs| == |items| && forall i | 0 <= i < |items| :: items[i] == Num(xs[i])
  {
    seq(|items|, i requires 0 <= i < |items| => items[i].value)
  }

  /** `sum(xs)`, adding from the left. */
  function Sum(xs: seq<real>): real
  {
    if xs == [] then 0.0 else Sum(xs[..|xs| - 1]) + xs[|xs| - 1]
  }

  /** `sum(xs) / len(xs)`. */
  function Mean(xs: seq<real>): real
    requires xs != []
  {
    Sum(xs) / |xs| as real
  }

  lemma {:induction false} SumWithin(xs: seq<real>, lo: real, hi: real)
    requires forall i | 0 <= i < |xs| :: lo <= xs[i] <= hi
    ensures |xs| as real * lo <= Sum(xs) <= |xs| as real * hi
    decreases |xs|
  {
    if xs != [] {
      var n := |xs| - 1;
      SumWithin(xs[..n], lo, hi);
      assert |xs| as real * lo == n as real * lo + lo;
      assert |xs| as real * hi == n as real * hi + hi;
    }
  }

  /** The mean lies between any lower and upper bound of the ratings, so
      between the smallest and the largest rating. */
  lemma MeanWithin(xs: seq<real>, lo: real, hi: real)
    requires xs != []
    requires forall i | 0 <= i < |xs| :: lo <= xs[i] <= hi
    ensures lo <= Mean(xs) <= hi
  {
    SumWithin(xs, lo, hi);
    var n := |xs| as real;
    assert Mean(xs) * n == Sum(xs);
  }

  /** `round(x, 2)`: the nearest multiple of 0.01, ties to the even one. */
  function Round2(x: real): (r: real)
    ensures -0.005 <= r - x <= 0.005
    ensures (r * 100.0).Floor as real == r * 100.0
  {
    var y := x * 100.0;
    var f := y.Floor;
    var d := y - f as real;
    var n := if d < 0.5 then f else if d > 0.5 then f + 1 else if f % 2 == 0 then f else f + 1;
    n as real / 100.0
  }

  /** `s.startswith("[") and s.endswith("]")`. */
  predicate Bracketed(t: string) {
    t != [] && t[0] == '[' && t[|t| - 1] == ']'
  }

  /** The tokens of the comma form: split on commas, strip, drop the empty ones. */
  function CommaTokens(t: string): seq<string>
  {
    NonEmpty(TrimEach(Split(t, ','), IsSpace))
  }

  /** `[float(r) for r in ts]`: all or nothing, `None` for the first ValueError. */
  function ParseFloats(ts: seq<string>): (r: Option<seq<Item>>)
    ensures r.Some? <==> forall i | 0 <= i < |ts| :: ParseFloat(ts[i]).Some?
    ensures r.Some? ==> |r.value| == |ts| && forall i | 0 <= i < |ts| :: r.value[i] == Num(ParseFloat(ts[i]).value)
  {
    if ts == [] then Some([])
    else match (ParseFloat(ts[0]), ParseFloats(ts[1..]))
      case (Some(v), Some(rest)) => Some([Num(v)] + rest)
      case _ => None
  }

  /** The body of a JSON string without escapes: no quote, no backslash
      and no control character, which `json.loads` refuses inside a string. */
  predicate PlainString(body: string) {
    forall k | 0 <= k < |body| :: body[k] != '"' && body[k] != '\\' && body[k] >= ' '
  }

  /** One element of a JSON list that holds scalars only. String elements
      are read without escapes. */
  function JsonScalar(tok: string): Option<Item>
  {
    match ParseJsonNumber(tok)
    case Some(v) => Some(Num(v))
    case None =>
      if tok == "true" then Some(Num(1.0))
      else if tok == "false" then Some(Num(0.0))
      else if tok == "null" then Some(NotNumber)
      else if |tok| >= 2 && tok[0] == '"' && tok[|tok| - 1] == '"'
              && PlainString(tok[1..|tok| - 1]) then Some(NotNumber)
      else None
  }

  /** The elements of a JSON list: `None` (a JSONDecodeError) as soon as one is malformed. */
  function JsonScalars(ts: seq<string>): (r: Option<seq<Item>>)
    ensures r.Some? <==> forall i | 0 <= i < |ts| :: JsonScalar(ts[i]).Some?
    ensures r.Some? ==> |r.value| == |ts| && forall i | 0 <= i < |ts| :: Some(r.value[i]) == JsonScalar(ts[i])
  {
    if ts == [] then Some([])
    else match (JsonScalar(ts[0]), JsonScalars(ts[1..]))
      case (Some(x), Some(rest)) => Some([x] + rest)
      case _ => None
  }

  /** `json.loads(t)` for a bracketed `t`, read as a flat list of scalars;
      `None` for a JSONDecodeError. */
  function JsonList(t: string): (r: Option<seq<Item>>)
    requires Bracketed(t)
    ensures var inner := t[1..|t| - 1];
      var toks := TrimEach(Split(inner, ','), IsJsonSpace);
      && (Trim(inner, IsJsonSpace) == [] ==> r == Some([]))
      && (r.None? <==> Trim(inner, IsJsonSpace) != [] && exists i | 0 <= i < |toks| :: JsonScalar(toks[i]).None?)
      && (Trim(inner, IsJsonSpace) != [] && r.Some? ==>
            |r.value| == |toks| && forall i | 0 <= i < |toks| :: Some(r.value[i]) == JsonScalar(toks[i]))
  {
    var inner := t[1..|t| - 1];
    if Trim(inner, IsJsonSpace) == [] then Some([])
    else
      var toks := TrimEach(Split(inner, ','), IsJsonSpace);
      JsonScalars(toks)
  }

  /** The list the `try` block builds from the stripped string, or `None`
      when building it raises ValueError. */
  function RatingsList(t: string): Option<seq<Item>>
  {
    if Bracketed(t) then JsonList(t) else ParseFloats(CommaTokens(t))
  }

  /** What the `try` block makes of the parsed list: "no rating" for a
      ValueError or an empty list, the rounded mean of a list of numbers, and
      the TypeError of `sum()` for a list holding anything else. */
  function Average(list: Option<seq<Item>>): (r: Outcome<Option<real>>)
    ensures r.Raised? <==> list.Some? && list.value != [] && !AllNumbers(list.value)
    ensures r.Raised? ==> r.error == TypeError
    ensures r.Returned? && r.value.Some? <==> list.Some? && list.value != [] && AllNumbers(list.value)
    ensures list.Some? && list.value != [] && AllNumbers(list.value) ==>
      r == Returned(Some(Round2(Mean(Values(list.value)))))
  {
    match list
    case None => Returned(None)
    case Some(items) =>
      if items == [] then Returned(None)
      else if !AllNumbers(items) then Raised(TypeError)
      else Returned(Some(Round2(Mean(Values(items)))))
  }

  /** `calculate_average_rating()` for the instance's `ratings_data`. */
  function CalculateAverageRating(ratingsData: string): (r: Outcome<Option<real>>)
    ensures ratingsData == "" ==> r == Returned(None)
    ensures r.Raised? ==> r.error == TypeError
  {
    if ratingsData == "" then Returned(None)
    else Average(RatingsList(Strip(ratingsData)))
  }

  /** The comma form: any token that is not a number makes the whole result
      "no rating" (tokens are never dropped one by one), no token gives "no
      rating", and otherwise the result is the rounded mean of the tokens'
      values. It never raises. */
  lemma CommaForm(ratingsData: string)
    requires ratingsData != "" && !Bracketed(Strip(ratingsData))
    ensures var r := CalculateAverageRating(ratingsData);
      var ts := CommaTokens(Strip(ratingsData));
      && r.Returned?
      && ((exists i | 0 <= i < |ts| :: ParseFloat(ts[i]).None?) ==> r == Returned(None))
      && (ts == [] ==> r == Returned(None))
      && (ts != [] && ParseFloats(ts).Some? ==> r == Returned(Some(Round2(Mean(Values(ParseFloats(ts).value))))))
  {
    CommaPath(ratingsData);
  }

  /** A string that is not bracketed once stripped takes the comma path. */
  lemma CommaPath(ratingsData: string)
    requires ratingsData != "" && !Bracketed(Strip(ratingsData))
    ensures CalculateAverageRating(ratingsData) == Average(ParseFloats(CommaTokens(Strip(ratingsData))))
  {
  }

  /** The JSON form: the result is what `Average` makes of the decoded list,
      so a decode error or an empty list gives "no rating", a list of numbers
      its rounded mean. */
  lemma BracketForm(ratingsData: string)
    requires ratingsData != "" && Bracketed(Strip(ratingsData))
    ensures var r := CalculateAverageRating(ratingsData);
      var l := JsonList(Strip(ratingsData));
      && r == Average(l)
      && (l.None? || l == Some([]) ==> r == Returned(None))
      && (l.Some? && l.value != [] && AllNumbers(l.value) ==> r == Returned(Some(Round2(Mean(Values(l.value))))))
  {
    assert RatingsList(Strip(ratingsData)) == JsonList(Strip(ratingsData));
  }

  /** An error escapes only from the JSON form, and only when the list is
      non-empty and holds something that is not a number. */
  lemma RaisesOnlyOnNonNumbers(ratingsData: string)
    ensures CalculateAverageRating(ratingsData).Raised? <==>
      var t := Strip(ratingsData);
      && ratingsData != ""
      && Bracketed(t)
      && JsonList(t).Some?
      && (exists i | 0 <= i < |JsonList(t).value| :: JsonList(t).value[i] == NotNumber)
  {
    var t := Strip(ratingsData);
    if ratingsData != "" {
      if Bracketed(t) {
        var l := JsonList(t);
        assert RatingsList(t) == l;
        if l.Some? {
          assert !AllNumbers(l.value) <==> exists i | 0 <= i < |l.value| :: l.value[i] == NotNumber;
        }
      } else {
        assert RatingsList(t) == ParseFloats(CommaTokens(t));
      }
    }
  }

  /** A rating that is returned is within half a hundredth of the mean of the
      list's numbers, and so between the smallest and largest of them (up to
      that rounding). */
  lemma AverageWithinRatings(ratingsData: string, lo: real, hi: real)
    requires CalculateAverageRating(ratingsData).Returned?
    requires CalculateAverageRating(ratingsData).value.Some?
    requires var items := RatingsList(Strip(ratingsData));
      items.Some? && forall i | 0 <= i < |items.value| :: items.value[i].Num? ==> lo <= items.value[i].value <= hi
    ensures var a := CalculateAverageRating(ratingsData).value.value;
      lo - 0.005 <= a <= hi + 0.005
  {
    var items := RatingsList(Strip(ratingsData)).value;
    assert CalculateAverageRating(ratingsData) == Average(Some(items));
    var xs := Values(items);
    assert forall i | 0 <= i < |xs| :: lo <= xs[i] <= hi;
    MeanWithin(xs, lo, hi);
  }

  /** The values of JSON number literals, as list items. */
  function LiteralItems(lits: seq<string>): (items: seq<Item>)
    requires forall i | 0 <= i < |lits| :: ParseJsonNumber(lits[i]).Some?
    ensures |items| == |lits| && AllNumbers(items)
  {
    seq(|lits|, i requires 0 <= i < |lits| => Num(ParseJsonNumber(lits[i]).value))
  }

  /** A JSON number literal survives splitting and trimming unchanged, and it
      is neither a keyword, a string, nor a bracket. */
  lemma LiteralIsClean(lit: string)
    requires JsonNumberSyntax(lit)
    ensures CleanToken(lit, IsSpace) && CleanToken(lit, IsJsonSpace) && lit[0] != '['
  {
    JsonNumberShape(lit);
    assert ',' !in lit;
  }

  /** Brackets around any text make a string that `strip()` leaves alone. */
  lemma BracketsAreStripped(j: string)
    ensures var t := "[" + j + "]";
      Strip(t) == t && Bracketed(t) && t[1..|t| - 1] == j
  {
    var t := "[" + j + "]";
    assert t[0] == '[' && t[|t| - 1] == ']';
    assert !IsSpace(t[0]) && !IsSpace(t[|t| - 1]);
  }

  /** `"[" + ", ".join(lits) + "]"` parses, along the JSON path, into the literals' values. */
  lemma JsonFormOfLiterals(lits: seq<string>)
    requires lits != []
    requires forall i | 0 <= i < |lits| :: ParseJsonNumber(lits[i]).Some?
    ensures var t := "[" + Join(lits, ", ") + "]";
      Strip(t) == t && Bracketed(t) && JsonList(t) == Some(LiteralItems(lits))
  {
    var j := Join(lits, ", ");
    BracketsAreStripped(j);
    JsonListOfLiterals(lits, j);
  }

  lemma JsonListOfLiterals(lits: seq<string>, j: string)
    requires lits != [] && j == Join(lits, ", ")
    requires forall i | 0 <= i < |lits| :: ParseJsonNumber(lits[i]).Some?
    requires Bracketed("[" + j + "]") && ("[" + j + "]")[1..|j| + 1] == j
    ensures JsonList("[" + j + "]") == Some(LiteralItems(lits))
  {
    CleanLiterals(lits);
    SplitLiterals(lits, j, IsJsonSpace);
    ScalarsOfLiterals(lits);
  }

  /** Every literal is a clean token for both whitespace sets. */
  lemma CleanLiterals(lits: seq<string>)
    requires forall i | 0 <= i < |lits| :: ParseJsonNumber(lits[i]).Some?
    ensures forall i | 0 <= i < |lits| :: CleanToken(lits[i], IsJsonSpace) && CleanToken(lits[i], IsSpace) && lits[i][0] != '['
  {
    forall i | 0 <= i < |lits|
      ensures CleanToken(lits[i], IsJsonSpace) && CleanToken(lits[i], IsSpace) && lits[i][0] != '['
    {
      LiteralIsClean(lits[i]);
    }
  }

  /** Splitting the joined literals on commas and trimming gives them back;
      the join is not blank. */
  lemma SplitLiterals(lits: seq<string>, j: string, ws: char -> bool)
    requires lits != [] && j == Join(lits, ", ") && ws(' ')
    requires forall i | 0 <= i < |lits| :: CleanToken(lits[i], ws)
    ensures Trim(j, ws) != [] && TrimEach(Split(j, ','), ws) == lits
    ensures j != [] && !ws(j[0]) && !ws(j[|j| - 1]) && lits[0] != [] && j[0] == lits[0][0]
  {
    JoinEnds(lits, ", ");
    TrimSplitJoin("", lits, ws);
    assert "" + j == j;
  }

  /** The literals read as JSON list elements are their values. */
  lemma ScalarsOfLiterals(lits: seq<string>)
    requires forall i | 0 <= i < |lits| :: ParseJsonNumber(lits[i]).Some?
    ensures JsonScalars(lits) == Some(LiteralItems(lits))
  {
    var r := JsonScalars(lits);
    assert r.Some?;
    assert r.value == LiteralItems(lits);
  }

  /** The literals read by `float()` are their values. */
  lemma FloatsOfLiterals(lits: seq<string>)
    requires forall i | 0 <= i < |lits| :: ParseJsonNumber(lits[i]).Some?
    ensures ParseFloats(lits) == Some(LiteralItems(lits))
  {
    forall i | 0 <= i < |lits| ensures ParseFloat(lits[i]) == ParseJsonNumber(lits[i]) {
      JsonNumberIsFloat(lits[i]);
    }
    var r := ParseFloats(lits);
    assert r.Some?;
    assert r.value == LiteralItems(lits);
  }

  /** `", ".join(lits)` parses, along the comma path, into the literals' values. */
  lemma CommaFormOfLiterals(lits: seq<string>)
    requires lits != []
    requires forall i | 0 <= i < |lits| :: ParseJsonNumber(lits[i]).Some?
    ensures var j := Join(lits, ", ");
      Strip(j) == j && !Bracketed(j) && ParseFloats(CommaTokens(j)) == Some(LiteralItems(lits))
  {
    var j := Join(lits, ", ");
    CleanLiterals(lits);
    SplitLiterals(lits, j, IsSpace);
    assert CommaTokens(j) == lits;
    FloatsOfLiterals(lits);
  }

  /** The bracketed and the comma form of the same numbers give the same
      rating: the rounded mean of the numbers. */
  lemma BracketAndCommaAgree(lits: seq<string>)
    requires lits != []
    requires forall i | 0 <= i < |lits| :: ParseJsonNumber(lits[i]).Some?
    ensures var j := Join(lits, ", ");
      var rating := Returned(Some(Round2(Mean(Values(LiteralItems(lits))))));
      CalculateAverageRating("[" + j + "]") == rating && CalculateAverageRating(j) == rating
  {
    var j := Join(lits, ", ");
    var items := LiteralItems(lits);
    JsonFormOfLiterals(lits);
    CommaFormOfLiterals(lits);
    RatingOfList("[" + j + "]", items);
    RatingOfList(j, items);
  }

  lemma RatingOfList(s: string, items: seq<Item>)
    requires s != "" && RatingsList(Strip(s)) == Some(items)
    requires items != [] && AllNumbers(items)
    ensures CalculateAverageRating(s) == Returned(Some(Round2(Mean(Values(items)))))
  {
  }

  /** The ratings cell `[3,4,5]` gives the average 4.00. */
  lemma ThreeFourFive()
    ensures CalculateAverageRating("[3,4,5]") == Returned(Some(4.0))
  {
    AverageOf345("[3,4,5]", "3,4,5");
  }

  lemma AverageOf345(t: string, j: string)
    requires j == "3,4,5" && t == "[" + j + "]"
    ensures CalculateAverageRating(t) == Returned(Some(4.0))
  {
    var items := [Num(3.0), Num(4.0), Num(5.0)];
    BracketsAreStripped(j);
    ListOf345(t, j);
    NumbersOf345();
    RatingOfList(t, items);
    MeanOf345();
    assert Round2(4.0) == 4.0 by {
      assert (4.0 * 100.0).Floor == 400;
    }
  }

  lemma NumbersOf345()
    ensures AllNumbers([Num(3.0), Num(4.0), Num(5.0)])
  {
    var items := [Num(3.0), Num(4.0), Num(5.0)];
    assert forall i | 0 <= i < 3 :: items[i] in items;
  }

  lemma ListOf345(t: string, j: string)
    requires j == "3,4,5" && Bracketed(t) && t[1..|t| - 1] == j
    ensures JsonList(t) == Some([Num(3.0), Num(4.0), Num(5.0)])
  {
    assert !IsJsonSpace(j[0]);
    TokensOf345();
    ScalarsOf345();
  }

  lemma TokensOf345()
    ensures TrimEach(Split("3,4,5", ','), IsJsonSpace) == ["3", "4", "5"]
  {
    SplitOf345();
    TrimmedDigits();
  }

  lemma TrimmedDigits()
    ensures TrimEach(["3", "4", "5"], IsJsonSpace) == ["3", "4", "5"]
  {
    TrimDigit("3");
    TrimDigit("4");
    TrimDigit("5");
    TrimEachFixed(["3", "4", "5"], IsJsonSpace);
  }

  lemma TrimDigit(d: string)
    requires |d| == 1 && IsDigit(d[0])
    ensures Trim(d, IsJsonSpace) == d
  {
    assert !IsJsonSpace(d[0]);
  }

  lemma ScalarsOf345()
    ensures JsonScalars(["3", "4", "5"]) == Some([Num(3.0), Num(4.0), Num(5.0)])
  {
    var ts := ["3", "4", "5"];
    DigitLiteral(ts[0], 3.0);
    DigitLiteral(ts[1], 4.0);
    DigitLiteral(ts[2], 5.0);
    var r := JsonScalars(ts);
    assert r.Some?;
    assert |r.value| == 3;
    assert r.value[0] == Num(3.0) && r.value[1] == Num(4.0) && r.value[2] == Num(5.0);
    assert r.value == [Num(3.0), Num(4.0), Num(5.0)];
  }

  lemma SplitOf345()
    ensures Split("3,4,5", ',') == ["3", "4", "5"]
  {
    SplitWithoutSeparator("5", ',');
    SplitAtSeparator("4", "5", ',');
    SplitAtSeparator("3", "4,5", ',');
    assert "3,4,5" == "3" + [','] + "4,5" && "4,5" == "4" + [','] + "5";
  }

  lemma MeanOf345()
    ensures Mean(Values([Num(3.0), Num(4.0), Num(5.0)])) == 4.0
  {
    var xs := [3.0, 4.0, 5.0];
    assert Values([Num(3.0), Num(4.0), Num(5.0)]) == xs;
    assert xs[..2] == [3.0, 4.0];
    assert [3.0, 4.0][..1] == [3.0];
    assert [3.0][..0] == [];
    assert Sum(xs) == 12.0;
  }

  lemma DigitLiteral(lit: string, v: real)
    requires |lit| == 1 && IsDigit(lit[0]) && v == (lit[0] as int - '0' as int) as real
    ensures JsonScalar(lit) == Some(Num(v))
  {
    assert JsonNumberSyntax(lit);
    assert DigitsValue(lit) == lit[0] as int - '0' as int by {
      assert lit[..0] == [];
    }
  }
}
