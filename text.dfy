/** The Python string operations the pipeline relies on: `str.strip`,
    `str.split` on one character, joining, `str.lower`, and the two path
    helpers `os.path.basename` and `pathlib.Path.suffix`. */
module Text {
  import opened Sequences

  /** Python's `str.isspace()`: the characters `str.strip()` and `float()` remove. */
  predicate IsSpace(c: char) {
    c == ' ' || '\t' <= c <= '\r' || '\U{1C}' <= c <= '\U{1F}' || c == '\U{85}' || c == '\U{A0}'
    || c == '\U{1680}' || '\U{2000}' <= c <= '\U{200A}' || c == '\U{2028}' || c == '\U{2029}'
    || c == '\U{202F}' || c == '\U{205F}' || c == '\U{3000}'
  }

  /** The four characters the JSON grammar allows as whitespace between tokens. */
  predicate IsJsonSpace(c: char) {
    c == ' ' || c == '\t' || c == '\n' || c == '\r'
  }

  /** Removes the leading characters that satisfy `ws`. */
  function LStrip(s: string, ws: char -> bool): (r: string)
    ensures |r| <= |s| && r == s[|s| - |r|..]
    ensures forall i | 0 <= i < |s| - |r| :: ws(s[i])
    ensures r != [] ==> !ws(r[0])
    decreases |s|
  {
    if s != [] && ws(s[0]) then
      var r := LStrip(s[1..], ws);
      assert forall i | 1 <= i < |s| - |r| :: s[i] == s[1..][i - 1];
      r
    else s
  }

  /** Removes the trailing characters that satisfy `ws`. */
  function RStrip(s: string, ws: char -> bool): (r: string)
    ensures |r| <= |s| && r == s[..|r|]
    ensures forall i | |r| <= i < |s| :: ws(s[i])
    ensures r != [] ==> !ws(r[|r| - 1])
    decreases |s|
  {
    if s != [] && ws(s[|s| - 1]) then
      var r := RStrip(s[..|s| - 1], ws);
      assert forall i | |r| <= i < |s| - 1 :: s[i] == s[..|s| - 1][i];
      r
    else s
  }

  /** Removes the leading and trailing characters that satisfy `ws`. */
  function Trim(s: string, ws: char -> bool): (r: string)
    ensures |r| <= |s|
    ensures r == [] <==> forall i | 0 <= i < |s| :: ws(s[i])
    ensures r != [] ==> !ws(r[0]) && !ws(r[|r| - 1])
    ensures s == [] || (!ws(s[0]) && !ws(s[|s| - 1])) ==> r == s
  {
    TrimEnds(s, ws);
    RStrip(LStrip(s, ws), ws)
  }

  /** `r` stands in `s` from index `i` on, with only characters that
      satisfy `ws` before and after it. */
  predicate Infix(s: string, r: string, i: nat, ws: char -> bool) {
    && i + |r| <= |s| && r == s[i..i + |r|]
    && (forall k | 0 <= k < i :: ws(s[k]))
    && (forall k | i + |r| <= k < |s| :: ws(s[k]))
  }

  lemma TrimEnds(s: string, ws: char -> bool)
    ensures var r := RStrip(LStrip(s, ws), ws);
      && (r == [] <==> forall i | 0 <= i < |s| :: ws(s[i]))
      && (r != [] ==> !ws(r[0]) && !ws(r[|r| - 1]))
  {
    var l := LStrip(s, ws);
    var r := RStrip(l, ws);
    TrimInfix(s, ws);
    if r != [] {
      assert r[0] == l[0];
    }
  }

  /** `Trim(s, ws)` is what stands in the middle of `s` once the leading
      and the trailing characters that satisfy `ws` are cut off. */
  lemma TrimMiddle(s: string, ws: char -> bool)
    ensures Infix(s, Trim(s, ws), |s| - |LStrip(s, ws)|, ws)
  {
    TrimInfix(s, ws);
  }

  /** What `RStrip` keeps of what `LStrip` keeps stands in the middle of `s`. */
  lemma TrimInfix(s: string, ws: char -> bool)
    ensures Infix(s, RStrip(LStrip(s, ws), ws), |s| - |LStrip(s, ws)|, ws)
  {
    var l := LStrip(s, ws);
    var i := |s| - |l|;
    assert s == s[..i] + l;
    RStripInside(s[..i], l, ws);
  }

  /** Stripping the end of `l` leaves an infix of `p + l` when `p` is all padding. */
  lemma RStripInside(p: string, l: string, ws: char -> bool)
    requires forall k | 0 <= k < |p| :: ws(p[k])
    ensures Infix(p + l, RStrip(l, ws), |p|, ws)
  {
    var r := RStrip(l, ws);
    var s := p + l;
    assert r == s[|p|..|p| + |r|] by {
      assert forall k | 0 <= k < |r| :: r[k] == l[k] == s[|p| + k];
    }
    forall k | |p| + |r| <= k < |s| ensures ws(s[k]) {
      assert s[k] == l[k - |p|];
    }
  }

  /** Python's `str.strip()` with no argument. */
  function Strip(s: string): string
  {
    Trim(s, IsSpace)
  }

  /** Stripping twice strips no more than stripping once. */
  lemma StripTwice(s: string)
    ensures Strip(Strip(s)) == Strip(s)
  {
    var r := Strip(s);
    assert r == [] || (!IsSpace(r[0]) && !IsSpace(r[|r| - 1]));
  }

  /** Trims every string of a sequence. */
  function TrimEach(ts: seq<string>, ws: char -> bool): (r: seq<string>)
    ensures |r| == |ts|
    ensures forall i | 0 <= i < |ts| :: r[i] == Trim(ts[i], ws)
  {
    if ts == [] then [] else [Trim(ts[0], ws)] + TrimEach(ts[1..], ws)
  }

  /** The strings of `ts` that are not empty, in their order. */
  function NonEmpty(ts: seq<string>): (r: seq<string>)
    ensures Subsequence(r, ts)
    ensures forall t :: multiset(r)[t] == if t == [] then 0 else multiset(ts)[t]
    ensures (forall i | 0 <= i < |ts| :: ts[i] != []) ==> r == ts
  {
    if ts == [] then []
    else
      var rest := NonEmpty(ts[1..]);
      assert ts == [ts[0]] + ts[1..];
      if ts[0] == [] then rest
      else
        assert ([ts[0]] + rest)[1..] == rest;
        [ts[0]] + rest
  }

  /** `sep.join(parts)`. */
  function Join(parts: seq<string>, sep: string): string
  {
    if parts == [] then ""
    else if |parts| == 1 then parts[0]
    else parts[0] + sep + Join(parts[1..], sep)
  }

  /** A join of non-empty parts starts with the first part's first character
      and ends with the last part's last character. */
  lemma {:induction false} JoinEnds(parts: seq<string>, sep: string)
    requires parts != [] && forall i | 0 <= i < |parts| :: parts[i] != []
    ensures var j := Join(parts, sep);
      j != [] && j[0] == parts[0][0] && j[|j| - 1] == parts[|parts| - 1][|parts[|parts| - 1]| - 1]
    decreases |parts|
  {
    if |parts| > 1 {
      JoinEnds(parts[1..], sep);
    }
  }

  /** Python's `s.split(sep)` for a one-character separator. */
  function Split(s: string, sep: char): (r: seq<string>)
    ensures r != []
    ensures forall i | 0 <= i < |r| :: sep !in r[i]
    ensures Join(r, [sep]) == s
    decreases |s|
  {
    if s == [] then [""]
    else
      var rest := Split(s[1..], sep);
      if s[0] == sep then
        assert ([""] + rest)[1..] == rest;
        [""] + rest
      else
        var r := [[s[0]] + rest[0]] + rest[1..];
        assert r[1..] == rest[1..];
        assert |rest| > 1 ==> Join(rest, [sep]) == rest[0] + [sep] + Join(rest[1..], [sep]);
        assert s == [s[0]] + s[1..];
        r
  }

  /** A string without the separator splits into itself alone. */
  lemma {:induction false} SplitWithoutSeparator(s: string, sep: char)
    requires sep !in s
    ensures Split(s, sep) == [s]
    decreases |s|
  {
    if s != [] {
      SplitWithoutSeparator(s[1..], sep);
      assert [s[0]] + s[1..] == s;
    }
  }

  /** Splitting at the first separator: the part before it comes first. */
  lemma {:induction false} SplitAtSeparator(p: string, x: string, sep: char)
    requires sep !in p
    ensures Split(p + [sep] + x, sep) == [p] + Split(x, sep)
    decreases |p|
  {
    var s := p + [sep] + x;
    if p == [] {
      assert s[1..] == x;
    } else {
      assert s[1..] == p[1..] + [sep] + x;
      SplitAtSeparator(p[1..], x, sep);
      assert [p[0]] + p[1..] == p;
    }
  }

  /** Leading padding is removed by LStrip. */
  lemma {:induction false} LStripPadding(pad: string, s: string, ws: char -> bool)
    requires forall i | 0 <= i < |pad| :: ws(pad[i])
    requires s != [] && !ws(s[0])
    ensures LStrip(pad + s, ws) == s
    decreases |pad|
  {
    if pad != [] {
      assert (pad + s)[1..] == pad[1..] + s;
      LStripPadding(pad[1..], s, ws);
    }
  }

  /** Trimming a padded token gives back the token. */
  lemma TrimPadding(pad: string, s: string, ws: char -> bool)
    requires forall i | 0 <= i < |pad| :: ws(pad[i])
    requires s != [] && !ws(s[0]) && !ws(s[|s| - 1])
    ensures Trim(pad + s, ws) == s
  {
    LStripPadding(pad, s, ws);
  }

  /** A token that survives splitting on commas and trimming unchanged. */
  predicate CleanToken(p: string, ws: char -> bool) {
    p != [] && ',' !in p && !ws(p[0]) && !ws(p[|p| - 1])
  }

  /** Splitting `", ".join(parts)` on commas and trimming each piece gives
      back `parts`, provided no part holds a comma or surrounding whitespace. */
  lemma {:induction false} TrimSplitJoin(pad: string, parts: seq<string>, ws: char -> bool)
    requires ws(' ') && (pad == "" || pad == " ")
    requires parts != []
    requires forall i | 0 <= i < |parts| :: CleanToken(parts[i], ws)
    ensures TrimEach(Split(pad + Join(parts, ", "), ','), ws) == parts
    decreases |parts|
  {
    var p := parts[0];
    assert CleanToken(p, ws);
    if |parts| == 1 {
      assert parts == [p];
      TrimSplitOne(pad, p, ws);
    } else {
      var rest := parts[1..];
      assert parts == [p] + rest;
      assert forall i | 0 <= i < |rest| :: CleanToken(rest[i], ws) by {
        forall i | 0 <= i < |rest| ensures CleanToken(rest[i], ws) { assert rest[i] == parts[i + 1]; }
      }
      TrimSplitJoin(" ", rest, ws);
      TrimSplitStep(pad, p, rest, ws);
    }
  }

  lemma TrimSplitOne(pad: string, p: string, ws: char -> bool)
    requires ws(' ') && (pad == "" || pad == " ") && CleanToken(p, ws)
    ensures TrimEach(Split(pad + Join([p], ", "), ','), ws) == [p]
  {
    assert ',' !in pad + p;
    SplitWithoutSeparator(pad + p, ',');
    TrimPadding(pad, p, ws);
    TrimEachCons(pad + p, [], ws);
  }

  lemma TrimSplitStep(pad: string, p: string, rest: seq<string>, ws: char -> bool)
    requires ws(' ') && (pad == "" || pad == " ") && CleanToken(p, ws) && rest != []
    requires TrimEach(Split(" " + Join(rest, ", "), ','), ws) == rest
    ensures TrimEach(Split(pad + Join([p] + rest, ", "), ','), ws) == [p] + rest
  {
    var tail := " " + Join(rest, ", ");
    assert ',' !in pad + p;
    SplitJoinStep(pad, p, rest);
    TrimPadding(pad, p, ws);
    TrimEachCons(pad + p, Split(tail, ','), ws);
  }

  lemma SplitJoinStep(pad: string, p: string, rest: seq<string>)
    requires ',' !in pad + p && rest != []
    ensures Split(pad + Join([p] + rest, ", "), ',') == [pad + p] + Split(" " + Join(rest, ", "), ',')
  {
    var tail := " " + Join(rest, ", ");
    assert ([p] + rest)[1..] == rest;
    assert pad + Join([p] + rest, ", ") == (pad + p) + [','] + tail;
    SplitAtSeparator(pad + p, tail, ',');
  }

  lemma TrimEachCons(a: string, t: seq<string>, ws: char -> bool)
    ensures TrimEach([a] + t, ws) == [Trim(a, ws)] + TrimEach(t, ws)
  {
    assert ([a] + t)[1..] == t;
  }

  /** Trimming every string changes nothing when trimming each one changes nothing. */
  lemma TrimEachFixed(ts: seq<string>, ws: char -> bool)
    requires forall i | 0 <= i < |ts| :: Trim(ts[i], ws) == ts[i]
    ensures TrimEach(ts, ws) == ts
  {
    var r := TrimEach(ts, ws);
    assert forall i | 0 <= i < |ts| :: r[i] == ts[i];
  }

  /** `str.lower()` on one character (the ASCII letters). */
  function LowerChar(c: char): char {
    if 'A' <= c <= 'Z' then (c as int + 32) as char else c
  }

  /** `str.lower()`. */
  function Lower(s: string): (r: string)
    ensures |r| == |s|
    ensures forall i | 0 <= i < |s| :: r[i] == LowerChar(s[i])
  {
    seq(|s|, i requires 0 <= i < |s| => LowerChar(s[i]))
  }

  /** The index just after the last occurrence of `c` in `s`, 0 when there is none. */
  function AfterLast(s: string, c: char): (k: nat)
    ensures k <= |s| && c !in s[k..]
    ensures k > 0 ==> s[k - 1] == c
    decreases |s|
  {
    if s == [] then 0
    else if s[|s| - 1] == c then |s|
    else
      var k := AfterLast(s[..|s| - 1], c);
      assert s[k..] == s[..|s| - 1][k..] + [s[|s| - 1]];
      k
  }

  /** `os.path.basename(path)`: what follows the last `/`. */
  function Basename(path: string): (r: string)
    ensures '/' !in r && |r| <= |path| && r == path[|path| - |r|..]
    ensures |r| < |path| ==> path[|path| - |r| - 1] == '/'
  {
    path[AfterLast(path, '/')..]
  }

  /** `pathlib.Path(path).suffix`: from the last `.` of the final component,
      unless that dot starts or ends the component. */
  function Suffix(path: string): string
  {
    var name := Basename(path);
    var k := AfterLast(name, '.');
    if 1 < k < |name| then name[k - 1..] else []
  }

  /** `Path.suffix`'s rule: with `i` the index of the last `.` of the base
      name, the suffix is the name from `i` on when that dot neither starts
      nor ends the name, and empty otherwise (also when there is no dot). */
  lemma SuffixRule(path: string)
    ensures var name := Basename(path); var r := Suffix(path);
      && ('.' !in name ==> r == [])
      && (forall i | 0 <= i < |name| && name[i] == '.' && '.' !in name[i + 1..] ::
            r == if 0 < i < |name| - 1 then name[i..] else [])
  {
    var name := Basename(path);
    var k := AfterLast(name, '.');
    var r := Suffix(path);
    assert r == if 1 < k < |name| then name[k - 1..] else [];
    LastDot(name, k);
    forall i | 0 <= i < |name| && name[i] == '.' && '.' !in name[i + 1..]
      ensures r == if 0 < i < |name| - 1 then name[i..] else []
    {
      assert i + 1 == k;
    }
  }

  /** The dot after which `AfterLast` points is the only dot with no dot after it. */
  lemma LastDot(name: string, k: nat)
    requires k == AfterLast(name, '.')
    ensures '.' !in name ==> k == 0
    ensures forall i | 0 <= i < |name| && name[i] == '.' && '.' !in name[i + 1..] :: i == k - 1
  {
    if k > 0 {
      assert name[k - 1] in name;
    }
  }

  /** The suffix is empty, or a `.` and at least one more character that end
      the path, with no other `.` and no `/`. */
  lemma SuffixShape(path: string)
    ensures var r := Suffix(path);
      && (r == [] || (|r| >= 2 && r[0] == '.' && '.' !in r[1..] && '/' !in r))
      && |r| <= |path| && r == path[|path| - |r|..]
  {
    var name := Basename(path);
    var k := AfterLast(name, '.');
    if 1 < k < |name| {
      SuffixOfName(path, name, k);
    }
  }

  /** The tail of the base name from its last `.` is a tail of the path. */
  lemma SuffixOfName(path: string, name: string, k: nat)
    requires name == Basename(path) && k == AfterLast(name, '.') && 1 < k < |name|
    ensures var r := name[k - 1..];
      && |r| >= 2 && r[0] == '.' && '.' !in r[1..] && '/' !in r
      && |r| <= |path| && r == path[|path| - |r|..]
  {
    var r := name[k - 1..];
    assert r[1..] == name[k..];
    assert forall c | c in r :: c in name;
    assert r == path[|path| - |name| + k - 1..];
  }
}
