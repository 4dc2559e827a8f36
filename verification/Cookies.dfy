/** The Netscape cookie file: its parser, its printer, and the round trip between them. */
module Cookies {
  import opened Basics
  import opened Text

  datatype Cookie = Cookie(
    name: string, value: string, domain: string, path: string, secure: bool, httpOnly: bool, expires: int)

  /** A decoded entry of a Cookie-Editor JSON export. */
  datatype JsonCookie = JsonCookie(
    domain: string, expirationDate: real, hostOnly: bool, httpOnly: bool, name: string, path: string, secure: bool,
    value: string)

  datatype Error = Malformed | BadExpiry | NoCookies | EmptyExport

  datatype LineResult = Skip | Bad(error: Error) | Got(cookie: Cookie)

  const HTTP_ONLY := "#HttpOnly_"
  const HEADER := "# Netscape HTTP Cookie File"
  const TAB := '\t'
  const QUOTES := "\"\""

  /** Cookie-Editor writes an empty value as a pair of quotes. */
  function Unquote(value: string): string {
    if value == QUOTES then "" else value
  }

  function Quote(value: string): string {
    if value == "" then QUOTES else value
  }

  // ---------------------------------------------------------------- parsing

  function FieldsResult(parts: seq<string>, httpOnly: bool, suffix: string): LineResult {
    if |parts| < 7 then Bad(Malformed)
    else if !Contains(parts[0], suffix) then Skip
    else
      match ParseInt(parts[4])
      case None => Bad(BadExpiry)
      case Some(expires) =>
        Got(Cookie(parts[5], Unquote(Join(parts[6..], TAB)), parts[0], parts[2], parts[3] == "TRUE", httpOnly, expires))
  }

  function ParseLine(raw: string, suffix: string): LineResult {
    var line := TrimRight(raw, '\r');
    if line == "" || line == QUOTES then Skip
    else if HasPrefix(line, HTTP_ONLY) then FieldsResult(SplitN(line[|HTTP_ONLY|..], TAB, 8), true, suffix)
    else if HasPrefix(line, "#") then Skip
    else FieldsResult(SplitN(line, TAB, 8), false, suffix)
  }

  /** Add what one line means to the cookies before it; the first error wins. */
  function Collect(sofar: Result<seq<Cookie>, Error>, line: LineResult): Result<seq<Cookie>, Error> {
    match sofar
    case Err(_) => sofar
    case Ok(cookies) =>
      match line
      case Skip => sofar
      case Bad(error) => Err(error)
      case Got(cookie) => Ok(cookies + [cookie])
  }

  function ParseLines(lines: seq<string>, suffix: string): Result<seq<Cookie>, Error> {
    if lines == [] then Ok([])
    else Collect(ParseLines(lines[..|lines| - 1], suffix), ParseLine(lines[|lines| - 1], suffix))
  }

  /** The cookies of an export, before the check that there are any. */
  function ParseExport(raw: string, suffix: string): Result<seq<Cookie>, Error> {
    ParseLines(Split(raw, '\n'), suffix)
  }

  method ParseNetscape(raw: string, suffix: string) returns (r: Result<seq<Cookie>, Error>)
    ensures r == if ParseExport(raw, suffix) == Ok([]) then Err(NoCookies) else ParseExport(raw, suffix)
  {
    var cookies: seq<Cookie> := [];
    var lines := Split(raw, '\n');
    var i := 0;
    while i < |lines|
      invariant i <= |lines|
      invariant ParseLines(lines[..i], suffix) == Ok(cookies)
    {
      assert lines[..i + 1][..i] == lines[..i];
      match ParseLine(lines[i], suffix) {
        case Skip =>
        case Bad(error) =>
          ErrorStays(lines, suffix, i + 1);
          return Err(error);
        case Got(cookie) =>
          cookies := cookies + [cookie];
      }
      i := i + 1;
    }
    assert lines[..i] == lines;
    if cookies == [] {
      return Err(NoCookies);
    }
    return Ok(cookies);
  }

  lemma {:induction false} ErrorStays(lines: seq<string>, suffix: string, i: nat)
    requires i <= |lines| && ParseLines(lines[..i], suffix).Err?
    ensures ParseLines(lines, suffix) == ParseLines(lines[..i], suffix)
  {
    if i == |lines| {
      assert lines[..i] == lines;
    } else {
      assert lines[..|lines| - 1][..i] == lines[..i];
      ErrorStays(lines[..|lines| - 1], suffix, i);
    }
  }

  /** The cookies of lines that hold no error, in order. */
  function CookiesOf(lines: seq<string>, suffix: string): seq<Cookie> {
    if lines == [] then []
    else
      CookiesOf(lines[..|lines| - 1], suffix)
      + match ParseLine(lines[|lines| - 1], suffix) case Got(cookie) => [cookie] case _ => []
  }

  /** The line at `i` is the first wrong one, and `error` is what is wrong with it. */
  ghost predicate IsFirstError(lines: seq<string>, suffix: string, i: nat, error: Error) {
    && i < |lines|
    && ParseLine(lines[i], suffix) == Bad(error)
    && forall j | 0 <= j < i :: !ParseLine(lines[j], suffix).Bad?
  }

  /** An export gives all its cookies, in order, exactly when none of its lines is wrong. */
  lemma {:induction false} AllLinesCount(lines: seq<string>, suffix: string)
    ensures ParseLines(lines, suffix).Ok? <==> forall i | 0 <= i < |lines| :: !ParseLine(lines[i], suffix).Bad?
    ensures ParseLines(lines, suffix).Ok? ==> ParseLines(lines, suffix).value == CookiesOf(lines, suffix)
  {
    if lines != [] {
      var init, last := lines[..|lines| - 1], |lines| - 1;
      AllLinesCount(init, suffix);
      assert forall i | 0 <= i < last :: init[i] == lines[i];
    }
  }

  /** Otherwise it fails with the first line that is wrong. */
  lemma {:induction false} FirstErrorWins(lines: seq<string>, suffix: string) returns (i: nat)
    requires exists k | 0 <= k < |lines| :: ParseLine(lines[k], suffix).Bad?
    ensures ParseLines(lines, suffix).Err? && IsFirstError(lines, suffix, i, ParseLines(lines, suffix).error)
  {
    AllLinesCount(lines, suffix);
    var init, last := lines[..|lines| - 1], |lines| - 1;
    AllLinesCount(init, suffix);
    i := last;
    if ParseLines(init, suffix).Err? {
      i := FirstErrorWins(init, suffix);
      assert lines[i] == init[i];
      assert forall j | 0 <= j < i :: lines[j] == init[j];
    } else {
      assert forall j | 0 <= j < last :: lines[j] == init[j];
    }
  }

  /** One stretch of lines after another; the first error wins. */
  function Chain(a: Result<seq<Cookie>, Error>, b: Result<seq<Cookie>, Error>): Result<seq<Cookie>, Error> {
    if a.Err? then a else if b.Err? then b else Ok(a.value + b.value)
  }

  lemma CollectChain(a: Result<seq<Cookie>, Error>, b: Result<seq<Cookie>, Error>, line: LineResult)
    ensures Collect(Chain(a, b), line) == Chain(a, Collect(b, line))
  {
    if a.Ok? && b.Ok? && line.Got? {
      assert (a.value + b.value) + [line.cookie] == a.value + (b.value + [line.cookie]);
    }
  }

  lemma ChainNothing(a: Result<seq<Cookie>, Error>)
    ensures Chain(a, Ok([])) == a == Chain(Ok([]), a)
  {
    if a.Ok? {
      assert a.value + [] == a.value == [] + a.value;
    }
  }

  lemma {:induction false} ParseLinesAppend(a: seq<string>, b: seq<string>, suffix: string)
    ensures ParseLines(a + b, suffix) == Chain(ParseLines(a, suffix), ParseLines(b, suffix))
  {
    if b == [] {
      assert a + b == a;
      ChainNothing(ParseLines(a, suffix));
    } else {
      var init, line := b[..|b| - 1], ParseLine(b[|b| - 1], suffix);
      assert (a + b)[..|a + b| - 1] == a + init;
      ParseLinesAppend(a, init, suffix);
      CollectChain(ParseLines(a, suffix), ParseLines(init, suffix), line);
    }
  }

  // ---------------------------------------------------------------- a line as six fields and a value

  /** A cookie line: six fields without tabs, then the value, which may hold some. */
  function LineOf(head: seq<string>, value: string): string {
    Join(head + [value], TAB)
  }

  predicate IsHead(head: seq<string>) {
    |head| == 6 && Lacks(head, TAB)
  }

  /** What ParseLine makes of a cookie line. */
  function Meaning(head: seq<string>, value: string, suffix: string): LineResult
    requires IsHead(head)
  {
    var httpOnly := HasPrefix(head[0], HTTP_ONLY);
    var domain := if httpOnly then head[0][|HTTP_ONLY|..] else head[0];
    if !httpOnly && HasPrefix(head[0], "#") then Skip
    else if !Contains(domain, suffix) then Skip
    else
      match ParseInt(head[4])
      case None => Bad(BadExpiry)
      case Some(expires) =>
        Got(Cookie(head[5], Unquote(value), domain, head[2], head[3] == "TRUE", httpOnly, expires))
  }

  lemma HeadFirst(head: seq<string>, rest: seq<string>)
    requires head != []
    ensures head + rest == [head[0]] + (head[1..] + rest)
  {
  }

  lemma {:induction false} SplitLine(head: seq<string>, value: string)
    requires Lacks(head, TAB)
    ensures Split(LineOf(head, value), TAB) == head + Split(value, TAB)
  {
    if head == [] {
      assert head + [value] == [value];
      assert head + Split(value, TAB) == Split(value, TAB);
    } else {
      assert (head + [value])[1..] == head[1..] + [value];
      SplitLine(head[1..], value);
      SplitFirst(head[0], LineOf(head[1..], value), TAB);
      HeadFirst(head, Split(value, TAB));
    }
  }

  /** SplitN with eight parts keeps the six fields, and rejoining the rest gives the value back, tabs included. */
  lemma SplitLineIn8(head: seq<string>, value: string)
    requires IsHead(head)
    ensures
      var parts := SplitN(LineOf(head, value), TAB, 8);
      |parts| >= 7 && parts[..6] == head && Join(parts[6..], TAB) == value
  {
    var parts := SplitN(LineOf(head, value), TAB, 8);
    var tail := Split(value, TAB);
    var all := head + tail;
    SplitLine(head, value);
    SplitNIsRejoin(LineOf(head, value), TAB, 8);
    JoinOfSplit(value, TAB);
    assert all[6..] == tail;
    if |all| > 8 {
      assert all[7..] == tail[1..];
      assert parts == all[..7] + [Join(tail[1..], TAB)];
      assert parts[6..] == [tail[0], Join(tail[1..], TAB)];
      assert Join(parts[6..], TAB) == tail[0] + [TAB] + Join(parts[6..][1..], TAB);
      assert parts[6..][1..] == [Join(tail[1..], TAB)];
    }
  }

  lemma SplitLineFields(head: seq<string>, value: string, httpOnly: bool, suffix: string)
    requires IsHead(head)
    ensures FieldsResult(SplitN(LineOf(head, value), TAB, 8), httpOnly, suffix) ==
      if !Contains(head[0], suffix) then Skip
      else
        match ParseInt(head[4])
        case None => Bad(BadExpiry)
        case Some(expires) =>
          Got(Cookie(head[5], Unquote(value), head[0], head[2], head[3] == "TRUE", httpOnly, expires))
  {
    SplitLineIn8(head, value);
    var parts := SplitN(LineOf(head, value), TAB, 8);
    forall i | 0 <= i < 6 ensures parts[i] == head[i] { assert parts[..6][i] == head[i]; }
  }

  lemma {:induction false} TrimRightOfSum(a: string, b: string, c: char)
    requires a != "" && a[|a| - 1] != c
    ensures TrimRight(a + b, c) == a + TrimRight(b, c)
  {
    if b == "" {
      assert a + b == a;
    } else if b[|b| - 1] == c {
      assert (a + b)[..|a + b| - 1] == a + b[..|b| - 1];
      TrimRightOfSum(a, b[..|b| - 1], c);
    }
  }

  /** A line is its first field, a tab and the rest. */
  lemma LineStartsWith(head: seq<string>, value: string) returns (rest: string)
    requires IsHead(head)
    ensures LineOf(head, value) == head[0] + [TAB] + rest
    ensures forall first :: LineOf(head[0 := first], value) == first + [TAB] + rest
  {
    rest := LineOf(head[1..], value);
    assert (head + [value])[1..] == head[1..] + [value];
    forall first ensures LineOf(head[0 := first], value) == first + [TAB] + rest {
      assert (head[0 := first] + [value])[1..] == head[1..] + [value];
    }
  }

  lemma LineEndsWith(head: seq<string>, value: string)
    requires IsHead(head)
    ensures LineOf(head, value) == Join(head, TAB) + [TAB] + value
  {
    JoinAppend(head, [value], TAB);
  }

  lemma TrimmedLine(head: seq<string>, value: string)
    requires IsHead(head)
    ensures TrimRight(LineOf(head, value), '\r') == LineOf(head, TrimRight(value, '\r'))
  {
    LineEndsWith(head, value);
    LineEndsWith(head, TrimRight(value, '\r'));
    TrimRightOfSum(Join(head, TAB) + [TAB], value, '\r');
  }

  /** Whether a line starts with a prefix is up to its first field. */
  lemma PrefixOfLine(first: string, rest: string, prefix: string)
    requires TAB !in prefix
    ensures HasPrefix(first + [TAB] + rest, prefix) <==> HasPrefix(first, prefix)
  {
    var line := first + [TAB] + rest;
    assert line[|first|] == TAB;
    if |prefix| <= |first| {
      assert line[..|prefix|] == first[..|prefix|];
    } else if |prefix| <= |line| {
      assert line[..|prefix|][|first|] == TAB;
      assert prefix[|first|] in prefix;
    }
  }

  lemma StrippedHead(head: seq<string>)
    requires IsHead(head) && HasPrefix(head[0], HTTP_ONLY)
    ensures IsHead(head[0 := head[0][|HTTP_ONLY|..]])
  {
    var first := head[0][|HTTP_ONLY|..];
    assert head[0] in head;
    assert head[0] == HTTP_ONLY + first;
    forall p | p in head[0 := first] ensures TAB !in p { assert p == first || p in head; }
  }

  lemma HeadDecides(head: seq<string>, v: string)
    requires IsHead(head)
    ensures
      var line := LineOf(head, v);
      && line != QUOTES && line != ""
      && (HasPrefix(line, HTTP_ONLY) <==> HasPrefix(head[0], HTTP_ONLY))
      && (HasPrefix(line, "#") <==> HasPrefix(head[0], "#"))
  {
    var rest := LineStartsWith(head, v);
    var line := LineOf(head, v);
    assert line[|head[0]|] == TAB;
    PrefixOfLine(head[0], rest, HTTP_ONLY);
    PrefixOfLine(head[0], rest, "#");
  }

  lemma StrippedLine(head: seq<string>, v: string)
    requires IsHead(head) && HasPrefix(head[0], HTTP_ONLY)
    ensures LineOf(head[0 := head[0][|HTTP_ONLY|..]], v) == LineOf(head, v)[|HTTP_ONLY|..]
  {
    var first := head[0][|HTTP_ONLY|..];
    var rest := LineStartsWith(head, v);
    assert LineOf(head[0 := first], v) == first + [TAB] + rest;
    assert LineOf(head, v)[|HTTP_ONLY|..] == first + [TAB] + rest;
  }

  lemma ParseOfLine(head: seq<string>, value: string, suffix: string)
    requires IsHead(head)
    ensures ParseLine(LineOf(head, value), suffix) == Meaning(head, TrimRight(value, '\r'), suffix)
  {
    var v := TrimRight(value, '\r');
    TrimmedLine(head, value);
    HeadDecides(head, v);
    if HasPrefix(head[0], HTTP_ONLY) {
      StrippedHead(head);
      StrippedLine(head, v);
      SplitLineFields(head[0 := head[0][|HTTP_ONLY|..]], v, true, suffix);
    } else {
      SplitLineFields(head, v, false, suffix);
    }
  }

  // ---------------------------------------------------------------- printing

  function BoolFlag(v: bool): string {
    if v then "TRUE" else "FALSE"
  }

  /** Go's int64 conversion of a float in range: towards zero. */
  function Truncate(r: real): int {
    if r >= 0.0 then r.Floor else -((-r).Floor)
  }

  function HeadOf(c: JsonCookie): seq<string> {
    [(if c.httpOnly then HTTP_ONLY else "") + c.domain, BoolFlag(!c.hostOnly), if c.path == "" then "/" else c.path,
     BoolFlag(c.secure), FormatInt(Truncate(c.expirationDate)), c.name]
  }

  predicate IsPrinted(c: JsonCookie) {
    c.name != "" && c.domain != ""
  }

  function PrintLine(c: JsonCookie): string {
    LineOf(HeadOf(c), Quote(c.value))
  }

  function PrintAll(cs: seq<JsonCookie>): string {
    if cs == [] then HEADER + "\n"
    else
      var c := cs[|cs| - 1];
      PrintAll(cs[..|cs| - 1]) + if IsPrinted(c) then PrintLine(c) + "\n" else ""
  }

  method JSONToNetscape(cs: seq<JsonCookie>) returns (r: Result<string, Error>)
    ensures r == if cs == [] then Err(EmptyExport) else Ok(PrintAll(cs))
  {
    if |cs| == 0 {
      return Err(EmptyExport);
    }
    var b := HEADER + "\n";
    var i := 0;
    while i < |cs|
      invariant i <= |cs|
      invariant b == PrintAll(cs[..i])
    {
      var c := cs[i];
      ghost var before := b;
      assert cs[..i + 1][..i] == cs[..i];
      if c.name != "" && c.domain != "" {
        var domain := if c.httpOnly then "#HttpOnly_" + c.domain else c.domain;
        var path := if c.path == "" then "/" else c.path;
        var value := if c.value == "" then "\"\"" else c.value;
        var fields := [domain, BoolFlag(!c.hostOnly), path, BoolFlag(c.secure),
                       FormatInt(Truncate(c.expirationDate)), c.name];
        assert fields == HeadOf(c) by { assert "" + c.domain == c.domain; }
        b := b + Join(fields + [value], TAB) + "\n";
        assert b == before + (PrintLine(c) + "\n");
      }
      i := i + 1;
    }
    assert cs[..i] == cs;
    return Ok(b);
  }

  /** A printed line field by field; the date loses its fraction, towards zero. */
  lemma PrintedFields(c: JsonCookie)
    requires TAB !in c.domain && TAB !in c.path && TAB !in c.name && IsInt64(Truncate(c.expirationDate))
    ensures
      var f, date := Split(PrintLine(c), TAB), c.expirationDate;
      && |f| >= 7
      && f[0] == (if c.httpOnly then "#HttpOnly_" + c.domain else c.domain)
      && f[1] == (if c.hostOnly then "FALSE" else "TRUE")
      && f[2] == (if c.path == "" then "/" else c.path)
      && f[3] == (if c.secure then "TRUE" else "FALSE")
      && ParseInt(f[4]).Some?
      && (var n := ParseInt(f[4]).value as real;
          if date >= 0.0 then n <= date < n + 1.0 else n - 1.0 < date <= n)
      && f[5] == c.name
      && Join(f[6..], TAB) == (if c.value == "" then "\"\"" else c.value)
  {
    var head, value := HeadOf(c), Quote(c.value);
    HeadLacksTab(c);
    SplitLine(head, value);
    ParseOfFormat(Truncate(c.expirationDate));
    assert "" + c.domain == c.domain;
    var f := Split(PrintLine(c), TAB);
    assert f[6..] == Split(value, TAB);
    JoinOfSplit(value, TAB);
  }

  lemma HeadLacksTab(c: JsonCookie)
    requires TAB !in c.domain && TAB !in c.path && TAB !in c.name
    ensures Lacks(HeadOf(c), TAB)
  {
    var n := Truncate(c.expirationDate);
    forall ch | ch in FormatInt(n) ensures ch != TAB { FormatIntChars(n, ch); }
  }

  /** An empty line, a pair of quotes, or a comment. */
  predicate IsPassedOver(line: string) {
    line == "" || line == "\"\"" || (HasPrefix(line, "#") && !HasPrefix(line, "#HttpOnly_"))
  }

  /** Such lines mean nothing; any other line with fewer than seven fields is an error. */
  lemma OddLines(raw: string, suffix: string)
    ensures
      var line := TrimRight(raw, '\r');
      var body := if HasPrefix(line, "#HttpOnly_") then line[10..] else line;
      if IsPassedOver(line) then ParseLine(raw, suffix) == Skip
      else |Split(body, TAB)| < 7 ==> ParseLine(raw, suffix) == Bad(Malformed)
  {
    var line := TrimRight(raw, '\r');
    var body := if HasPrefix(line, "#HttpOnly_") then line[10..] else line;
    SplitNIsRejoin(body, TAB, 8);
    assert HTTP_ONLY == "#HttpOnly_" && |HTTP_ONLY| == 10;
  }

  // ---------------------------------------------------------------- the round trip

  /** The fields hold nothing the line format gives a meaning to. */
  predicate IsPrintable(c: JsonCookie) {
    && (forall f | f in [c.domain, c.path, c.name] :: TAB !in f && '\n' !in f)
    && '\n' !in c.value
    && (c.value == "" || c.value[|c.value| - 1] != '\r')
    && c.value != QUOTES
    && (c.httpOnly || !HasPrefix(c.domain, "#"))
    && IsInt64(Truncate(c.expirationDate))
  }

  /** The cookie a JSON entry stands for. */
  function Intended(c: JsonCookie): Cookie {
    Cookie(c.name, c.value, c.domain, if c.path == "" then "/" else c.path, c.secure, c.httpOnly,
           Truncate(c.expirationDate))
  }

  function AllIntended(cs: seq<JsonCookie>, suffix: string): seq<Cookie> {
    if cs == [] then []
    else
      var c := cs[|cs| - 1];
      AllIntended(cs[..|cs| - 1], suffix)
      + if c.name != "" && c.domain != "" && Contains(c.domain, suffix) then [Intended(c)] else []
  }

  lemma HeadIsClean(c: JsonCookie)
    requires IsPrintable(c)
    ensures IsHead(HeadOf(c)) && Lacks(HeadOf(c), '\n')
  {
    var n := Truncate(c.expirationDate);
    forall ch | ch in FormatInt(n) ensures ch != TAB && ch != '\n' { FormatIntChars(n, ch); }
    forall f | f in HeadOf(c) ensures TAB !in f && '\n' !in f {
      assert c.domain in [c.domain, c.path, c.name] && c.path in [c.domain, c.path, c.name];
      assert c.name in [c.domain, c.path, c.name];
    }
  }

  lemma PrefixOfPrefix(s: string)
    ensures HasPrefix(s, HTTP_ONLY) ==> HasPrefix(s, "#")
  {
    if |s| >= |HTTP_ONLY| {
      assert s[..|HTTP_ONLY|][..1] == s[..1];
      assert HTTP_ONLY[..1] == "#";
    }
  }

  lemma LineRoundTrip(c: JsonCookie, suffix: string)
    requires IsPrintable(c)
    ensures ParseLine(PrintLine(c), suffix) == if Contains(c.domain, suffix) then Got(Intended(c)) else Skip
  {
    HeadIsClean(c);
    ParseOfLine(HeadOf(c), Quote(c.value), suffix);
    ParseOfFormat(Truncate(c.expirationDate));
    assert TrimRight(Quote(c.value), '\r') == Quote(c.value);
    if c.httpOnly {
      assert HeadOf(c)[0][..|HTTP_ONLY|] == HTTP_ONLY;
      assert HeadOf(c)[0][|HTTP_ONLY|..] == c.domain;
    } else {
      assert HeadOf(c)[0] == c.domain;
      PrefixOfPrefix(c.domain);
    }
  }

  lemma ValueSurvives(value: string)
    ensures Unquote(TrimRight(Quote(value), '\r')) == value <==>
      value != QUOTES && (value == "" || value[|value| - 1] != '\r')
  {
    TrimRightKeeps(Quote(value), '\r');
    if value == "" || value == QUOTES {
      assert QUOTES[|QUOTES| - 1] == '\"';
    } else if value[|value| - 1] == '\r' {
      assert |TrimRight(value, '\r')| < |value|;
    }
  }

  /** The conditions are exact: a printed cookie whose fields have no tab reads back as itself just under these. */
  lemma LineRoundTripExactly(c: JsonCookie, suffix: string)
    requires IsHead(HeadOf(c)) && IsInt64(Truncate(c.expirationDate)) && Contains(c.domain, suffix)
    ensures ParseLine(PrintLine(c), suffix) == Got(Intended(c)) <==>
      && (c.httpOnly || !HasPrefix(c.domain, "#"))
      && c.value != QUOTES && (c.value == "" || c.value[|c.value| - 1] != '\r')
  {
    ParseOfLine(HeadOf(c), Quote(c.value), suffix);
    ParseOfFormat(Truncate(c.expirationDate));
    ValueSurvives(c.value);
    PrefixOfPrefix(c.domain);
    if c.httpOnly {
      assert HeadOf(c)[0][..|HTTP_ONLY|] == HTTP_ONLY;
      assert HeadOf(c)[0][|HTTP_ONLY|..] == c.domain;
    } else {
      assert HeadOf(c)[0] == c.domain;
    }
  }

  lemma {:induction false} JoinLacks(parts: seq<string>, sep: char, c: char)
    requires Lacks(parts, c) && sep != c
    ensures c !in Join(parts, sep)
  {
    if |parts| > 1 {
      assert parts[1..] <= parts[1..];
      forall p | p in parts[1..] ensures c !in p { assert p in parts; }
      JoinLacks(parts[1..], sep, c);
    }
  }

  lemma LineHasNoNewline(c: JsonCookie)
    requires IsPrintable(c)
    ensures '\n' !in PrintLine(c)
  {
    HeadIsClean(c);
    JoinLacks(HeadOf(c) + [Quote(c.value)], TAB, '\n');
  }

  lemma SplitFullLine(line: string)
    requires '\n' !in line
    ensures Split(line + ['\n'] + "", '\n') == [line, ""]
  {
    SplitAppend(line, "", '\n');
    IndexOfFirst(line, "", '\n');
  }

  lemma ParseFullLine(line: string, suffix: string)
    requires '\n' !in line
    ensures ParseLines([line, ""], suffix) == Collect(Ok([]), ParseLine(line, suffix))
  {
    assert [line, ""][..1] == [line];
    OneLine(line, suffix);
    OneLine("", suffix);
  }

  lemma ParseEmptyTail(lines: seq<string>, suffix: string)
    ensures ParseLines(lines + [""], suffix) == ParseLines(lines, suffix)
  {
    OneLine("", suffix);
    assert (lines + [""])[..|lines|] == lines;
  }

  lemma ParseFirstLine(line: string, suffix: string)
    requires '\n' !in line
    ensures ParseExport(line + "\n", suffix) == Collect(Ok([]), ParseLine(line, suffix))
  {
    assert line + "\n" == line + ['\n'] + "";
    SplitFullLine(line);
    ParseFullLine(line, suffix);
  }

  lemma ChainLine(sofar: Result<seq<Cookie>, Error>, line: LineResult)
    ensures Chain(sofar, Collect(Ok([]), line)) == Collect(sofar, line)
  {
    CollectChain(sofar, Ok([]), line);
    ChainNothing(sofar);
  }

  /** A line added to an export adds what it means, and nothing else. */
  lemma ParseOneMore(text: string, line: string, suffix: string)
    requires '\n' !in line
    requires text != "" && text[|text| - 1] == '\n'
    ensures ParseExport(text + line + "\n", suffix) == Collect(ParseExport(text, suffix), ParseLine(line, suffix))
  {
    var body := text[..|text| - 1];
    assert text == body + ['\n'] + "";
    SplitAppend(body, "", '\n');
    assert Split("", '\n') == [""];
    assert text + line + "\n" == body + ['\n'] + (line + ['\n'] + "");
    SplitAppend(body, line + ['\n'] + "", '\n');
    SplitFullLine(line);
    ParseFullLine(line, suffix);
    var lines := Split(body, '\n');
    ParseEmptyTail(lines, suffix);
    ParseLinesAppend(lines, [line, ""], suffix);
    ChainLine(ParseLines(lines, suffix), ParseLine(line, suffix));
  }

  lemma OneLine(line: string, suffix: string)
    ensures ParseLines([line], suffix) == Collect(Ok([]), ParseLine(line, suffix))
    ensures ParseLine("", suffix) == Skip
  {
    assert [line][..0] == [];
  }

  lemma HeaderIsSkipped(suffix: string)
    ensures ParseExport(HEADER + "\n", suffix) == Ok([])
  {
    assert HEADER[..1] == "#";
    assert HEADER[1] == ' ' && HTTP_ONLY[1] == 'H';
    assert HEADER[..|HTTP_ONLY|][1] != HTTP_ONLY[1];
    assert HEADER[|HEADER| - 1] == 'e';
    assert HEADER[2] == 'N';
    ParseFirstLine(HEADER, suffix);
  }

  lemma {:induction false} PrintEndsLine(cs: seq<JsonCookie>)
    ensures PrintAll(cs) != "" && PrintAll(cs)[|PrintAll(cs)| - 1] == '\n'
  {
    if cs != [] {
      PrintEndsLine(cs[..|cs| - 1]);
    }
  }

  lemma OneMoreEntry(cs: seq<JsonCookie>, suffix: string)
    requires cs != [] && (IsPrinted(cs[|cs| - 1]) ==> IsPrintable(cs[|cs| - 1]))
    requires ParseExport(PrintAll(cs[..|cs| - 1]), suffix) == Ok(AllIntended(cs[..|cs| - 1], suffix))
    ensures ParseExport(PrintAll(cs), suffix) == Ok(AllIntended(cs, suffix))
  {
    var c := cs[|cs| - 1];
    var text, intended := PrintAll(cs[..|cs| - 1]), AllIntended(cs[..|cs| - 1], suffix);
    if IsPrinted(c) {
      PrintEndsLine(cs[..|cs| - 1]);
      LineRoundTrip(c, suffix);
      LineHasNoNewline(c);
      assert PrintAll(cs) == text + PrintLine(c) + "\n";
      ParseOneMore(text, PrintLine(c), suffix);
    } else {
      assert PrintAll(cs) == text + "" == text;
    }
    assert intended + [] == intended;
  }

  /**
   Parsing the printed export gives back the entries whose domain matches, in order, whatever tabs their values
   hold; entries without a name or a domain are left out.
   */
  lemma {:induction false} RoundTrip(cs: seq<JsonCookie>, suffix: string)
    requires forall c | c in cs && IsPrinted(c) :: IsPrintable(c)
    ensures ParseExport(PrintAll(cs), suffix) == Ok(AllIntended(cs, suffix))
  {
    if cs == [] {
      HeaderIsSkipped(suffix);
    } else {
      var init, c := cs[..|cs| - 1], cs[|cs| - 1];
      forall d | d in init && IsPrinted(d) ensures IsPrintable(d) { assert d in cs; }
      RoundTrip(init, suffix);
      if IsPrinted(c) {
        assert c in cs;
      }
      OneMoreEntry(cs, suffix);
    }
  }
}
