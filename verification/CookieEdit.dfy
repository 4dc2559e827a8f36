/** Putting one cookie into a Netscape export, line by line, and what a later parse then sees. */
module CookieEdit {
  import opened Basics
  import opened Text
  import opened Cookies

  type Parsed = Result<seq<Cookie>, Cookies.Error>

  /** unicode.IsSpace. */
  predicate IsSpace(c: char) {
    || '\t' <= c <= '\r' || c == ' ' || c == '\U{85}' || c == '\U{A0}' || c == '\U{1680}'
    || '\U{2000}' <= c <= '\U{200A}' || c == '\U{2028}' || c == '\U{2029}' || c == '\U{202F}' || c == '\U{205F}'
    || c == '\U{3000}'
  }

  predicate IsBlank(s: string) {
    forall c | c in s :: IsSpace(c)
  }

  /** The last second of a 32-bit clock, printed. */
  const EXPIRES := 2147483647
  const EXPIRY := "2147483647"

  lemma ExpiryIsRead()
    ensures ParseInt(EXPIRY) == Some(EXPIRES) && TAB !in EXPIRY && '\n' !in EXPIRY
  {
    assert AllDigits(EXPIRY);
    assert EXPIRY[..5] == "21474" && EXPIRY[5..] == "83647" && EXPIRY == EXPIRY[..5] + EXPIRY[5..];
    DecimalPlaces(EXPIRY[..5], EXPIRY[5..]);
    FiveDigits("21474");
    FiveDigits("83647");
    assert PowerOfTen(5) == 100_000;
  }

  lemma FiveDigits(s: string)
    requires |s| == 5 && AllDigits(s)
    ensures Decimal(s) == DigitValue(s[0]) * 10_000 + DigitValue(s[1]) * 1000 + DigitValue(s[2]) * 100
                          + DigitValue(s[3]) * 10 + DigitValue(s[4])
  {
    assert s[..1][..0] == "" && s[..2][..1] == s[..1] && s[..3][..2] == s[..2] && s[..4][..3] == s[..3];
    assert Decimal(s[..1]) == DigitValue(s[0]);
    assert Decimal(s[..2]) == 10 * Decimal(s[..1]) + DigitValue(s[1]);
    assert Decimal(s[..3]) == 10 * Decimal(s[..2]) + DigitValue(s[2]);
    assert Decimal(s[..4]) == 10 * Decimal(s[..3]) + DigitValue(s[3]);
  }

  function NewHead(domain: string, name: string): seq<string> {
    [domain, "TRUE", "/", "TRUE", EXPIRY, name]
  }

  predicate Names(line: string, name: string) {
    var parts := Split(line, TAB);
    |parts| >= 7 && parts[5] == name
  }

  predicate Found(lines: seq<string>, name: string) {
    exists i | 0 <= i < |lines| :: Names(lines[i], name)
  }

  function EditLine(line: string, name: string, value: string): string {
    if Names(line, name) then LineOf(Split(line, TAB)[..6], value) else line
  }

  function EditAll(lines: seq<string>, name: string, value: string): seq<string> {
    seq(|lines|, i requires 0 <= i < |lines| => EditLine(lines[i], name, value))
  }

  /** An export of white space alone counts as a bare header. */
  function Base(raw: string): string {
    if IsBlank(raw) then HEADER + "\n" else raw
  }

  function LinesOf(raw: string): seq<string> {
    Split(TrimRight(raw, '\n'), '\n')
  }

  function EditedLines(lines: seq<string>, domain: string, name: string, value: string, override: bool): seq<string> {
    if !Found(lines, name) then lines + [LineOf(NewHead(domain, name), value)]
    else if override then EditAll(lines, name, value)
    else lines
  }

  function Edited(raw: string, domain: string, name: string, value: string, override: bool): string {
    Join(EditedLines(LinesOf(Base(raw)), domain, name, value, override), '\n') + "\n"
  }

  /** The loop of WithCookie: rewrite the lines of that name in place, and say whether there were any. */
  method Rewrite(before: seq<string>, name: string, value: string, override: bool)
    returns (lines: seq<string>, found: bool)
    ensures found <==> Found(before, name)
    ensures lines == if override then EditAll(before, name, value) else before
  {
    lines, found := before, false;
    var i := 0;
    while i < |lines|
      invariant i <= |lines| == |before|
      invariant found <==> Found(before[..i], name)
      invariant lines == EditSome(before, i, name, value, override)
    {
      EditOneMore(before, i, name, value, override);
      FoundGrows(before, i, name);
      var parts := Split(lines[i], TAB);
      if |parts| >= 7 && parts[5] == name {
        found := true;
        if override {
          lines := lines[i := LineOf(parts[..6], value)];
        }
      }
      i := i + 1;
    }
    assert before[..i] == before && before[i..] == [];
  }

  /** The lines when the first `n` have been looked at. */
  function EditSome(before: seq<string>, n: nat, name: string, value: string, override: bool): seq<string>
    requires n <= |before|
  {
    if override then EditAll(before[..n], name, value) + before[n..] else before
  }

  lemma FoundGrows(before: seq<string>, n: nat, name: string)
    requires n < |before|
    ensures Found(before[..n + 1], name) <==> Found(before[..n], name) || Names(before[n], name)
  {
    assert before[..n + 1][n] == before[n];
    assert forall i | 0 <= i < n :: before[..n][i] == before[..n + 1][i];
  }

  lemma EditOneMore(before: seq<string>, n: nat, name: string, value: string, override: bool)
    requires n < |before|
    ensures |EditSome(before, n, name, value, override)| == |before|
    ensures EditSome(before, n, name, value, override)[n] == before[n]
    ensures EditSome(before, n + 1, name, value, override) ==
      EditSome(before, n, name, value, override)[n := if override then EditLine(before[n], name, value) else before[n]]
  {
    if override {
      assert before[..n + 1] == before[..n] + [before[n]];
      assert EditAll(before[..n + 1], name, value) ==
        EditAll(before[..n], name, value) + [EditLine(before[n], name, value)];
    }
  }

  predicate IsLineOf(line: string, name: string) {
    |Split(line, '\t')| >= 7 && Split(line, '\t')[5] == name
  }

  function NewText(line: string, name: string, value: string, override: bool): string {
    if override && IsLineOf(line, name) then Join(Split(line, '\t')[..6] + [value], '\t') else line
  }

  /** The lines of that name keep six fields and take the value, if they are to; where there is none, one is added. */
  predicate AreEdited(before: seq<string>, after: seq<string>, domain: string, name: string, value: string,
                      override: bool)
  {
    && |after| >= |before| && (forall i | 0 <= i < |before| :: after[i] == NewText(before[i], name, value, override))
    && after[|before|..] ==
         if exists i | 0 <= i < |before| :: IsLineOf(before[i], name) then []
         else [Join([domain, "TRUE", "/", "TRUE", "2147483647", name, value], '\t')]
  }

  /** The edited export line by line. */
  lemma EditIsExact(raw: string, domain: string, name: string, value: string, override: bool)
    returns (before: seq<string>, after: seq<string>)
    ensures
      var text := if forall c | c in raw :: IsSpace(c) then "# Netscape HTTP Cookie File\n" else raw;
      before == Split(TrimRight(text, '\n'), '\n')
    ensures Edited(raw, domain, name, value, override) == Join(after, '\n') + "\n"
    ensures AreEdited(before, after, domain, name, value, override)
  {
    before := LinesOf(Base(raw));
    after := EditedLines(before, domain, name, value, override);
    LinesAreEdited(before, domain, name, value, override);
    assert HEADER + "\n" == "# Netscape HTTP Cookie File\n";
  }

  lemma LinesAreEdited(before: seq<string>, domain: string, name: string, value: string, override: bool)
    ensures AreEdited(before, EditedLines(before, domain, name, value, override), domain, name, value, override)
  {
    var after := EditedLines(before, domain, name, value, override);
    FoundIsExact(before, name);
    NewLineIsExact(domain, name, value);
    if Found(before, name) {
      assert after[|before|..] == [];
    } else {
      assert after == before + [LineOf(NewHead(domain, name), value)];
      assert after[|before|..] == [LineOf(NewHead(domain, name), value)];
    }
    forall i | 0 <= i < |before| ensures after[i] == NewText(before[i], name, value, override) {
      NewTextIsEdit(before[i], name, value);
      assert Found(before, name) || !IsLineOf(before[i], name);
    }
  }

  lemma NewTextIsEdit(line: string, name: string, value: string)
    ensures NewText(line, name, value, true) == EditLine(line, name, value)
  {
  }

  lemma FoundIsExact(lines: seq<string>, name: string)
    ensures Found(lines, name) <==> exists i | 0 <= i < |lines| :: IsLineOf(lines[i], name)
  {
    assert forall i | 0 <= i < |lines| :: IsLineOf(lines[i], name) <==> Names(lines[i], name);
  }

  lemma NewLineIsExact(domain: string, name: string, value: string)
    ensures LineOf(NewHead(domain, name), value) ==
      Join([domain, "TRUE", "/", "TRUE", "2147483647", name, value], '\t')
  {
    assert NewHead(domain, name) + [value] == [domain, "TRUE", "/", "TRUE", "2147483647", name, value];
  }

  method WithCookie(raw: string, domain: string, name: string, value: string, override: bool) returns (r: string)
    ensures r == Edited(raw, domain, name, value, override)
  {
    var text := raw;
    if IsBlank(text) {
      text := HEADER + "\n";
    }
    var lines, found := Rewrite(LinesOf(text), name, value, override);
    if !found {
      NothingToEdit(LinesOf(text), name, value);
      lines := lines + [LineOf(NewHead(domain, name), value)];
    }
    return Join(lines, '\n') + "\n";
  }

  lemma NothingToEdit(lines: seq<string>, name: string, value: string)
    requires !Found(lines, name)
    ensures EditAll(lines, name, value) == lines
  {
    assert forall i | 0 <= i < |lines| :: !Names(lines[i], name);
  }

  // ---------------------------------------------------------------- what a line is

  /** Splitting yields one part more than there are separators. */
  lemma {:induction false} SplitCounts(s: string, c: char)
    ensures |Split(s, c)| == 1 + multiset(s)[c]
    decreases |s|
  {
    var i := IndexOf(s, c);
    assert s[..i] + s[i..] == s;
    if i < |s| {
      assert s == s[..i] + [c] + s[i + 1..];
      SplitCounts(s[i + 1..], c);
    } else {
      assert s[..i] == s;
    }
  }

  lemma SplitNAtLeast(s: string)
    ensures |SplitN(s, TAB, 8)| >= 7 <==> |Split(s, TAB)| >= 7
  {
    SplitNIsRejoin(s, TAB, 8);
  }

  /** A line with seven fields or more is a head and a value. */
  lemma LongLine(line: string) returns (head: seq<string>, value: string)
    requires |Split(line, TAB)| >= 7
    ensures IsHead(head) && head == Split(line, TAB)[..6] && line == LineOf(head, value)
  {
    var parts := Split(line, TAB);
    head, value := parts[..6], Join(parts[6..], TAB);
    SplitLacks(line, TAB);
    forall p | p in head ensures TAB !in p { assert p in parts; }
    JoinOfSplit(line, TAB);
    JoinAppend(parts[..6], parts[6..], TAB);
    assert parts[..6] + parts[6..] == parts;
    LineEndsWith(head, value);
  }

  lemma CountOfParts(a: string, b: string, c: char)
    requires c !in a
    ensures multiset(a + b)[c] == multiset(b)[c] == multiset(b + a)[c]
  {
  }

  lemma CountOfTail(s: string, k: nat, c: char)
    requires k <= |s|
    ensures multiset(s[k..])[c] <= multiset(s)[c]
  {
    assert s == s[..k] + s[k..];
  }

  lemma TrimmedCounts(line: string)
    ensures multiset(TrimRight(line, '\r'))[TAB] == multiset(line)[TAB]
  {
    var trimmed := TrimRight(line, '\r');
    TrimRightKeeps(line, '\r');
    var rest := line[|trimmed|..];
    assert line == trimmed + rest;
    CountOfParts(rest, trimmed, TAB);
  }

  lemma FewTabs(line: string, httpOnly: bool, suffix: string)
    requires multiset(line)[TAB] < 6
    ensures FieldsResult(SplitN(line, TAB, 8), httpOnly, suffix) == Bad(Malformed)
  {
    SplitCounts(line, TAB);
    SplitNAtLeast(line);
  }

  /** A shorter line holds no cookie. */
  lemma ShortLine(line: string, suffix: string)
    requires |Split(line, TAB)| < 7
    ensures !ParseLine(line, suffix).Got?
  {
    var trimmed := TrimRight(line, '\r');
    SplitCounts(line, TAB);
    TrimmedCounts(line);
    FewTabs(trimmed, false, suffix);
    if HasPrefix(trimmed, HTTP_ONLY) {
      CountOfTail(trimmed, |HTTP_ONLY|, TAB);
      FewTabs(trimmed[|HTTP_ONLY|..], true, suffix);
    }
  }

  // ---------------------------------------------------------------- a line edited, then parsed

  /** The value a parser reads back. */
  function Seen(value: string): string {
    Unquote(TrimRight(value, '\r'))
  }

  function SetValue(c: Cookie, name: string, value: string): Cookie {
    if c.name == name then c.(value := Seen(value)) else c
  }

  function SetLine(r: LineResult, name: string, value: string): LineResult {
    if r.Got? then Got(SetValue(r.cookie, name, value)) else r
  }

  function SetAll(cookies: seq<Cookie>, name: string, value: string): seq<Cookie> {
    seq(|cookies|, i requires 0 <= i < |cookies| => SetValue(cookies[i], name, value))
  }

  function SetParsed(r: Parsed, name: string, value: string): Parsed {
    if r.Ok? then Ok(SetAll(r.value, name, value)) else r
  }

  /** Editing a line and then parsing it sets the value of what parsing it gave: same fields, same skip, same error. */
  lemma LineCommutes(line: string, name: string, value: string, suffix: string)
    ensures ParseLine(EditLine(line, name, value), suffix) == SetLine(ParseLine(line, suffix), name, value)
  {
    if |Split(line, TAB)| < 7 {
      ShortLine(line, suffix);
    } else {
      var head, former := LongLine(line);
      ParseOfLine(head, former, suffix);
      ParseOfLine(head, value, suffix);
      assert head[5] == Split(line, TAB)[5];
    }
  }

  lemma SetCollect(sofar: Parsed, line: LineResult, name: string, value: string)
    ensures SetParsed(Collect(sofar, line), name, value) ==
      Collect(SetParsed(sofar, name, value), SetLine(line, name, value))
  {
    if sofar.Ok? && line.Got? {
      assert SetAll(sofar.value + [line.cookie], name, value) ==
        SetAll(sofar.value, name, value) + [SetValue(line.cookie, name, value)];
    }
  }

  lemma {:induction false} LinesCommute(lines: seq<string>, name: string, value: string, suffix: string)
    ensures ParseLines(EditAll(lines, name, value), suffix) == SetParsed(ParseLines(lines, suffix), name, value)
  {
    var after := EditAll(lines, name, value);
    if lines == [] {
      assert SetAll([], name, value) == [];
    } else {
      var init, line := lines[..|lines| - 1], lines[|lines| - 1];
      assert after[..|after| - 1] == EditAll(init, name, value);
      LinesCommute(init, name, value, suffix);
      LineCommutes(line, name, value, suffix);
      SetCollect(ParseLines(init, suffix), ParseLine(line, suffix), name, value);
    }
  }

  // ---------------------------------------------------------------- lines as text

  lemma {:induction false} TrimmedExport(raw: string, suffix: string)
    ensures ParseLines(LinesOf(raw), suffix) == ParseExport(raw, suffix)
  {
    if raw != "" && raw[|raw| - 1] == '\n' {
      var body := raw[..|raw| - 1];
      assert raw == body + ['\n'] + "";
      TrimmedExport(body, suffix);
      SplitAppend(body, "", '\n');
      assert Split("", '\n') == [""];
      ParseEmptyTail(Split(body, '\n'), suffix);
    }
  }

  lemma ExportOfLines(lines: seq<string>, suffix: string)
    requires lines != [] && Lacks(lines, '\n')
    ensures ParseExport(Join(lines, '\n') + "\n", suffix) == ParseLines(lines, suffix)
  {
    var text := Join(lines, '\n');
    assert text + "\n" == text + ['\n'] + "";
    SplitAppend(text, "", '\n');
    assert Split("", '\n') == [""];
    SplitOfJoin(lines, '\n');
    ParseEmptyTail(lines, suffix);
  }

  /** What the edit puts in a line holds no separator. */
  predicate IsClean(domain: string, name: string, value: string) {
    && TAB !in domain && '\n' !in domain && TAB !in name && '\n' !in name && '\n' !in value
  }

  lemma LineLacksNewline(head: seq<string>, value: string)
    requires Lacks(head, '\n') && '\n' !in value
    ensures '\n' !in LineOf(head, value)
  {
    JoinLacks(head + [value], TAB, '\n');
  }

  lemma NewLineIsClean(domain: string, name: string, value: string)
    requires IsClean(domain, name, value)
    ensures IsHead(NewHead(domain, name)) && '\n' !in LineOf(NewHead(domain, name), value)
  {
    LineLacksNewline(NewHead(domain, name), value);
  }

  lemma EditedLineIsClean(line: string, name: string, value: string)
    requires '\n' !in line && '\n' !in value
    ensures '\n' !in EditLine(line, name, value)
  {
    if Names(line, name) {
      var parts := Split(line, TAB);
      PartsLack(line, TAB, '\n');
      forall p | p in parts[..6] ensures '\n' !in p { assert p in parts; }
      LineLacksNewline(parts[..6], value);
    }
  }

  lemma {:induction false} PartsLack(s: string, sep: char, c: char)
    requires c !in s
    ensures Lacks(Split(s, sep), c)
    decreases |s|
  {
    var i := IndexOf(s, sep);
    if i < |s| {
      assert s == s[..i + 1] + s[i + 1..];
      assert c !in s[i + 1..];
      PartsLack(s[i + 1..], sep, c);
    }
  }

  lemma EditedLinesAreClean(lines: seq<string>, domain: string, name: string, value: string, override: bool)
    requires Lacks(lines, '\n') && IsClean(domain, name, value)
    ensures Lacks(EditedLines(lines, domain, name, value, override), '\n')
  {
    var after := EditedLines(lines, domain, name, value, override);
    NewLineIsClean(domain, name, value);
    forall p | p in after ensures '\n' !in p {
      var i :| 0 <= i < |after| && after[i] == p;
      if i < |lines| {
        assert lines[i] in lines;
        EditedLineIsClean(lines[i], name, value);
      }
    }
  }

  // ---------------------------------------------------------------- the edited export

  /** The cookies of an edited export, from those of the export it was made of. */
  function AfterEdit(before: Parsed, found: bool, domain: string, name: string, value: string, override: bool,
                     suffix: string): Parsed
    requires IsHead(NewHead(domain, name))
  {
    if !found then Collect(before, Meaning(NewHead(domain, name), TrimRight(value, '\r'), suffix))
    else if override then SetParsed(before, name, value)
    else before
  }

  /** Blank text never yields a cookie, so reading it as a bare header changes no export that parses. */
  lemma {:induction false} BlankLines(lines: seq<string>, suffix: string)
    requires forall l | l in lines :: IsBlank(l)
    ensures ParseLines(lines, suffix).Ok? ==> ParseLines(lines, suffix) == Ok([])
  {
    if lines != [] {
      var line := lines[|lines| - 1];
      forall l | l in lines[..|lines| - 1] ensures IsBlank(l) { assert l in lines; }
      BlankLines(lines[..|lines| - 1], suffix);
      assert line in lines;
      BlankLine(line, suffix);
    }
  }

  lemma BlankLine(line: string, suffix: string)
    requires IsBlank(line)
    ensures !ParseLine(line, suffix).Got?
  {
    if |Split(line, TAB)| < 7 {
      ShortLine(line, suffix);
    } else {
      var head, value := LongLine(line);
      ParseOfLine(head, value, suffix);
      forall ch | ch in head[4] ensures IsSpace(ch) { CharOfPart(line, TAB, 4, ch); }
      if head[4] != "" {
        assert head[4][0] in head[4];
        assert head[4][|head[4]| - 1] in head[4];
        assert !IsDigit(head[4][|head[4]| - 1]);
      }
    }
  }

  lemma {:induction false} CharOfPart(s: string, sep: char, k: nat, ch: char)
    requires k < |Split(s, sep)| && ch in Split(s, sep)[k]
    ensures ch in s
    decreases |s|
  {
    var i := IndexOf(s, sep);
    if i < |s| && k > 0 {
      CharOfPart(s[i + 1..], sep, k - 1, ch);
    }
  }

  lemma BaseMeansTheSame(raw: string, suffix: string)
    requires ParseExport(raw, suffix).Ok?
    ensures ParseExport(Base(raw), suffix) == ParseExport(raw, suffix)
  {
    if IsBlank(raw) {
      HeaderIsSkipped(suffix);
      var lines := Split(raw, '\n');
      forall l | l in lines ensures IsBlank(l) {
        var k :| 0 <= k < |lines| && lines[k] == l;
        forall ch | ch in l ensures IsSpace(ch) { CharOfPart(raw, '\n', k, ch); }
      }
      BlankLines(lines, suffix);
    }
  }

  /**
   Editing commutes with parsing. For an export that parses: with a line of that name and `override`, every cookie of
   that name has the new value and nothing else changes; without `override`, nothing changes; with no such line, the
   new cookie is added at the end.
   */
  lemma EditCommutes(raw: string, domain: string, name: string, value: string, override: bool, suffix: string)
    requires IsClean(domain, name, value)
    requires ParseExport(raw, suffix).Ok?
    ensures IsHead(NewHead(domain, name))
    ensures ParseExport(Edited(raw, domain, name, value, override), suffix) ==
      AfterEdit(ParseExport(raw, suffix), Found(LinesOf(Base(raw)), name), domain, name, value, override, suffix)
  {
    var lines := LinesOf(Base(raw));
    var after := EditedLines(lines, domain, name, value, override);
    SplitLacks(TrimRight(Base(raw), '\n'), '\n');
    EditedLinesAreClean(lines, domain, name, value, override);
    ExportOfLines(after, suffix);
    BaseMeansTheSame(raw, suffix);
    TrimmedExport(Base(raw), suffix);
    LinesCommute(lines, name, value, suffix);
    NewLineIsClean(domain, name, value);
    ParseOfLine(NewHead(domain, name), value, suffix);
    assert (lines + [LineOf(NewHead(domain, name), value)])[..|lines|] == lines;
  }

  /** The cookie added to an export without a line of that name is new, secure, and lasts as long as can be. */
  lemma AddedCookie(raw: string, domain: string, name: string, value: string, override: bool, suffix: string)
    requires IsClean(domain, name, value)
    requires ParseExport(raw, suffix).Ok? && !Found(LinesOf(Base(raw)), name)
    requires !HasPrefix(domain, "#") && Contains(domain, suffix)
    ensures
      var before := ParseExport(raw, suffix).value;
      && (forall c | c in before :: c.name != name)
      && ParseExport(Edited(raw, domain, name, value, override), suffix) ==
         Ok(before + [Cookie(name, Seen(value), domain, "/", true, false, EXPIRES)])
  {
    EditCommutes(raw, domain, name, value, override, suffix);
    PrefixOfPrefix(domain);
    ExpiryIsRead();
    BaseMeansTheSame(raw, suffix);
    TrimmedExport(Base(raw), suffix);
    NoneOfThatName(LinesOf(Base(raw)), name, suffix);
  }

  lemma {:induction false} NoneOfThatName(lines: seq<string>, name: string, suffix: string)
    requires !Found(lines, name)
    requires ParseLines(lines, suffix).Ok?
    ensures forall c | c in ParseLines(lines, suffix).value :: c.name != name
  {
    if lines != [] {
      var init, line := lines[..|lines| - 1], lines[|lines| - 1];
      assert forall i | 0 <= i < |init| :: init[i] == lines[i];
      NoneOfThatName(init, name, suffix);
      if |Split(line, TAB)| < 7 {
        ShortLine(line, suffix);
      } else {
        var head, value := LongLine(line);
        ParseOfLine(head, value, suffix);
        assert head[5] == Split(line, TAB)[5];
        assert !Names(lines[|lines| - 1], name);
      }
    }
  }

  // ---------------------------------------------------------------- when the edit takes effect

  predicate HasName(cookies: seq<Cookie>, name: string) {
    exists c | c in cookies :: c.name == name
  }

  predicate Holds(cookies: seq<Cookie>, name: string, value: string) {
    exists c | c in cookies :: c.name == name && c.value == value
  }

  /** A line for this domain is neither a comment nor of another site. */
  predicate IsSeenDomain(domain: string, suffix: string) {
    if HasPrefix(domain, HTTP_ONLY) then Contains(domain[|HTTP_ONLY|..], suffix)
    else !HasPrefix(domain, "#") && Contains(domain, suffix)
  }

  lemma MeaningOfNewLine(domain: string, name: string, value: string, suffix: string)
    requires IsHead(NewHead(domain, name))
    ensures
      var line := Meaning(NewHead(domain, name), TrimRight(value, '\r'), suffix);
      if IsSeenDomain(domain, suffix) then line.Got? && line.cookie.name == name && line.cookie.value == Seen(value)
      else line.Skip?
  {
    ExpiryIsRead();
  }

  lemma SetAllHolds(cookies: seq<Cookie>, name: string, value: string)
    ensures Holds(SetAll(cookies, name, value), name, Seen(value)) <==> HasName(cookies, name)
  {
    var after := SetAll(cookies, name, value);
    if Holds(after, name, Seen(value)) {
      var c :| c in after && c.name == name && c.value == Seen(value);
      var i :| 0 <= i < |after| && after[i] == c;
      assert cookies[i].name == name && cookies[i] in cookies;
    }
    if HasName(cookies, name) {
      var c :| c in cookies && c.name == name;
      var i :| 0 <= i < |cookies| && cookies[i] == c;
      assert after[i] in after && after[i].name == name && after[i].value == Seen(value);
    }
  }

  lemma SetAllWithoutName(cookies: seq<Cookie>, name: string, value: string)
    requires !HasName(cookies, name)
    ensures SetAll(cookies, name, value) == cookies
  {
    assert forall i | 0 <= i < |cookies| :: cookies[i] in cookies;
  }

  /**
   Exactly when the parsed result holds the new value. With a line of that name, a commented one or one of another
   site included, it takes a cookie of that name before, and without `override` one of that value; with no such line
   it takes a domain that the parser does not skip.
   */
  lemma EditTakesEffectExactly(raw: string, domain: string, name: string, value: string, override: bool,
                               suffix: string)
    requires IsClean(domain, name, value) && ParseExport(raw, suffix).Ok?
    ensures
      var before, after := ParseExport(raw, suffix), ParseExport(Edited(raw, domain, name, value, override), suffix);
      && after.Ok?
      && (Holds(after.value, name, Seen(value)) <==>
            if !Found(LinesOf(Base(raw)), name) then IsSeenDomain(domain, suffix)
            else if override then HasName(before.value, name)
            else Holds(before.value, name, Seen(value)))
  {
    var before := ParseExport(raw, suffix);
    EditCommutes(raw, domain, name, value, override, suffix);
    if !Found(LinesOf(Base(raw)), name) {
      BaseMeansTheSame(raw, suffix);
      TrimmedExport(Base(raw), suffix);
      NoneOfThatName(LinesOf(Base(raw)), name, suffix);
      MeaningOfNewLine(domain, name, value, suffix);
      if IsSeenDomain(domain, suffix) {
        var added := Meaning(NewHead(domain, name), TrimRight(value, '\r'), suffix).cookie;
        assert added in before.value + [added];
      }
    } else if override {
      SetAllHolds(before.value, name, value);
    }
  }

  /** So a line of that name that yields no cookie keeps the new one out: the parsed export stays as it was. */
  lemma UnseenLineKeepsTheCookieOut(raw: string, domain: string, name: string, value: string, override: bool,
                                    suffix: string)
    requires IsClean(domain, name, value) && ParseExport(raw, suffix).Ok?
    requires Found(LinesOf(Base(raw)), name) && !HasName(ParseExport(raw, suffix).value, name)
    ensures ParseExport(Edited(raw, domain, name, value, override), suffix) == ParseExport(raw, suffix)
  {
    EditCommutes(raw, domain, name, value, override, suffix);
    SetAllWithoutName(ParseExport(raw, suffix).value, name, value);
  }

  function CommentHead(name: string): seq<string> {
    ["# .x.com", "TRUE", "/", "TRUE", "0", name]
  }

  lemma CommentIsHead(name: string)
    requires IsClean("", name, "")
    ensures IsHead(CommentHead(name))
    ensures HasPrefix(CommentHead(name)[0], "#") && !HasPrefix(CommentHead(name)[0], HTTP_ONLY)
  {
    var first := CommentHead(name)[0];
    assert first[..1] == "#";
    assert first[1] == ' ' && HTTP_ONLY[1] == 'H';
  }

  /** The parser skips it, and the edit takes it for the cookie. */
  lemma CommentIsSkipped(name: string, former: string, suffix: string)
    requires IsClean("", name, former)
    ensures ParseLine(LineOf(CommentHead(name), former), suffix) == Skip
    ensures Names(LineOf(CommentHead(name), former), name)
    ensures LineOf(CommentHead(name), former) != "" && LineOf(CommentHead(name), former)[0] == '#'
  {
    var head := CommentHead(name);
    CommentIsHead(name);
    ParseOfLine(head, former, suffix);
    SplitLine(head, former);
    var rest := LineStartsWith(head, former);
  }

  /** A commented cookie line is such a line, whatever its name and value. */
  lemma CommentedLineIsUnseen(name: string, former: string, suffix: string) returns (raw: string)
    requires IsClean("", name, former)
    ensures Found(LinesOf(Base(raw)), name) && ParseExport(raw, suffix) == Ok([])
  {
    var line := LineOf(CommentHead(name), former);
    raw := line + "\n";
    CommentIsHead(name);
    CommentIsSkipped(name, former, suffix);
    LineLacksNewline(CommentHead(name), former);
    ParseFirstLine(line, suffix);
    assert line[0] in raw;
    LineOfOneLine(line);
    assert LinesOf(raw)[0] == line;
  }

  lemma LineOfOneLine(line: string)
    requires line != "" && '\n' !in line
    ensures LinesOf(line + "\n") == [line]
  {
    assert line + "\n" == line + ['\n'];
    TrimRightAppend(line, '\n');
    assert line[|line| - 1] in line;
    assert TrimRight(line, '\n') == line;
    IndexOfFirst(line, "", '\n');
  }

  // ---------------------------------------------------------------- twice is once

  lemma {:induction false} JoinEndsLike(lines: seq<string>, c: char)
    requires lines != [] && lines[|lines| - 1] != ""
    ensures
      var last, text := lines[|lines| - 1], Join(lines, c);
      text != "" && text[|text| - 1] == last[|last| - 1]
  {
    if |lines| > 1 {
      JoinEndsLike(lines[1..], c);
    }
  }

  lemma {:induction false} JoinHas(parts: seq<string>, c: char, k: nat, ch: char)
    requires k < |parts| && ch in parts[k]
    ensures ch in Join(parts, c)
  {
    if k > 0 {
      JoinHas(parts[1..], c, k - 1, ch);
    }
  }

  lemma LastLineOf(raw: string)
    requires !IsBlank(raw)
    ensures LinesOf(raw)[|LinesOf(raw)| - 1] != ""
  {
    var text := TrimRight(raw, '\n');
    TrimRightKeeps(raw, '\n');
    var i :| 0 <= i < |raw| && !IsSpace(raw[i]);
    assert i < |text|;
    LastPart(text, '\n');
  }

  lemma {:induction false} LastPart(s: string, c: char)
    requires s != "" && s[|s| - 1] != c
    ensures Split(s, c)[|Split(s, c)| - 1] != ""
    decreases |s|
  {
    var i := IndexOf(s, c);
    if i < |s| {
      LastPart(s[i + 1..], c);
    }
  }

  /** An edited line is still of that name, and editing it again does nothing. */
  lemma EditedLineStays(line: string, name: string, value: string)
    requires Names(line, name)
    ensures Names(EditLine(line, name, value), name)
    ensures EditLine(EditLine(line, name, value), name, value) == EditLine(line, name, value) != ""
  {
    var head, former := LongLine(line);
    SplitLine(head, value);
    assert (head + Split(value, TAB))[..6] == head;
    LineEndsWith(head, value);
  }

  lemma NewLineNames(domain: string, name: string, value: string)
    requires IsClean(domain, name, value)
    ensures Names(LineOf(NewHead(domain, name), value), name)
    ensures LineOf(NewHead(domain, name), value) != ""
    ensures EditLine(LineOf(NewHead(domain, name), value), name, value) == LineOf(NewHead(domain, name), value)
  {
    NewLineIsClean(domain, name, value);
    var head := NewHead(domain, name);
    SplitLine(head, value);
    assert (head + Split(value, TAB))[..6] == head;
    LineEndsWith(head, value);
  }

  lemma EditedLinesStay(lines: seq<string>, domain: string, name: string, value: string, override: bool)
    requires IsClean(domain, name, value) && lines != [] && lines[|lines| - 1] != ""
    ensures
      var after := EditedLines(lines, domain, name, value, override);
      && Found(after, name) && after[|after| - 1] != ""
      && EditedLines(after, domain, name, value, override) == after
  {
    if !Found(lines, name) {
      AddedLineStays(lines, domain, name, value);
    } else if override {
      ReplacedLinesStay(lines, name, value);
    }
  }

  lemma AddedLineStays(lines: seq<string>, domain: string, name: string, value: string)
    requires IsClean(domain, name, value) && !Found(lines, name)
    ensures
      var line := LineOf(NewHead(domain, name), value);
      var after := lines + [line];
      line != "" && Found(after, name) && EditAll(after, name, value) == after
  {
    NewLineNames(domain, name, value);
    var line := LineOf(NewHead(domain, name), value);
    var after := lines + [line];
    assert Names(after[|lines|], name);
    forall i | 0 <= i < |after| ensures EditLine(after[i], name, value) == after[i] {
      assert i < |lines| ==> after[i] == lines[i] && !Names(lines[i], name);
    }
  }

  lemma EditStays(line: string, name: string, value: string)
    ensures EditLine(EditLine(line, name, value), name, value) == EditLine(line, name, value)
    ensures line != "" ==> EditLine(line, name, value) != ""
    ensures Names(line, name) ==> Names(EditLine(line, name, value), name)
  {
    if Names(line, name) {
      EditedLineStays(line, name, value);
    }
  }

  lemma EditAllStays(lines: seq<string>, name: string, value: string)
    ensures EditAll(EditAll(lines, name, value), name, value) == EditAll(lines, name, value)
  {
    var after := EditAll(lines, name, value);
    forall i | 0 <= i < |after| ensures EditLine(after[i], name, value) == after[i] {
      EditStays(lines[i], name, value);
    }
  }

  lemma ReplacedLinesStay(lines: seq<string>, name: string, value: string)
    requires Found(lines, name) && lines[|lines| - 1] != ""
    ensures
      var after := EditAll(lines, name, value);
      Found(after, name) && after[|after| - 1] != "" && EditAll(after, name, value) == after
  {
    EditAllStays(lines, name, value);
    LastStays(lines, name, value);
    FoundStays(lines, name, value);
  }

  lemma LastStays(lines: seq<string>, name: string, value: string)
    requires lines != [] && lines[|lines| - 1] != ""
    ensures EditAll(lines, name, value)[|lines| - 1] != ""
  {
    EditStays(lines[|lines| - 1], name, value);
  }

  lemma FoundStays(lines: seq<string>, name: string, value: string)
    requires Found(lines, name)
    ensures Found(EditAll(lines, name, value), name)
  {
    var k :| 0 <= k < |lines| && Names(lines[k], name);
    EditStays(lines[k], name, value);
    assert Names(EditAll(lines, name, value)[k], name);
  }

  lemma EditedIsNotBlank(after: seq<string>, name: string)
    requires Found(after, name) && !IsBlank(name)
    ensures !IsBlank(Join(after, '\n') + "\n")
  {
    var k :| 0 <= k < |after| && Names(after[k], name);
    var ch :| ch in name && !IsSpace(ch);
    CharOfPart(after[k], TAB, 5, ch);
    JoinHas(after, '\n', k, ch);
  }

  /** Editing twice is editing once, for every text. */
  lemma EditIsIdempotent(raw: string, domain: string, name: string, value: string, override: bool)
    requires IsClean(domain, name, value) && !IsBlank(name)
    ensures
      var once := Edited(raw, domain, name, value, override);
      Edited(once, domain, name, value, override) == once
  {
    var lines := LinesOf(Base(raw));
    var after := EditedLines(lines, domain, name, value, override);
    var text := Join(after, '\n');
    if IsBlank(raw) {
      assert HEADER[0] == '#' && HEADER[0] in Base(raw);
    }
    LastLineOf(Base(raw));
    EditedLinesStay(lines, domain, name, value, override);
    EditedIsNotBlank(after, name);
    SplitLacks(TrimRight(Base(raw), '\n'), '\n');
    EditedLinesAreClean(lines, domain, name, value, override);
    JoinEndsLike(after, '\n');
    assert after[|after| - 1] in after;
    assert text + "\n" == text + ['\n'];
    TrimRightAppend(text, '\n');
    SplitOfJoin(after, '\n');
  }
}
