/** The parts of Go's strings and strconv packages the text formats need, with the laws they are used for. */
module Text {
  import opened Basics

  predicate OccursAt(s: string, i: nat, sub: string) {
    i + |sub| <= |s| && s[i..i + |sub|] == sub
  }

  predicate Contains(s: string, sub: string) {
    exists i: nat | i <= |s| :: OccursAt(s, i, sub)
  }

  predicate HasPrefix(s: string, prefix: string) {
    |prefix| <= |s| && s[..|prefix|] == prefix
  }

  predicate HasSuffix(s: string, suffix: string) {
    |suffix| <= |s| && s[|s| - |suffix|..] == suffix
  }

  function TrimRight(s: string, c: char): string {
    if s != "" && s[|s| - 1] == c then TrimRight(s[..|s| - 1], c) else s
  }

  /** The index of the first `c`, or the length when there is none. */
  function IndexOf(s: string, c: char): (i: nat)
    ensures i <= |s| && c !in s[..i]
    ensures i < |s| ==> s[i] == c
  {
    if s == "" || s[0] == c then 0 else 1 + IndexOf(s[1..], c)
  }

  /** strings.Split with a one-character separator: never empty. */
  function Split(s: string, c: char): (parts: seq<string>)
    ensures parts != []
    decreases |s|
  {
    var i := IndexOf(s, c);
    if i == |s| then [s] else [s[..i]] + Split(s[i + 1..], c)
  }

  /** strings.SplitN: at most `n` parts, the last one unsplit. */
  function SplitN(s: string, c: char, n: nat): (parts: seq<string>)
    requires 0 < n
    ensures 0 < |parts| <= n
    decreases |s|
  {
    var i := IndexOf(s, c);
    if n == 1 || i == |s| then [s] else [s[..i]] + SplitN(s[i + 1..], c, n - 1)
  }

  function Join(parts: seq<string>, c: char): string {
    if parts == [] then "" else if |parts| == 1 then parts[0] else parts[0] + [c] + Join(parts[1..], c)
  }

  predicate Lacks(parts: seq<string>, c: char) {
    forall p | p in parts :: c !in p
  }

  lemma {:induction false} IndexOfFirst(a: string, b: string, c: char)
    requires c !in a
    ensures IndexOf(a + [c] + b, c) == |a|
    ensures IndexOf(a, c) == |a|
  {
    if a != "" {
      assert (a + [c] + b)[1..] == a[1..] + [c] + b;
      IndexOfFirst(a[1..], b, c);
    }
  }

  lemma SplitFirst(a: string, b: string, c: char)
    requires c !in a
    ensures Split(a + [c] + b, c) == [a] + Split(b, c)
  {
    IndexOfFirst(a, b, c);
    var s := a + [c] + b;
    assert s[..|a|] == a && s[|a| + 1..] == b;
  }

  lemma {:induction false} SplitLacks(s: string, c: char)
    ensures Lacks(Split(s, c), c)
    decreases |s|
  {
    var i := IndexOf(s, c);
    if i == |s| {
      LacksNone(s, c);
    } else {
      SplitLacks(s[i + 1..], c);
      LacksMore(s[..i], Split(s[i + 1..], c), c);
    }
  }

  lemma LacksNone(s: string, c: char)
    requires IndexOf(s, c) == |s|
    ensures Lacks([s], c)
  {
    assert s[..|s|] == s;
  }

  lemma LacksMore(first: string, rest: seq<string>, c: char)
    requires c !in first && Lacks(rest, c)
    ensures Lacks([first] + rest, c)
  {
  }

  lemma {:induction false} JoinOfSplit(s: string, c: char)
    ensures Join(Split(s, c), c) == s
    decreases |s|
  {
    var i := IndexOf(s, c);
    if i < |s| {
      var rest := Split(s[i + 1..], c);
      JoinOfSplit(s[i + 1..], c);
      JoinFirst(s[..i], rest, c);
      CutAt(s, i);
    }
  }

  lemma JoinFirst(a: string, parts: seq<string>, c: char)
    requires parts != []
    ensures Join([a] + parts, c) == a + [c] + Join(parts, c)
  {
    assert ([a] + parts)[1..] == parts;
  }

  lemma CutAt(s: string, i: nat)
    requires i < |s|
    ensures s[..i] + [s[i]] + s[i + 1..] == s
  {
  }

  lemma {:induction false} SplitOfJoin(parts: seq<string>, c: char)
    requires parts != [] && Lacks(parts, c)
    ensures Split(Join(parts, c), c) == parts
  {
    if |parts| == 1 {
      IndexOfFirst(parts[0], "", c);
    } else {
      SplitOfJoin(parts[1..], c);
      SplitFirst(parts[0], Join(parts[1..], c), c);
    }
  }

  lemma {:induction false} JoinAppend(a: seq<string>, b: seq<string>, c: char)
    requires a != [] && b != []
    ensures Join(a + b, c) == Join(a, c) + [c] + Join(b, c)
  {
    if |a| == 1 {
      assert (a + b)[1..] == b;
    } else {
      assert (a + b)[1..] == a[1..] + b;
      JoinAppend(a[1..], b, c);
      assert Join(a + b, c) == a[0] + [c] + (Join(a[1..], c) + [c] + Join(b, c));
    }
  }

  lemma SplitAppend(a: string, b: string, c: char)
    ensures Split(a + [c] + b, c) == Split(a, c) + Split(b, c)
  {
    SplitLacks(a, c);
    SplitLacks(b, c);
    SplitOfJoin(Split(a, c) + Split(b, c), c);
    JoinAppend(Split(a, c), Split(b, c), c);
    JoinOfSplit(a, c);
    JoinOfSplit(b, c);
  }

  /** The parts of Split with everything from the last allowed part on joined back. */
  function Rejoin(parts: seq<string>, c: char, n: nat): seq<string>
    requires 0 < n
  {
    if |parts| <= n then parts else parts[..n - 1] + [Join(parts[n - 1..], c)]
  }

  lemma RejoinFirst(a: string, parts: seq<string>, c: char, n: nat)
    requires 1 < n
    ensures Rejoin([a] + parts, c, n) == [a] + Rejoin(parts, c, n - 1)
  {
    var all := [a] + parts;
    if |all| > n {
      assert all[..n - 1] == [a] + parts[..n - 2];
      assert all[n - 1..] == parts[n - 2..];
    }
  }

  lemma RejoinWhole(parts: seq<string>, c: char)
    requires parts != []
    ensures Rejoin(parts, c, 1) == [Join(parts, c)]
  {
    assert parts[0..] == parts && parts[..0] == [];
  }

  /** SplitN agrees with Split except that it leaves the tail joined. */
  lemma {:induction false} SplitNIsRejoin(s: string, c: char, n: nat)
    requires 0 < n
    ensures SplitN(s, c, n) == Rejoin(Split(s, c), c, n)
    decreases |s|
  {
    if n == 1 || IndexOf(s, c) == |s| {
      SplitNEnds(s, c, n);
    } else {
      SplitNIsRejoin(s[IndexOf(s, c) + 1..], c, n - 1);
      SplitStep(s, c, n);
      RejoinFirst(s[..IndexOf(s, c)], Split(s[IndexOf(s, c) + 1..], c), c, n);
    }
  }

  lemma SplitNEnds(s: string, c: char, n: nat)
    requires 0 < n && (n == 1 || IndexOf(s, c) == |s|)
    ensures SplitN(s, c, n) == Rejoin(Split(s, c), c, n)
  {
    if n == 1 {
      JoinOfSplit(s, c);
      RejoinWhole(Split(s, c), c);
    }
  }

  lemma SplitStep(s: string, c: char, n: nat)
    requires 1 < n && IndexOf(s, c) < |s|
    ensures
      var i := IndexOf(s, c);
      && Split(s, c) == [s[..i]] + Split(s[i + 1..], c)
      && SplitN(s, c, n) == [s[..i]] + SplitN(s[i + 1..], c, n - 1)
  {
  }

  lemma {:induction false} TrimRightKeeps(s: string, c: char)
    ensures TrimRight(s, c) <= s
    ensures TrimRight(s, c) == "" || TrimRight(s, c)[|TrimRight(s, c)| - 1] != c
    ensures forall i | |TrimRight(s, c)| <= i < |s| :: s[i] == c
  {
    if s != "" && s[|s| - 1] == c {
      TrimRightKeeps(s[..|s| - 1], c);
    }
  }

  lemma {:induction false} TrimRightAppend(s: string, c: char)
    ensures TrimRight(s + [c], c) == TrimRight(s, c)
  {
    assert (s + [c])[..|s|] == s;
  }

  // ---------------------------------------------------------------- decimal numbers

  predicate IsDigit(c: char) {
    '0' <= c <= '9'
  }

  predicate AllDigits(s: string) {
    forall c | c in s :: IsDigit(c)
  }

  function DigitValue(c: char): nat
    requires IsDigit(c)
  {
    c as int - '0' as int
  }

  function DigitChar(d: nat): (c: char)
    requires d < 10
    ensures IsDigit(c) && DigitValue(c) == d
  {
    ('0' as int + d) as char
  }

  function Decimal(s: string): nat
    requires AllDigits(s)
  {
    if s == "" then 0 else 10 * Decimal(s[..|s| - 1]) + DigitValue(s[|s| - 1])
  }

  /** Numbers are read with the highest digit first, each place worth ten of the next. */
  lemma {:induction false} DecimalPlaces(a: string, b: string)
    requires AllDigits(a + b)
    ensures AllDigits(a) && AllDigits(b) && Decimal(a + b) == Decimal(a) * PowerOfTen(|b|) + Decimal(b)
    ensures |b| == 1 ==> Decimal(b) == b[0] as int - 48
  {
    DigitsOfParts(a, b);
    if b == "" {
      assert a + b == a;
    } else {
      var init := b[..|b| - 1];
      assert (a + b)[..|a + b| - 1] == a + init;
      DigitsOfParts(a + init, [b[|b| - 1]]);
      assert a + init + [b[|b| - 1]] == a + b;
      DecimalPlaces(a, init);
      TimesTen(Decimal(a), PowerOfTen(|init|));
    }
  }

  lemma TimesTen(x: nat, y: nat)
    ensures 10 * (x * y) == x * (10 * y)
  {
  }

  lemma DigitsOfParts(a: string, b: string)
    requires AllDigits(a + b)
    ensures AllDigits(a) && AllDigits(b)
  {
    assert forall c | c in a :: c in a + b;
    assert forall c | c in b :: c in a + b;
  }

  function PowerOfTen(n: nat): nat {
    if n == 0 then 1 else 10 * PowerOfTen(n - 1)
  }

  const MIN_INT64: int := -0x8000_0000_0000_0000
  const MAX_INT64: int := 0x7fff_ffff_ffff_ffff
  const MAX_UINT64: int := 0xffff_ffff_ffff_ffff

  predicate IsInt64(n: int) {
    MIN_INT64 <= n <= MAX_INT64
  }

  /** strconv.ParseUint(s, 10, 64). */
  function ParseUint(s: string): Option<nat> {
    if s == "" || !AllDigits(s) || Decimal(s) > MAX_UINT64 then None else Some(Decimal(s))
  }

  /** strconv.ParseInt(s, 10, 64): an optional sign, then digits, in range. */
  function ParseInt(s: string): (n: Option<int>)
    ensures n.Some? ==> IsInt64(n.value)
  {
    var signed := s != "" && (s[0] == '-' || s[0] == '+');
    var digits := if signed then s[1..] else s;
    if digits == "" || !AllDigits(digits) then None
    else
      var magnitude: int := Decimal(digits);
      var n := if signed && s[0] == '-' then -magnitude else magnitude;
      if IsInt64(n) then Some(n) else None
  }

  /** What is read as a number: digits, with or without a sign, in range. */
  lemma ParseIntIsExact(s: string, n: int)
    ensures ParseInt(s) == Some(n) <==> IsInt64(n) && exists digits :: IsNumeral(s, n, digits)
  {
    if s != "" && (s[0] == '-' || s[0] == '+') {
      assert s == [s[0]] + s[1..] && !IsDigit(s[0]);
      if ParseInt(s) == Some(n) { assert IsNumeral(s, n, s[1..]); }
    } else if ParseInt(s) == Some(n) {
      assert IsNumeral(s, n, s);
    }
    if digits :| IsNumeral(s, n, digits) {
      assert digits[0] in digits;
      assert ("+" + digits)[1..] == digits && ("-" + digits)[1..] == digits;
    }
  }

  predicate IsNumeral(s: string, n: int, digits: string) {
    && digits != "" && AllDigits(digits)
    && (|| ((s == digits || s == "+" + digits) && n == Decimal(digits))
        || (s == "-" + digits && n == -(Decimal(digits) as int)))
  }

  function FormatNat(n: nat): (s: string)
    ensures s != "" && AllDigits(s)
  {
    if n < 10 then [DigitChar(n)] else FormatNat(n / 10) + [DigitChar(n % 10)]
  }

  /** The %d verb. */
  function FormatInt(n: int): string {
    if n < 0 then "-" + FormatNat(-n) else FormatNat(n)
  }

  lemma {:induction false} DecimalOfFormat(n: nat)
    ensures Decimal(FormatNat(n)) == n
  {
    if n >= 10 {
      DecimalOfFormat(n / 10);
      assert FormatNat(n)[..|FormatNat(n)| - 1] == FormatNat(n / 10);
    }
  }

  /** Printing with %d and parsing back is the identity on 64-bit integers. */
  lemma ParseOfFormat(n: int)
    requires IsInt64(n)
    ensures ParseInt(FormatInt(n)) == Some(n)
  {
    if n < 0 {
      DecimalOfFormat(-n);
      ParseOfDigits(FormatNat(-n), true);
    } else {
      DecimalOfFormat(n);
      ParseOfDigits(FormatNat(n), false);
    }
  }

  lemma ParseOfDigits(digits: string, negative: bool)
    requires digits != "" && AllDigits(digits)
    ensures
      var magnitude: int := Decimal(digits);
      var n := if negative then -magnitude else magnitude;
      IsInt64(n) ==> ParseInt(if negative then "-" + digits else digits) == Some(n)
  {
    if negative {
      assert ("-" + digits)[1..] == digits;
    } else {
      assert digits[0] in digits;
    }
  }

  lemma FormatIntChars(n: int, c: char)
    requires c in FormatInt(n)
    ensures IsDigit(c) || c == '-'
  {
  }
}
