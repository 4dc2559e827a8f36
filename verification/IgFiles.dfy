/** The names of Instagram files: date stamps, media-id videos, and legacy videos named by a CDN token. */
module IgFiles {
  import opened Basics
  import opened Text

  const DATE_LEN := 20

  /** What igDatePrefix prints for a four-digit year. */
  type Stamp = s: string | |s| == DATE_LEN && '.' !in s && s[DATE_LEN - 1] == '_' witness "2006-01-02_15-04-05_"

  const MP4 := ".mp4"

  /** The part after the date is a media id: digits and ".mp4". */
  predicate IsIdName(rest: string) {
    HasSuffix(rest, MP4) && |rest| > |MP4| && AllDigits(rest[..|rest| - |MP4|])
  }

  predicate IsLegacy(name: string, prefix: string) {
    HasPrefix(name, prefix) && HasSuffix(name[|prefix|..], MP4) && !IsIdName(name[|prefix|..])
  }

  predicate Less(a: string, b: string) {
    b != "" && (a == "" || a[0] < b[0] || (a[0] == b[0] && Less(a[1..], b[1..])))
  }

  lemma {:induction false} LessIsTotal(a: string, b: string)
    ensures a == b || Less(a, b) || Less(b, a)
  {
    if a != "" && b != "" && a[0] == b[0] {
      LessIsTotal(a[1..], b[1..]);
      assert a == [a[0]] + a[1..] && b == [b[0]] + b[1..];
    }
  }

  lemma {:induction false} LessIsTransitive(a: string, b: string, c: string)
    requires Less(a, b) && Less(b, c)
    ensures Less(a, c)
  {
    if a != "" && a[0] == b[0] == c[0] {
      LessIsTransitive(a[1..], b[1..], c[1..]);
    }
  }

  /** The byte order of names: the first place where two differ decides, and a name comes before its extensions. */
  lemma {:induction false} LessIsExact(a: string, b: string)
    ensures Less(a, b) <==> exists i :: IsLessAt(a, b, i)
  {
    if a != "" && b != "" && a[0] == b[0] {
      LessIsExact(a[1..], b[1..]);
      if i: nat :| IsLessAt(a[1..], b[1..], i) { LessLater(a, b, i); }
      if i: nat :| IsLessAt(a, b, i) {
        assert !IsLessAt(a, b, 0);
        LessLater(a, b, i - 1);
      }
    } else if Less(a, b) {
      assert IsLessAt(a, b, 0);
    }
  }

  predicate IsLessAt(a: string, b: string, i: nat) {
    && i <= |a| && i < |b| && (forall j | 0 <= j < i :: a[j] == b[j])
    && (i == |a| || (a[i] as int) < b[i] as int)
  }

  lemma LessLater(a: string, b: string, i: nat)
    requires a != "" && b != "" && a[0] == b[0]
    ensures IsLessAt(a, b, i + 1) <==> IsLessAt(a[1..], b[1..], i)
  {
    if IsLessAt(a[1..], b[1..], i) {
      forall j | 0 <= j < i + 1 ensures a[j] == b[j] { assert j == 0 || a[1..][j - 1] == b[1..][j - 1]; }
    }
  }

  function Age(mtime: map<string, int>, name: string): int {
    if name in mtime then mtime[name] else 0
  }

  /** The order of igLegacyVideos: by modification time, then by name. */
  predicate Before(mtime: map<string, int>, a: string, b: string) {
    Age(mtime, a) < Age(mtime, b) || (Age(mtime, a) == Age(mtime, b) && Less(a, b))
  }

  predicate Sorted(mtime: map<string, int>, names: seq<string>) {
    forall i, j | 0 <= i < j < |names| :: Before(mtime, names[i], names[j])
  }

  method Insert(mtime: map<string, int>, names: seq<string>, name: string) returns (out: seq<string>)
    requires Sorted(mtime, names) && name !in names
    ensures Sorted(mtime, out)
    ensures |out| == |names| + 1
    ensures forall n :: n in out <==> n in names || n == name
  {
    var i := |names|;
    while i > 0 && Before(mtime, name, names[i - 1])
      invariant 0 <= i <= |names|
      invariant forall j | i <= j < |names| :: Before(mtime, name, names[j])
    {
      i := i - 1;
    }
    out := names[..i] + [name] + names[i..];
    SplicedIsSorted(mtime, names, name, i);
    assert names == names[..i] + names[i..];
  }

  lemma SplicedIsSorted(mtime: map<string, int>, names: seq<string>, name: string, i: nat)
    requires Sorted(mtime, names) && name !in names && i <= |names|
    requires i > 0 ==> !Before(mtime, name, names[i - 1])
    requires forall j | i <= j < |names| :: Before(mtime, name, names[j])
    ensures Sorted(mtime, names[..i] + [name] + names[i..])
  {
    EarlierAreBefore(mtime, names, name, i);
    var out := names[..i] + [name] + names[i..];
    forall j, k | 0 <= j < k < |out| ensures Before(mtime, out[j], out[k]) {
      assert out[j] == if j < i then names[j] else if j == i then name else names[j - 1];
      assert out[k] == if k < i then names[k] else if k == i then name else names[k - 1];
    }
  }

  lemma EarlierAreBefore(mtime: map<string, int>, names: seq<string>, name: string, i: nat)
    requires Sorted(mtime, names) && name !in names && i <= |names|
    requires i > 0 ==> !Before(mtime, name, names[i - 1])
    ensures forall j | 0 <= j < i :: Before(mtime, names[j], name)
  {
    if i > 0 {
      var last := names[i - 1];
      LessIsTotal(name, last);
      forall j | 0 <= j < i ensures Before(mtime, names[j], name) {
        if j < i - 1 {
          BeforeIsTransitive(mtime, names[j], last, name);
        }
      }
    }
  }

  lemma BeforeIsTransitive(mtime: map<string, int>, a: string, b: string, c: string)
    requires Before(mtime, a, b) && Before(mtime, b, c)
    ensures Before(mtime, a, c)
  {
    if Less(a, b) && Less(b, c) {
      LessIsTransitive(a, b, c);
    }
  }

  /** The legacy videos among some names, oldest first; whatever order the names come in. */
  method LegacyVideos(names: set<string>, mtime: map<string, int>, prefix: string) returns (out: seq<string>)
    ensures Sorted(mtime, out)
    ensures IsListOf(out, Legacy(names, prefix))
  {
    out := [];
    var rest, seen := names, {};
    while rest != {}
      invariant rest !! seen && rest + seen == names
      invariant Sorted(mtime, out) && IsListOf(out, Legacy(seen, prefix))
      decreases rest
    {
      var name :| name in rest;
      out := InsertIfLegacy(mtime, out, seen, prefix, name);
      rest, seen := rest - {name}, seen + {name};
    }
  }

  method InsertIfLegacy(mtime: map<string, int>, names: seq<string>, ghost seen: set<string>, prefix: string,
                        name: string)
    returns (out: seq<string>)
    requires name !in seen && Sorted(mtime, names) && IsListOf(names, Legacy(seen, prefix))
    ensures Sorted(mtime, out) && IsListOf(out, Legacy(seen + {name}, prefix))
  {
    LegacyGrows(seen, name, prefix);
    out := names;
    if IsLegacy(name, prefix) {
      out := Insert(mtime, names, name);
    }
  }

  /** The list names each element of the set, once. */
  ghost predicate IsListOf(names: seq<string>, all: set<string>) {
    |names| == |all| && forall name :: name in names <==> name in all
  }

  function Legacy(names: set<string>, prefix: string): set<string> {
    set name | name in names && IsLegacy(name, prefix)
  }

  /** The legacy videos of a date: its prefix, a token, and .mp4, where the token is no number. */
  lemma LegacyIsExact(names: set<string>, prefix: string, name: string)
    ensures name in Legacy(names, prefix) <==> name in names && exists token :: IsTokenName(name, prefix, token)
  {
    if IsLegacy(name, prefix) {
      var rest := name[|prefix|..];
      var token := rest[..|rest| - 4];
      assert rest == token + MP4 && name == prefix + rest;
      assert IsTokenName(name, prefix, token);
    }
    if token :| IsTokenName(name, prefix, token) {
      assert name == prefix + (token + MP4);
      assert name[..|prefix|] == prefix && name[|prefix|..] == token + MP4;
      assert (token + MP4)[|token|..] == MP4 && (token + MP4)[..|token|] == token;
    }
  }

  predicate IsTokenName(name: string, prefix: string, token: string) {
    name == prefix + token + ".mp4" && (token == "" || exists c | c in token :: !('0' <= c <= '9'))
  }

  lemma LegacyGrows(names: set<string>, name: string, prefix: string)
    requires name !in names
    ensures name !in Legacy(names, prefix)
    ensures Legacy(names + {name}, prefix) == Legacy(names, prefix) + if IsLegacy(name, prefix) then {name} else {}
  {
  }

  predicate IsNewest(mtime: map<string, int>, all: set<string>, name: string) {
    name in all && forall other | other in all :: other == name || Before(mtime, other, name)
  }

  /** No other is younger; among those of the same age its name comes last. Files without a time count as oldest. */
  lemma NewestIsExact(mtime: map<string, int>, all: set<string>, name: string)
    ensures IsNewest(mtime, all, name) <==>
      && name in all
      && forall other | other in all && other != name ::
           var a, b := if other in mtime then mtime[other] else 0, if name in mtime then mtime[name] else 0;
           a < b || (a == b && exists i :: IsLessAt(other, name, i))
  {
    forall other ensures Less(other, name) <==> exists i :: IsLessAt(other, name, i) {
      LessIsExact(other, name);
    }
  }

  lemma LastIsNewest(mtime: map<string, int>, names: seq<string>, all: set<string>)
    requires Sorted(mtime, names) && IsListOf(names, all) && names != []
    ensures IsNewest(mtime, all, names[|names| - 1])
  {
    var last := |names| - 1;
    assert names[last] in names;
    forall other | other in all ensures other == names[last] || Before(mtime, other, names[last]) {
      assert other in names;
      var i :| 0 <= i < |names| && names[i] == other;
    }
  }

  lemma EmptyList(names: seq<string>, all: set<string>)
    requires IsListOf(names, all)
    ensures names == [] <==> all == {}
  {
    if names != [] {
      assert names[0] in names;
    }
  }

  /** The newest legacy video; None if there is none. */
  predicate IsNewestLegacy(names: set<string>, mtime: map<string, int>, prefix: string, newest: Option<string>) {
    if newest.None? then Legacy(names, prefix) == {} else IsNewest(mtime, Legacy(names, prefix), newest.value)
  }

  /** The legacy video a sync adopts. */
  method NewestLegacy(names: set<string>, mtime: map<string, int>, prefix: string) returns (newest: Option<string>)
    ensures IsNewestLegacy(names, mtime, prefix, newest)
    ensures newest.Some? ==> newest.value in names
  {
    var legacy := LegacyVideos(names, mtime, prefix);
    EmptyList(legacy, Legacy(names, prefix));
    if |legacy| == 0 {
      return None;
    }
    LastIsNewest(mtime, legacy, Legacy(names, prefix));
    return Some(legacy[|legacy| - 1]);
  }
}
