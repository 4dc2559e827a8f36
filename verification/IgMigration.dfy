/** The rename of an Instagram account's videos to media-id names: what it keeps, and why it is done once. */
module IgMigration {
  import opened Basics
  import opened Text
  import opened IgFiles

  datatype Blob = Blob(id: int)

  /** A file is in the account folder or has been moved to the duplicates folder. */
  datatype Place = Kept(name: string) | Aside(name: string)

  type Disk = map<Place, Blob>

  /** The base name of a url's path; None when it does not parse or has no path. */
  type UrlBase = string -> Option<string>

  /** A stored post; `videos` are the urls of its video rows. */
  datatype Post = Post(prefix: Stamp, externalID: string, videos: seq<string>)

  function Names(disk: Disk): set<string> {
    set p | p in disk && p.Kept? :: p.name
  }

  function Want(p: Post): string {
    p.prefix + p.externalID + MP4
  }

  function CanonicalUrl(p: Post): string {
    p.externalID + MP4
  }

  // ---------------------------------------------------------------- which file a row means

  function Matches(base: UrlBase, files: set<string>, prefix: string, url: string): set<string> {
    match base(url)
    case None => {}
    case Some(b) => if prefix + b in files then {prefix + b} else set n | n in files && Contains(n, b)
  }

  function MatchesOf(base: UrlBase, files: set<string>, p: Post, i: nat): set<string>
    requires i < |p.videos|
  {
    Matches(base, files, p.prefix, p.videos[i])
  }

  /** A row means the file named by its date and its url, if that is there, and otherwise all whose names contain it. */
  lemma MatchesAreExact(base: UrlBase, files: set<string>, p: Post, i: nat, name: string)
    requires i < |p.videos|
    ensures name in MatchesOf(base, files, p, i) <==>
      && base(p.videos[i]).Some? && name in files
      && var b := base(p.videos[i]).value;
         name == p.prefix + b || (p.prefix + b !in files && Contains(name, b))
  {
  }

  predicate AllMissing(base: UrlBase, files: set<string>, p: Post) {
    forall i | 0 <= i < |p.videos| :: MatchesOf(base, files, p, i) == {}
  }

  predicate Resolves(base: UrlBase, files: set<string>, p: Post, i: nat, name: Option<string>)
    requires i < |p.videos|
  {
    if name.Some? then name.value in MatchesOf(base, files, p, i) else MatchesOf(base, files, p, i) == {}
  }

  /** igMediaFile: when several files contain the base name, any of them. */
  method MediaFile(base: UrlBase, files: set<string>, prefix: string, url: string) returns (name: Option<string>)
    ensures name.Some? ==> name.value in Matches(base, files, prefix, url)
    ensures name.None? ==> Matches(base, files, prefix, url) == {}
  {
    match base(url)
    case None =>
      return None;
    case Some(b) =>
      if prefix + b in files {
        return Some(prefix + b);
      }
      var found := set n | n in files && Contains(n, b);
      if found == {} {
        return None;
      }
      var n :| n in found;
      return Some(n);
  }

  method ResolveAll(base: UrlBase, files: set<string>, p: Post)
    returns (resolved: seq<Option<string>>, allMissing: bool)
    ensures |resolved| == |p.videos|
    ensures forall i | 0 <= i < |resolved| :: Resolves(base, files, p, i, resolved[i])
    ensures allMissing <==> AllMissing(base, files, p)
  {
    resolved, allMissing := [], true;
    var i := 0;
    while i < |p.videos|
      invariant i <= |p.videos| && |resolved| == i
      invariant forall j | 0 <= j < i :: Resolves(base, files, p, j, resolved[j])
      invariant allMissing <==> forall j | 0 <= j < i :: MatchesOf(base, files, p, j) == {}
    {
      var name := MediaFile(base, files, p.prefix, p.videos[i]);
      assert name.None? <==> MatchesOf(base, files, p, i) == {};
      resolved := resolved + [name];
      allMissing := allMissing && name.None?;
      i := i + 1;
    }
  }

  predicate NoneNamed(names: seq<Option<string>>) {
    forall i | 0 <= i < |names| :: names[i].None?
  }

  predicate AllNamed(names: seq<Option<string>>, all: set<string>) {
    forall i | 0 <= i < |names| :: names[i].Some? && names[i].value in all
  }

  /** Legacy videos that cannot be paired with the rows of a post. */
  ghost predicate NoPairs(files: set<string>, p: Post) {
    && (|p.videos| == 1 ==> Legacy(files, p.prefix) == {})
    && (|p.videos| > 1 ==> |Legacy(files, p.prefix)| != |p.videos|)
  }

  /** Rows without a file are paired with the post's legacy videos, when nothing else can be meant. */
  ghost predicate IsPairing(files: set<string>, p: Post, paired: seq<Option<string>>) {
    && |paired| == |p.videos|
    && if NoPairs(files, p) then NoneNamed(paired) else AllNamed(paired, Legacy(files, p.prefix))
  }

  /** The newest legacy video for a lone row, one each when the counts match, nothing otherwise. */
  function Picked(legacy: seq<string>, rows: nat): (names: seq<Option<string>>)
    ensures |names| == rows
  {
    if rows == 1 && legacy != [] then [Some(legacy[|legacy| - 1])]
    else if rows == |legacy| then seq(rows, i requires 0 <= i < rows => Some(legacy[i]))
    else seq(rows, i => None)
  }

  lemma PickedFits(legacy: seq<string>, all: set<string>, rows: nat)
    requires IsListOf(legacy, all)
    ensures
      if (rows == 1 ==> all == {}) && (rows > 1 ==> |all| != rows) then NoneNamed(Picked(legacy, rows))
      else AllNamed(Picked(legacy, rows), all)
  {
    if rows == 1 && legacy != [] {
      assert legacy[|legacy| - 1] in legacy;
    } else if rows == |legacy| {
      assert forall i | 0 <= i < |legacy| :: legacy[i] in legacy;
    } else if rows == 1 && all != {} {
      assert |all| == 0;
    }
  }

  lemma PickedIsPairing(files: set<string>, p: Post, legacy: seq<string>)
    requires IsListOf(legacy, Legacy(files, p.prefix))
    ensures IsPairing(files, p, Picked(legacy, |p.videos|))
  {
    PickedFits(legacy, Legacy(files, p.prefix), |p.videos|);
  }

  /** The newest for a lone row, one each in the order of age when the counts match, and nothing otherwise. */
  predicate IsBestPairing(files: set<string>, mtime: map<string, int>, p: Post, legacy: seq<string>,
                          paired: seq<Option<string>>)
  {
    && |paired| == |p.videos|
    && if |p.videos| == 1 && legacy != [] then
         paired[0].Some? && IsNewest(mtime, Legacy(files, p.prefix), paired[0].value)
       else if |p.videos| == |legacy| then forall i | 0 <= i < |p.videos| :: paired[i] == Some(legacy[i])
       else forall i | 0 <= i < |p.videos| :: paired[i].None?
  }

  lemma PickedIsBest(files: set<string>, mtime: map<string, int>, p: Post, legacy: seq<string>)
    requires Sorted(mtime, legacy) && IsListOf(legacy, Legacy(files, p.prefix))
    ensures IsBestPairing(files, mtime, p, legacy, Picked(legacy, |p.videos|))
  {
    if legacy != [] {
      LastIsNewest(mtime, legacy, Legacy(files, p.prefix));
    }
  }

  method PairUp(files: set<string>, mtime: map<string, int>, p: Post)
    returns (paired: seq<Option<string>>, ghost legacy: seq<string>)
    ensures Sorted(mtime, legacy) && IsListOf(legacy, Legacy(files, p.prefix))
    ensures paired == Picked(legacy, |p.videos|) && IsPairing(files, p, paired)
    ensures IsBestPairing(files, mtime, p, legacy, paired)
  {
    var found := LegacyVideos(files, mtime, p.prefix);
    PickedIsPairing(files, p, found);
    PickedIsBest(files, mtime, p, found);
    legacy := found;
    if |p.videos| == 1 && |found| > 0 {
      paired := [Some(found[|found| - 1])];
    } else if |p.videos| > 1 && |found| == |p.videos| {
      paired := seq(|found|, i requires 0 <= i < |found| => Some(found[i]));
    } else {
      paired := seq(|p.videos|, i => None);
    }
  }

  // ---------------------------------------------------------------- one post

  function Somes(names: seq<Option<string>>): set<string> {
    set i | 0 <= i < |names| && names[i].Some? :: names[i].value
  }

  /** A lone video that is not under its name yet, and whose name is free. */
  predicate Renames(files: set<string>, p: Post, name: string) {
    |p.videos| == 1 && name != Want(p) && Want(p) !in files
  }

  predicate IsRenamed(files: set<string>, p: Post, names: seq<Option<string>>)
    requires |names| == |p.videos|
  {
    |p.videos| == 1 && names[0].Some? && Renames(files, p, names[0].value)
  }

  /** A lone video that has a file, by its url or else a legacy one, and whose own name is free. */
  predicate WillRename(base: UrlBase, files: set<string>, p: Post) {
    && |p.videos| == 1 && Want(p) !in files
    && (MatchesOf(base, files, p, 0) != {} || Legacy(files, p.prefix) != {})
  }

  /** Its file is renamed, and its row needs no new url: nothing is counted. */
  predicate IsSilent(base: UrlBase, files: set<string>, p: Post) {
    WillRename(base, files, p) && p.videos[0] == CanonicalUrl(p)
  }

  predicate SomeRename(base: UrlBase, files: set<string>, posts: seq<Post>, n: nat)
    requires n <= |posts|
  {
    exists j | 0 <= j < n :: WillRename(base, files, posts[j])
  }

  predicate SomeSilent(base: UrlBase, files: set<string>, posts: seq<Post>, n: nat)
    requires n <= |posts|
  {
    exists j | 0 <= j < n :: IsSilent(base, files, posts[j])
  }

  function FilesAfter(files: set<string>, p: Post, names: seq<Option<string>>): set<string>
    requires |names| == |p.videos|
  {
    if IsRenamed(files, p, names) then files - {names[0].value} + {Want(p)} else files
  }

  function UrlAfter(files: set<string>, p: Post, names: seq<Option<string>>, allMissing: bool, i: nat): string
    requires i < |names| == |p.videos|
  {
    if IsRenamed(files, p, names) then CanonicalUrl(p)
    else if allMissing && names[i].Some? && |names[i].value| > DATE_LEN then names[i].value[DATE_LEN..]
    else p.videos[i]
  }

  /** The url a row is left with when every rename works: the media id, the file's name without its date, or its own. */
  lemma UrlAfterIsExact(files: set<string>, p: Post, names: seq<Option<string>>, allMissing: bool, i: nat)
    requires i < |names| == |p.videos| && (allMissing && names[i].Some? ==> |names[i].value| > 20)
    ensures
      var url, want := UrlAfter(files, p, names, allMissing, i), p.prefix + (p.externalID + ".mp4");
      if names[i].Some? && |p.videos| == 1 && names[i].value != want && want !in files then p.prefix + url == want
      else if names[i].Some? && allMissing then names[i].value == names[i].value[..20] + url
      else url == p.videos[i]
  {
    assert Want(p) == p.prefix + (p.externalID + ".mp4");
  }

  function PostAfter(files: set<string>, p: Post, names: seq<Option<string>>, allMissing: bool): Post
    requires |names| == |p.videos|
  {
    p.(videos := seq(|p.videos|, i requires 0 <= i < |p.videos| => UrlAfter(files, p, names, allMissing, i)))
  }

  function RefsAfter(files: set<string>, p: Post, names: seq<Option<string>>): set<string>
    requires |names| == |p.videos|
  {
    if IsRenamed(files, p, names) then {Want(p)} else Somes(names)
  }

  /** The files a post's rows are about, as migrateIgAccount finds them. */
  ghost predicate AreNames(base: UrlBase, files: set<string>, p: Post, names: seq<Option<string>>) {
    && |names| == |p.videos|
    && if AllMissing(base, files, p) then IsPairing(files, p, names)
       else forall i | 0 <= i < |names| :: Resolves(base, files, p, i, names[i])
  }

  lemma NamesAreFiles(base: UrlBase, files: set<string>, p: Post, names: seq<Option<string>>, i: nat)
    requires AreNames(base, files, p, names) && i < |names| && names[i].Some?
    ensures names[i].value in files
    ensures AllMissing(base, files, p) ==> |names[i].value| > DATE_LEN
  {
    if AllMissing(base, files, p) {
      LegacyName(names[i].value, p.prefix);
    } else {
      assert Resolves(base, files, p, i, names[i]);
    }
  }

  /** Whether a post's file is renamed does not depend on which of its matches is taken. */
  lemma RenameIsDecided(base: UrlBase, files: set<string>, p: Post, names: seq<Option<string>>)
    requires AreNames(base, files, p, names)
    ensures IsRenamed(files, p, names) <==> WillRename(base, files, p)
  {
    if |p.videos| == 1 && Want(p) !in files {
      if names[0].Some? {
        NamesAreFiles(base, files, p, names, 0);
      }
      if AllMissing(base, files, p) {
        assert MatchesOf(base, files, p, 0) == {};
      } else {
        assert Resolves(base, files, p, 0, names[0]);
      }
    }
  }

  /** What one post comes to: its lone video renamed, or no file touched. */
  predicate IsStep(files: set<string>, p: Post, names: seq<Option<string>>, files': set<string>, refs: set<string>)
    requires |names| == |p.videos|
  {
    (files' == files && refs == Somes(names))
    || (IsRenamed(files, p, names) && files' == FilesAfter(files, p, names) && refs == RefsAfter(files, p, names))
  }

  /** The same after the first `n` rows; `exact` when every rename works. */
  predicate AreRowsDone(files: set<string>, p: Post, names: seq<Option<string>>, n: nat, files': set<string>,
                        refs: set<string>, exact: bool)
    requires n <= |names| == |p.videos|
  {
    if n > 0 && IsRenamed(files, p, names) then
      if exact then files' == FilesAfter(files, p, names) && refs == RefsAfter(files, p, names)
      else IsStep(files, p, names, files', refs)
    else files' == files && refs == Somes(names[..n])
  }

  lemma OneRowMore(files: set<string>, p: Post, names: seq<Option<string>>, n: nat, files': set<string>,
                   refs: set<string>, exact: bool)
    requires n < |names| == |p.videos| && AreRowsDone(files, p, names, n, files', refs, exact)
    ensures n == 0 || !IsRenamed(files, p, names)
    ensures files' == files && refs == Somes(names[..n])
    ensures Somes(names[..n + 1]) == refs + if names[n].Some? then {names[n].value} else {}
  {
    assert names[..n + 1] == names[..n] + [names[n]];
    var before, after := Somes(names[..n]), Somes(names[..n + 1]);
    assert forall i | 0 <= i < n :: names[..n + 1][i] == names[..n][i];
    assert names[..n + 1][n] == names[n];
    assert forall r | r in after :: r in before || names[n] == Some(r);
    assert before <= after;
  }

  /** What one row comes to; `exact` when every rename works. */
  predicate IsRow(files: set<string>, p: Post, name: string, files': set<string>, ref: string, exact: bool) {
    || (Renames(files, p, name) && files' == files - {name} + {Want(p)} && ref == Want(p))
    || (files' == files && ref == name && !(exact && Renames(files, p, name)))
  }

  lemma RowAdvances(files: set<string>, p: Post, names: seq<Option<string>>, n: nat, refs: set<string>,
                    files': set<string>, ref: string, exact: bool)
    requires n < |names| == |p.videos| && AreRowsDone(files, p, names, n, files, refs, exact) && names[n].Some?
    requires n == 0 || !IsRenamed(files, p, names)
    requires IsRow(files, p, names[n].value, files', ref, exact)
    ensures AreRowsDone(files, p, names, n + 1, files', refs + {ref}, exact)
  {
    OneRowMore(files, p, names, n, files, refs, exact);
    if n == 0 {
      assert names[..0] == [];
      assert |names| == 1 ==> names[..1] == names;
    }
  }

  lemma RenamedRow(files: set<string>, p: Post, former: string, name: string, allMissing: bool)
    requires name in files
    ensures
      var renamed := files - {name} + {Want(p)};
      Renames(files, p, name) ==>
        renamed != files && RowUrl(files, p, Some(name), allMissing, former, renamed) == CanonicalUrl(p) != ""
  {
    if Renames(files, p, name) {
      assert Want(p) in files - {name} + {Want(p)};
    }
  }

  lemma RowIsSkipped(files: set<string>, p: Post, names: seq<Option<string>>, n: nat, refs: set<string>, exact: bool)
    requires n < |names| == |p.videos| && AreRowsDone(files, p, names, n, files, refs, exact) && names[n].None?
    ensures AreRowsDone(files, p, names, n + 1, files, refs, exact)
  {
    OneRowMore(files, p, names, n, files, refs, exact);
  }

  /** The url one row is left with, when the files are `files'` after it: a rename that failed leaves the old one. */
  function RowUrl(files: set<string>, p: Post, name: Option<string>, allMissing: bool, former: string,
                  files': set<string>): string
  {
    if name.None? then former
    else if files' != files then CanonicalUrl(p)
    else if Renames(files, p, name.value) then former
    else if allMissing && |name.value| > DATE_LEN then name.value[DATE_LEN..]
    else former
  }

  /** The urls after the first `n` rows, with `files'` left. */
  predicate AreUrlsDone(files: set<string>, p: Post, names: seq<Option<string>>, allMissing: bool, n: nat,
                        videos: seq<string>, files': set<string>)
    requires n <= |names| == |p.videos|
  {
    && |videos| == |p.videos|
    && (forall j | n <= j < |videos| :: videos[j] == p.videos[j])
    && (forall j | 0 <= j < n :: videos[j] == RowUrl(files, p, names[j], allMissing, p.videos[j], files'))
  }

  lemma UrlsAdvance(files: set<string>, p: Post, names: seq<Option<string>>, allMissing: bool, n: nat,
                    videos: seq<string>, videos': seq<string>, files': set<string>)
    requires n < |names| == |p.videos| && AreUrlsDone(files, p, names, allMissing, n, videos, files)
    requires n == 0 || files' == files
    requires |videos'| == |videos| && videos' == videos[n := videos'[n]]
    requires videos'[n] == RowUrl(files, p, names[n], allMissing, p.videos[n], files')
    ensures AreUrlsDone(files, p, names, allMissing, n + 1, videos', files')
  {
  }

  lemma UrlsDiffer(p: Post, n: nat, videos: seq<string>, videos': seq<string>)
    requires n < |p.videos| == |videos| == |videos'| && videos' == videos[n := videos'[n]]
    requires videos[n] == p.videos[n]
    ensures videos != p.videos || videos'[n] != p.videos[n] ==> videos' != p.videos
  {
    if videos != p.videos {
      var j :| 0 <= j < |videos| && videos[j] != p.videos[j];
      assert videos'[j] == videos[j];
    }
  }

  // ---------------------------------------------------------------- what the library must be like

  /** The names a file may ever have in the account folder. */
  function Universe(files: set<string>, posts: seq<Post>): set<string> {
    files + set k | 0 <= k < |posts| :: Want(posts[k])
  }

  predicate OnePostPerSecond(posts: seq<Post>) {
    forall j, k | 0 <= j < k < |posts| :: posts[j].prefix != posts[k].prefix
  }

  predicate IsNumeric(id: string) {
    id != "" && AllDigits(id)
  }

  /** A base name is contained in the names of files of its own post's date only, and in one of them at most. */
  predicate IsLocal(base: UrlBase, all: set<string>, p: Post, url: string) {
    base(url).Some? ==>
      && (forall n | n in all && Contains(n, base(url).value) :: HasPrefix(n, p.prefix))
      && (forall m, n | m in all && n in all && Contains(m, base(url).value) && Contains(n, base(url).value) :: m == n)
  }

  /** A name stored as a url has itself as base name. */
  predicate ArePlain(base: UrlBase, all: set<string>) {
    forall n | n in all && |n| >= DATE_LEN && HasSuffix(n, MP4) :: base(n[DATE_LEN..]) == Some(n[DATE_LEN..])
  }

  predicate IsTidy(base: UrlBase, all: set<string>, p: Post) {
    IsNumeric(p.externalID) && forall i | 0 <= i < |p.videos| :: IsLocal(base, all, p, p.videos[i])
  }

  predicate AreTidy(base: UrlBase, all: set<string>, posts: seq<Post>) {
    OnePostPerSecond(posts) && ArePlain(base, all) && forall k | 0 <= k < |posts| :: IsTidy(base, all, posts[k])
  }

  // ---------------------------------------------------------------- a post that is done

  predicate AtMostOne(names: set<string>) {
    forall m, n | m in names && n in names :: m == n
  }

  /** No row of the post asks for anything, and `refs` is what its rows mean. */
  ghost predicate IsDone(base: UrlBase, files: set<string>, p: Post, refs: set<string>) {
    && (forall i | 0 <= i < |p.videos| ::
          MatchesOf(base, files, p, i) <= refs && AtMostOne(MatchesOf(base, files, p, i)))
    && (forall r | r in refs :: exists i | 0 <= i < |p.videos| :: r in MatchesOf(base, files, p, i))
    && (refs != {} && |p.videos| == 1 ==> Want(p) in files)
    && (refs == {} ==> NoPairs(files, p))
  }

  /** A row's meaning depends only on the files of its own date. */
  predicate IsPinned(base: UrlBase, all: set<string>, files: set<string>, p: Post, i: nat)
    requires i < |p.videos|
  {
    base(p.videos[i]).Some? ==>
      p.prefix + base(p.videos[i]).value in files || IsLocal(base, all, p, p.videos[i])
  }

  predicate AllPinned(base: UrlBase, all: set<string>, files: set<string>, p: Post) {
    forall i | 0 <= i < |p.videos| :: IsPinned(base, all, files, p, i)
  }

  /** Done, and staying so whatever happens to files of other dates. */
  ghost predicate IsDoneIn(base: UrlBase, all: set<string>, files: set<string>, p: Post, refs: set<string>) {
    IsDone(base, files, p, refs) && AllPinned(base, all, files, p)
  }

  /** What the rows of a post mean is among `refs`, and stays so whatever happens to files of other dates. */
  ghost predicate IsMeantIn(base: UrlBase, all: set<string>, files: set<string>, p: Post, refs: set<string>) {
    AreMeant(base, files, p, refs) && AllPinned(base, all, files, p)
  }

  predicate AreMeant(base: UrlBase, files: set<string>, p: Post, refs: set<string>) {
    forall i | 0 <= i < |p.videos| :: MatchesOf(base, files, p, i) <= refs
  }

  predicate Agree(a: set<string>, b: set<string>, prefix: string) {
    forall n | HasPrefix(n, prefix) && n in a + b :: n in a && n in b
  }

  lemma ContainsItself(prefix: string, b: string)
    ensures Contains(prefix + b, b)
  {
    assert OccursAt(prefix + b, |prefix|, b);
  }

  lemma LocalMatches(base: UrlBase, all: set<string>, files: set<string>, p: Post, i: nat)
    requires files <= all && i < |p.videos| && IsLocal(base, all, p, p.videos[i])
    ensures AtMostOne(MatchesOf(base, files, p, i)) && MatchesOf(base, files, p, i) <= files
    ensures forall n | n in MatchesOf(base, files, p, i) :: HasPrefix(n, p.prefix)
  {
    if base(p.videos[i]).Some? {
      ContainsItself(p.prefix, base(p.videos[i]).value);
    }
  }

  lemma SameMatches(base: UrlBase, all: set<string>, files: set<string>, files': set<string>, p: Post, i: nat)
    requires files <= all && files' <= all && Agree(files, files', p.prefix)
    requires i < |p.videos| && IsPinned(base, all, files, p, i)
    ensures MatchesOf(base, files', p, i) == MatchesOf(base, files, p, i) && IsPinned(base, all, files', p, i)
  {
    if base(p.videos[i]).Some? {
      var b := base(p.videos[i]).value;
      assert HasPrefix(p.prefix + b, p.prefix);
      if p.prefix + b !in files {
        var here, there := set n | n in files && Contains(n, b), set n | n in files' && Contains(n, b);
        assert here == there;
      }
    }
  }

  lemma SameLegacy(files: set<string>, files': set<string>, prefix: string)
    requires Agree(files, files', prefix)
    ensures Legacy(files, prefix) == Legacy(files', prefix)
  {
  }

  /** What happens to files of other dates leaves a done post done. */
  lemma StaysDone(base: UrlBase, all: set<string>, files: set<string>, files': set<string>, p: Post, refs: set<string>)
    requires files <= all && files' <= all && Agree(files, files', p.prefix)
    requires IsDoneIn(base, all, files, p, refs)
    ensures IsDoneIn(base, all, files', p, refs)
  {
    forall i | 0 <= i < |p.videos|
      ensures MatchesOf(base, files', p, i) == MatchesOf(base, files, p, i) && IsPinned(base, all, files', p, i)
    {
      assert IsPinned(base, all, files, p, i);
      SameMatches(base, all, files, files', p, i);
    }
    SameLegacy(files, files', p.prefix);
    assert HasPrefix(Want(p), p.prefix) by { assert Want(p) == p.prefix + (p.externalID + MP4); }
  }

  lemma StaysMeant(base: UrlBase, all: set<string>, files: set<string>, files': set<string>, p: Post, refs: set<string>)
    requires files <= all && files' <= all && Agree(files, files', p.prefix)
    requires IsMeantIn(base, all, files, p, refs)
    ensures IsMeantIn(base, all, files', p, refs)
  {
    forall i | 0 <= i < |p.videos|
      ensures MatchesOf(base, files', p, i) <= refs && IsPinned(base, all, files', p, i)
    {
      assert IsPinned(base, all, files, p, i) && MatchesOf(base, files, p, i) <= refs;
      SameMatches(base, all, files, files', p, i);
    }
  }

  // ---------------------------------------------------------------- one post leaves itself done

  lemma WantIsCanonical(p: Post)
    requires IsNumeric(p.externalID)
    ensures HasPrefix(Want(p), p.prefix) && Want(p)[DATE_LEN..] == CanonicalUrl(p)
    ensures p.prefix + CanonicalUrl(p) == Want(p) && HasSuffix(Want(p), MP4) && !IsLegacy(Want(p), p.prefix)
  {
    assert Want(p) == p.prefix + CanonicalUrl(p);
    assert CanonicalUrl(p)[..|p.externalID|] == p.externalID;
    assert IsIdName(CanonicalUrl(p));
  }

  /** A row that holds a file's own name means that file. */
  lemma ExactMatch(base: UrlBase, all: set<string>, files: set<string>, p: Post, i: nat, name: string)
    requires ArePlain(base, all) && files <= all && name in files && HasPrefix(name, p.prefix) && HasSuffix(name, MP4)
    requires i < |p.videos| && p.videos[i] == name[DATE_LEN..]
    ensures MatchesOf(base, files, p, i) == {name} && IsPinned(base, all, files, p, i)
  {
    assert p.prefix + name[DATE_LEN..] == name;
  }

  lemma RenamedIsDone(base: UrlBase, all: set<string>, files: set<string>, p: Post, names: seq<Option<string>>,
                      allMissing: bool)
    requires files <= all && Want(p) in all && ArePlain(base, all) && IsNumeric(p.externalID)
    requires |names| == |p.videos| && IsRenamed(files, p, names)
    ensures
      var files', p' := FilesAfter(files, p, names), PostAfter(files, p, names, allMissing);
      IsDoneIn(base, all, files', p', RefsAfter(files, p, names))
  {
    WantIsCanonical(p);
    ExactMatch(base, all, FilesAfter(files, p, names), PostAfter(files, p, names, allMissing), 0, Want(p));
  }

  function OneOf(name: Option<string>): set<string> {
    if name.Some? then {name.value} else {}
  }

  /** Each row means the file named for it, and no other. */
  predicate Means(base: UrlBase, files: set<string>, p: Post, names: seq<Option<string>>) {
    |names| == |p.videos| && forall i | 0 <= i < |names| :: MatchesOf(base, files, p, i) == OneOf(names[i])
  }

  lemma SomesHold(names: seq<Option<string>>)
    ensures forall i | 0 <= i < |names| :: OneOf(names[i]) <= Somes(names)
    ensures forall r | r in Somes(names) :: exists i | 0 <= i < |names| :: r in OneOf(names[i])
    ensures Somes(names) == {} <==> NoneNamed(names)
  {
    forall r | r in Somes(names) ensures exists i | 0 <= i < |names| :: r in OneOf(names[i]) {
      var i :| 0 <= i < |names| && names[i].Some? && names[i].value == r;
      assert r in OneOf(names[i]);
    }
    forall i | 0 <= i < |names| ensures OneOf(names[i]) <= Somes(names) {
      if names[i].Some? {
        assert names[i].value in Somes(names);
      }
    }
    if Somes(names) == {} {
      forall i | 0 <= i < |names| ensures names[i].None? {
        assert names[i].Some? ==> names[i].value in OneOf(names[i]);
      }
    }
  }

  lemma MeansIsDone(base: UrlBase, files: set<string>, p: Post, names: seq<Option<string>>)
    requires Means(base, files, p, names)
    requires |p.videos| == 1 ==> names[0].None? || Want(p) in files
    requires NoneNamed(names) ==> NoPairs(files, p)
    ensures IsDone(base, files, p, Somes(names))
  {
    SomesHold(names);
    forall r | r in Somes(names) ensures exists i | 0 <= i < |p.videos| :: r in MatchesOf(base, files, p, i) {
      var i :| 0 <= i < |names| && r in OneOf(names[i]);
      assert r in MatchesOf(base, files, p, i);
    }
  }

  lemma DoneMeans(base: UrlBase, files: set<string>, p: Post, refs: set<string>, names: seq<Option<string>>)
    requires IsDone(base, files, p, refs) && Means(base, files, p, names)
    ensures Somes(names) == refs
  {
    SomesHold(names);
    forall r | r in refs ensures r in Somes(names) {
      var i :| 0 <= i < |p.videos| && r in MatchesOf(base, files, p, i);
      assert r in OneOf(names[i]);
    }
    forall r | r in Somes(names) ensures r in refs {
      var i :| 0 <= i < |names| && r in OneOf(names[i]);
      assert r in MatchesOf(base, files, p, i);
    }
  }

  lemma ResolvedMeans(base: UrlBase, files: set<string>, p: Post, names: seq<Option<string>>)
    requires |names| == |p.videos|
    requires forall i | 0 <= i < |names| :: Resolves(base, files, p, i, names[i])
    requires forall i | 0 <= i < |names| :: AtMostOne(MatchesOf(base, files, p, i))
    ensures Means(base, files, p, names)
    ensures !AllMissing(base, files, p) ==> !NoneNamed(names)
  {
    forall i | 0 <= i < |names| ensures MatchesOf(base, files, p, i) == OneOf(names[i]) {
      assert Resolves(base, files, p, i, names[i]);
    }
    if !AllMissing(base, files, p) {
      var k :| 0 <= k < |p.videos| && MatchesOf(base, files, p, k) != {};
      assert names[k].Some?;
    }
  }

  lemma ResolvedIsDone(base: UrlBase, all: set<string>, files: set<string>, p: Post, names: seq<Option<string>>)
    requires files <= all && IsTidy(base, all, p) && |names| == |p.videos|
    requires forall i | 0 <= i < |names| :: Resolves(base, files, p, i, names[i])
    requires !AllMissing(base, files, p) && !IsRenamed(files, p, names)
    ensures PostAfter(files, p, names, false) == p
    ensures IsDoneIn(base, all, files, p, Somes(names))
  {
    forall i | 0 <= i < |names| ensures AtMostOne(MatchesOf(base, files, p, i)) && IsPinned(base, all, files, p, i) {
      LocalMatches(base, all, files, p, i);
    }
    ResolvedMeans(base, files, p, names);
    if |p.videos| == 1 {
      LocalMatches(base, all, files, p, 0);
    }
    MeansIsDone(base, files, p, names);
  }

  lemma PairedIsDone(base: UrlBase, all: set<string>, files: set<string>, p: Post, names: seq<Option<string>>)
    requires files <= all && ArePlain(base, all) && IsTidy(base, all, p)
    requires IsPairing(files, p, names) && AllMissing(base, files, p) && !IsRenamed(files, p, names)
    ensures
      var p' := PostAfter(files, p, names, true);
      IsDoneIn(base, all, files, p', Somes(names))
  {
    var p' := PostAfter(files, p, names, true);
    forall i | 0 <= i < |names|
      ensures MatchesOf(base, files, p', i) == OneOf(names[i]) && IsPinned(base, all, files, p', i)
    {
      PairedRow(base, all, files, p, names, i);
    }
    MeansIsDone(base, files, p', names);
  }

  lemma PairedRow(base: UrlBase, all: set<string>, files: set<string>, p: Post, names: seq<Option<string>>, i: nat)
    requires files <= all && ArePlain(base, all) && IsTidy(base, all, p) && i < |names|
    requires IsPairing(files, p, names) && AllMissing(base, files, p) && !IsRenamed(files, p, names)
    ensures
      var p' := PostAfter(files, p, names, true);
      MatchesOf(base, files, p', i) == OneOf(names[i]) && IsPinned(base, all, files, p', i)
  {
    if names[i].Some? {
      LegacyName(names[i].value, p.prefix);
      ExactMatch(base, all, files, PostAfter(files, p, names, true), i, names[i].value);
    } else {
      assert MatchesOf(base, files, p, i) == {};
    }
  }

  lemma LegacyName(name: string, prefix: Stamp)
    requires IsLegacy(name, prefix)
    ensures |name| > DATE_LEN && HasSuffix(name, MP4) && name[..DATE_LEN] == prefix
  {
    var rest := name[|prefix|..];
    assert name == prefix + rest;
    assert rest[|rest| - |MP4|..] == name[|name| - |MP4|..];
  }

  /** The files of the post that may change are those of its date, and what its rows mean is among them. */
  lemma PostIsLocal(base: UrlBase, all: set<string>, files: set<string>, p: Post, names: seq<Option<string>>)
    requires files <= all && IsTidy(base, all, p) && AreNames(base, files, p, names)
    ensures forall i | 0 <= i < |names| && names[i].Some? ::
              names[i].value in files && HasPrefix(names[i].value, p.prefix)
    ensures HasPrefix(Want(p), p.prefix)
  {
    WantIsCanonical(p);
    forall i | 0 <= i < |names| && names[i].Some?
      ensures names[i].value in files && HasPrefix(names[i].value, p.prefix)
    {
      if !AllMissing(base, files, p) {
        assert Resolves(base, files, p, i, names[i]);
        LocalMatches(base, all, files, p, i);
      }
    }
  }

  /** A done post stays as it is. */
  lemma DoneIsLeftAlone(base: UrlBase, files: set<string>, p: Post, refs: set<string>, names: seq<Option<string>>)
    requires IsDone(base, files, p, refs) && AreNames(base, files, p, names)
    ensures !IsRenamed(files, p, names) && Somes(names) == refs
    ensures PostAfter(files, p, names, AllMissing(base, files, p)) == p
  {
    if AllMissing(base, files, p) {
      NothingMeant(base, files, p, refs);
    } else {
      ResolvedMeans(base, files, p, names);
    }
    assert Means(base, files, p, names);
    DoneMeans(base, files, p, refs, names);
    SomesHold(names);
  }

  lemma NothingMeant(base: UrlBase, files: set<string>, p: Post, refs: set<string>)
    requires IsDone(base, files, p, refs) && AllMissing(base, files, p)
    ensures refs == {} && NoPairs(files, p)
  {
    assert forall i | 0 <= i < |p.videos| :: MatchesOf(base, files, p, i) == {};
  }

  predicate IsStart<T(==)>(part: seq<T>, whole: seq<T>, n: nat) {
    n <= |whole| && part == whole[..n] && (n == |whole| ==> part == whole)
  }

  /** One more post of a migrated library: nothing changes. */
  lemma DoneIsUntouched(base: UrlBase, files: set<string>, posts: seq<Post>, refs0: seq<set<string>>, k: nat,
                        names: seq<Option<string>>, refsOf: seq<set<string>>)
    requires k < |posts| == |refs0| && IsStart(refsOf, refs0, k)
    requires IsDone(base, files, posts[k], refs0[k]) && AreNames(base, files, posts[k], names)
    ensures FilesAfter(files, posts[k], names) == files
    ensures posts[k := PostAfter(files, posts[k], names, AllMissing(base, files, posts[k]))] == posts
    ensures IsStart(refsOf + [RefsAfter(files, posts[k], names)], refs0, k + 1)
  {
    DoneIsLeftAlone(base, files, posts[k], refs0[k], names);
    assert refs0[..k + 1] == refs0[..k] + [refs0[k]];
  }

  // ---------------------------------------------------------------- all posts, then the duplicates

  function Union(refsOf: seq<set<string>>): set<string> {
    set j, r | 0 <= j < |refsOf| && r in refsOf[j] :: r
  }

  function Dates(referenced: set<string>): set<string> {
    set r | r in referenced && |r| > DATE_LEN :: r[..DATE_LEN]
  }

  predicate IsDuplicate(name: string, referenced: set<string>) {
    && name !in referenced && |name| > DATE_LEN
    && name[..DATE_LEN] in Dates(referenced) && IsLegacy(name, name[..DATE_LEN])
  }

  /** A token-named video that nothing references, of the same date stamp as something referenced. */
  lemma DuplicateIsExact(name: string, referenced: set<string>)
    ensures IsDuplicate(name, referenced) <==>
      && name !in referenced && |name| > 20 && (exists token :: IsTokenName(name, name[..20], token))
      && exists r | r in referenced :: |r| > 20 && r[..20] == name[..20]
  {
    if |name| > DATE_LEN {
      LegacyIsExact({name}, name[..DATE_LEN], name);
      assert name in Legacy({name}, name[..DATE_LEN]) <==> IsLegacy(name, name[..DATE_LEN]);
    }
  }

  ghost function Duplicates(files: set<string>, referenced: set<string>): set<string> {
    set n | n in files && IsDuplicate(n, referenced)
  }

  /** What a post's rows mean is in the folder, under the post's date. */
  predicate IsHeld(files: set<string>, p: Post, refs: set<string>) {
    forall r | r in refs :: r in files && HasPrefix(r, p.prefix)
  }

  predicate AreHeld(files: set<string>, posts: seq<Post>, refsOf: seq<set<string>>) {
    |refsOf| <= |posts| && forall j | 0 <= j < |refsOf| :: IsHeld(files, posts[j], refsOf[j])
  }

  ghost predicate AreDone(base: UrlBase, all: set<string>, files: set<string>, posts: seq<Post>,
                          refsOf: seq<set<string>>)
  {
    && |refsOf| <= |posts|
    && forall j | 0 <= j < |refsOf| ::
         IsDoneIn(base, all, files, posts[j], refsOf[j])
  }

  /** A library the migration has nothing to do in. */
  ghost predicate IsMigrated(base: UrlBase, files: set<string>, posts: seq<Post>, refsOf: seq<set<string>>) {
    && |refsOf| == |posts|
    && (forall j | 0 <= j < |posts| :: IsDone(base, files, posts[j], refsOf[j]))
    && forall name | name in files :: !IsDuplicate(name, Union(refsOf))
  }

  /** Same posts, but for the urls of the first `n`. */
  predicate SameFrom(posts: seq<Post>, posts': seq<Post>, n: nat) {
    && |posts'| == |posts|
    && (forall j | 0 <= j < |posts| ::
          posts'[j].prefix == posts[j].prefix && posts'[j].externalID == posts[j].externalID)
    && forall j | n <= j < |posts| :: posts'[j] == posts[j]
  }

  lemma StampsDiffer(a: Stamp, b: Stamp, name: string)
    requires HasPrefix(name, a) && HasPrefix(name, b)
    ensures a == b
  {
  }

  lemma StepIsLocal(base: UrlBase, all: set<string>, files: set<string>, p: Post, names: seq<Option<string>>,
                    files': set<string>, refs: set<string>, other: Stamp)
    requires files <= all && Want(p) in all && IsTidy(base, all, p) && AreNames(base, files, p, names)
    requires IsStep(files, p, names, files', refs)
    ensures files' <= all
    ensures forall r | r in refs :: r in files' && HasPrefix(r, p.prefix)
    ensures other != p.prefix ==> Agree(files, files', other)
  {
    PostIsLocal(base, all, files, p, names);
    if other != p.prefix {
      forall n | HasPrefix(n, other) && n in files + files' ensures n in files && n in files' {
        if HasPrefix(n, p.prefix) {
          StampsDiffer(other, p.prefix, n);
        }
      }
    }
  }

  lemma StepIsDone(base: UrlBase, all: set<string>, files: set<string>, p: Post, names: seq<Option<string>>)
    requires files <= all && Want(p) in all && ArePlain(base, all) && IsTidy(base, all, p)
    requires AreNames(base, files, p, names)
    ensures
      var files', refs := FilesAfter(files, p, names), RefsAfter(files, p, names);
      var p' := PostAfter(files, p, names, AllMissing(base, files, p));
      IsDoneIn(base, all, files', p', refs)
  {
    if IsRenamed(files, p, names) {
      RenamedIsDone(base, all, files, p, names, AllMissing(base, files, p));
    } else if AllMissing(base, files, p) {
      PairedIsDone(base, all, files, p, names);
    } else {
      ResolvedIsDone(base, all, files, p, names);
    }
  }

  lemma UntouchedIsMeant(base: UrlBase, all: set<string>, files: set<string>, p: Post, names: seq<Option<string>>)
    requires files <= all && IsTidy(base, all, p) && AreNames(base, files, p, names)
    ensures IsMeantIn(base, all, files, p, Somes(names))
  {
    forall i | 0 <= i < |p.videos| ensures AtMostOne(MatchesOf(base, files, p, i)) && IsPinned(base, all, files, p, i) {
      LocalMatches(base, all, files, p, i);
    }
    if AllMissing(base, files, p) {
      assert forall i | 0 <= i < |p.videos| :: MatchesOf(base, files, p, i) == {};
    } else {
      ResolvedMeans(base, files, p, names);
      SomesHold(names);
    }
  }

  lemma PostIsAfter(files: set<string>, p: Post, names: seq<Option<string>>, allMissing: bool, p': Post)
    requires |names| == |p.videos| && p' == p.(videos := p'.videos)
    requires AreUrlsDone(files, p, names, allMissing, |names|, p'.videos, FilesAfter(files, p, names))
    ensures p' == PostAfter(files, p, names, allMissing)
  {
    forall j | 0 <= j < |names| ensures p'.videos[j] == UrlAfter(files, p, names, allMissing, j) {
      if IsRenamed(files, p, names) {
        assert Want(p) in FilesAfter(files, p, names);
      }
    }
    assert p'.videos == PostAfter(files, p, names, allMissing).videos;
  }

  lemma PostIsUntouched(files: set<string>, p: Post, names: seq<Option<string>>, allMissing: bool, p': Post)
    requires |names| == |p.videos| && p' == p.(videos := p'.videos) && IsRenamed(files, p, names)
    requires AreUrlsDone(files, p, names, allMissing, |names|, p'.videos, files)
    ensures p' == p
  {
    assert p'.videos == p.videos;
  }

  /** One post, also when its rename fails: what its rows mean now is among what they referenced. */
  lemma StepIsMeant(base: UrlBase, all: set<string>, files: set<string>, p: Post, names: seq<Option<string>>,
                    files': set<string>, refs: set<string>, p': Post)
    requires files <= all && Want(p) in all && ArePlain(base, all) && IsTidy(base, all, p)
    requires AreNames(base, files, p, names) && IsStep(files, p, names, files', refs)
    requires p' == p.(videos := p'.videos)
    requires AreUrlsDone(files, p, names, AllMissing(base, files, p), |names|, p'.videos, files')
    ensures IsMeantIn(base, all, files', p', refs)
  {
    if IsRenamed(files, p, names) && files' == files {
      PostIsUntouched(files, p, names, AllMissing(base, files, p), p');
      UntouchedIsMeant(base, all, files, p, names);
      RefsWithoutRename(files, p, names, refs);
    } else {
      PostIsAfter(files, p, names, AllMissing(base, files, p), p');
      StepIsDone(base, all, files, p, names);
      DoneIsMeant(base, all, files', p', refs);
    }
  }

  lemma RefsWithoutRename(files: set<string>, p: Post, names: seq<Option<string>>, refs: set<string>)
    requires |names| == |p.videos| && IsStep(files, p, names, files, refs)
    ensures refs == Somes(names)
  {
    if IsRenamed(files, p, names) {
      assert Want(p) in FilesAfter(files, p, names);
    }
  }

  lemma DoneIsMeant(base: UrlBase, all: set<string>, files: set<string>, p: Post, refs: set<string>)
    requires IsDoneIn(base, all, files, p, refs)
    ensures IsMeantIn(base, all, files, p, refs)
  {
  }

  /** One more post: the ones before it keep what their rows mean. */
  lemma NextPostHolds(base: UrlBase, all: set<string>, files: set<string>, posts0: seq<Post>, posts: seq<Post>,
                      posts': seq<Post>, names: seq<Option<string>>, files': set<string>, refs: set<string>,
                      refsOf: seq<set<string>>)
    requires AreTidy(base, all, posts0) && files <= all && |refsOf| < |posts0|
    requires Want(posts0[|refsOf|]) in all
    requires SameFrom(posts0, posts, |refsOf|) && SameBut(posts, posts', |refsOf|)
    requires AreNames(base, files, posts[|refsOf|], names) && IsStep(files, posts[|refsOf|], names, files', refs)
    requires AreHeld(files, posts, refsOf)
    ensures files' <= all && SameFrom(posts0, posts', |refsOf| + 1)
    ensures AreHeld(files', posts', refsOf + [refs])
  {
    var k := |refsOf|;
    assert posts[k] == posts0[k];
    assert IsTidy(base, all, posts0[k]);
    StepIsLocal(base, all, files, posts[k], names, files', refs, posts[k].prefix);
    forall j | 0 <= j < k ensures IsHeld(files', posts'[j], refsOf[j]) {
      assert posts0[j].prefix != posts0[k].prefix;
      StepIsLocal(base, all, files, posts[k], names, files', refs, posts[j].prefix);
      assert IsHeld(files, posts[j], refsOf[j]);
      assert forall r | r in refsOf[j] :: r in files + files';
    }
  }

  /** What the posts handled so far mean is among what is held; it is settled for good when nothing fails. */
  ghost predicate IsInOrder(base: UrlBase, all: set<string>, files: set<string>, posts: seq<Post>,
                            refsOf: seq<set<string>>, exact: bool)
  {
    && files <= all && AreHeld(files, posts, refsOf)
    && (forall j | 0 <= j < |refsOf| :: IsMeantIn(base, all, files, posts[j], refsOf[j]))
    && (exact ==> AreDone(base, all, files, posts, refsOf))
  }

  lemma EarlierStaysMeant(base: UrlBase, all: set<string>, files: set<string>, posts0: seq<Post>, posts: seq<Post>,
                          names: seq<Option<string>>, files': set<string>, refs: set<string>,
                          refsOf: seq<set<string>>, j: nat)
    requires AreTidy(base, all, posts0) && files <= all && j < |refsOf| < |posts0| && Want(posts0[|refsOf|]) in all
    requires SameFrom(posts0, posts, |refsOf|) && AreNames(base, files, posts[|refsOf|], names)
    requires IsStep(files, posts[|refsOf|], names, files', refs)
    requires IsMeantIn(base, all, files, posts[j], refsOf[j])
    ensures IsMeantIn(base, all, files', posts[j], refsOf[j])
  {
    var k := |refsOf|;
    assert IsTidy(base, all, posts0[k]) && posts0[j].prefix != posts0[k].prefix;
    StepIsLocal(base, all, files, posts[k], names, files', refs, posts[j].prefix);
    StaysMeant(base, all, files, files', posts[j], refsOf[j]);
  }

  lemma NextPostIsMeant(base: UrlBase, all: set<string>, files: set<string>, posts0: seq<Post>, posts: seq<Post>,
                        posts': seq<Post>, names: seq<Option<string>>, files': set<string>, refs: set<string>,
                        refsOf: seq<set<string>>, j: nat)
    requires AreTidy(base, all, posts0) && files <= all && j <= |refsOf| < |posts0| && Want(posts0[|refsOf|]) in all
    requires SameFrom(posts0, posts, |refsOf|) && SameBut(posts, posts', |refsOf|)
    requires AreNames(base, files, posts[|refsOf|], names) && IsStep(files, posts[|refsOf|], names, files', refs)
    requires AreUrlsDone(files, posts[|refsOf|], names, AllMissing(base, files, posts[|refsOf|]), |names|,
                         posts'[|refsOf|].videos, files')
    requires j < |refsOf| ==> IsMeantIn(base, all, files, posts[j], refsOf[j])
    ensures IsMeantIn(base, all, files', posts'[j], (refsOf + [refs])[j])
  {
    if j < |refsOf| {
      EarlierStaysMeant(base, all, files, posts0, posts, names, files', refs, refsOf, j);
    } else {
      assert IsTidy(base, all, posts0[j]);
      StepIsMeant(base, all, files, posts[j], names, files', refs, posts'[j]);
    }
  }

  lemma NextPostIsInOrder(base: UrlBase, all: set<string>, files: set<string>, posts0: seq<Post>, posts: seq<Post>,
                          posts': seq<Post>, names: seq<Option<string>>, files': set<string>, refs: set<string>,
                          refsOf: seq<set<string>>, exact: bool)
    requires AreTidy(base, all, posts0) && |refsOf| < |posts0| && Want(posts0[|refsOf|]) in all
    requires SameFrom(posts0, posts, |refsOf|) && SameBut(posts, posts', |refsOf|)
    requires AreNames(base, files, posts[|refsOf|], names) && IsStep(files, posts[|refsOf|], names, files', refs)
    requires IsInOrder(base, all, files, posts, refsOf, exact)
    requires AreUrlsDone(files, posts[|refsOf|], names, AllMissing(base, files, posts[|refsOf|]), |names|,
                         posts'[|refsOf|].videos, files')
    requires exact ==>
      && files' == FilesAfter(files, posts[|refsOf|], names) && refs == RefsAfter(files, posts[|refsOf|], names)
      && posts' == posts[|refsOf| := PostAfter(files, posts[|refsOf|], names,
                                               AllMissing(base, files, posts[|refsOf|]))]
    ensures IsInOrder(base, all, files', posts', refsOf + [refs], exact)
  {
    NextPostHolds(base, all, files, posts0, posts, posts', names, files', refs, refsOf);
    forall j | 0 <= j < |refsOf| + 1 ensures IsMeantIn(base, all, files', posts'[j], (refsOf + [refs])[j]) {
      NextPostIsMeant(base, all, files, posts0, posts, posts', names, files', refs, refsOf, j);
    }
    if exact {
      NextPostIsDone(base, all, files, posts0, posts, names, refsOf);
    }
  }

  lemma NextPostIsSame(posts0: seq<Post>, posts: seq<Post>, posts': seq<Post>, k: nat)
    requires k < |posts0| && SameFrom(posts0, posts, k) && SameBut(posts, posts', k)
    ensures SameFrom(posts0, posts', k + 1)
  {
  }

  lemma NextPostIsDone(base: UrlBase, all: set<string>, files: set<string>, posts0: seq<Post>, posts: seq<Post>,
                       names: seq<Option<string>>, refsOf: seq<set<string>>)
    requires AreTidy(base, all, posts0) && files <= all && |refsOf| < |posts0|
    requires Want(posts0[|refsOf|]) in all
    requires SameFrom(posts0, posts, |refsOf|) && AreNames(base, files, posts[|refsOf|], names)
    requires AreDone(base, all, files, posts, refsOf)
    ensures
      var k := |refsOf|;
      var p := posts[k];
      AreDone(base, all, FilesAfter(files, p, names), posts[k := PostAfter(files, p, names, AllMissing(base, files, p))],
              refsOf + [RefsAfter(files, p, names)])
  {
    var k := |refsOf|;
    var p := posts[k];
    assert p == posts0[k] && IsTidy(base, all, posts0[k]);
    StepIsDone(base, all, files, p, names);
    var files' := FilesAfter(files, p, names);
    forall j | 0 <= j < k
      ensures IsDoneIn(base, all, files', posts[j], refsOf[j])
    {
      EarlierStaysDone(base, all, files, posts0, posts, names, refsOf, j);
    }
  }

  lemma EarlierStaysDone(base: UrlBase, all: set<string>, files: set<string>, posts0: seq<Post>, posts: seq<Post>,
                         names: seq<Option<string>>, refsOf: seq<set<string>>, j: nat)
    requires AreTidy(base, all, posts0) && files <= all && j < |refsOf| < |posts0|
    requires Want(posts0[|refsOf|]) in all
    requires SameFrom(posts0, posts, |refsOf|) && AreNames(base, files, posts[|refsOf|], names)
    requires AreDone(base, all, files, posts, refsOf)
    ensures
      var files' := FilesAfter(files, posts[|refsOf|], names);
      IsDoneIn(base, all, files', posts[j], refsOf[j])
  {
    var k := |refsOf|;
    var p := posts[k];
    var files' := FilesAfter(files, p, names);
    assert IsTidy(base, all, posts0[k]) && posts0[j].prefix != posts0[k].prefix;
    StepIsLocal(base, all, files, p, names, files', RefsAfter(files, p, names), posts[j].prefix);
    StaysDone(base, all, files, files', posts[j], refsOf[j]);
  }

  /** Nothing of `gone` is what the post's rows mean; what has its date is a legacy video of a post that has files. */
  predicate IsBeside(gone: set<string>, p: Post, refs: set<string>) {
    gone !! refs && forall n | n in gone && HasPrefix(n, p.prefix) :: refs != {} && IsLegacy(n, p.prefix)
  }

  /** Moving duplicates away leaves every done post done. */
  lemma DoneWithoutDuplicates(base: UrlBase, files: set<string>, p: Post, refs: set<string>, gone: set<string>)
    requires IsDone(base, files, p, refs) && IsNumeric(p.externalID) && IsBeside(gone, p, refs)
    ensures IsDone(base, files - gone, p, refs)
  {
    forall i | 0 <= i < |p.videos| ensures MatchesOf(base, files - gone, p, i) == MatchesOf(base, files, p, i) {
      assert MatchesOf(base, files, p, i) <= refs;
      FewerMatches(base, files, p, i, gone);
    }
    WantIsCanonical(p);
    if refs == {} {
      assert Legacy(files - gone, p.prefix) == Legacy(files, p.prefix);
    }
  }

  lemma FewerMatches(base: UrlBase, files: set<string>, p: Post, i: nat, gone: set<string>)
    requires i < |p.videos| && gone !! MatchesOf(base, files, p, i)
    ensures MatchesOf(base, files - gone, p, i) == MatchesOf(base, files, p, i)
  {
    if base(p.videos[i]).Some? {
      var b := base(p.videos[i]).value;
      if p.prefix + b !in files {
        var here, there := set n | n in files && Contains(n, b), set n | n in files - gone && Contains(n, b);
        assert here == there;
      }
    }
  }

  lemma DuplicateHasATwin(name: string, posts: seq<Post>, files: set<string>, refsOf: seq<set<string>>)
    returns (j: nat)
    requires AreHeld(files, posts, refsOf) && IsDuplicate(name, Union(refsOf))
    ensures j < |refsOf| && refsOf[j] != {} && posts[j].prefix == name[..DATE_LEN]
  {
    var r :| r in Union(refsOf) && |r| > DATE_LEN && r[..DATE_LEN] == name[..DATE_LEN];
    var k :| 0 <= k < |refsOf| && r in refsOf[k];
    j := k;
    assert IsHeld(files, posts[j], refsOf[j]);
  }

  /** A file moved aside leaves one of the same date that a row means, and that one is kept. */
  lemma TwinIsKept(name: string, posts: seq<Post>, files: set<string>, refsOf: seq<set<string>>)
    returns (twin: string)
    requires AreHeld(files, posts, refsOf) && IsDuplicate(name, Union(refsOf))
    ensures twin in files && twin in Union(refsOf) && twin != name && |twin| > DATE_LEN
    ensures twin[..DATE_LEN] == name[..DATE_LEN]
  {
    twin :| twin in Union(refsOf) && |twin| > DATE_LEN && twin[..DATE_LEN] == name[..DATE_LEN];
    var k :| 0 <= k < |refsOf| && twin in refsOf[k];
    assert IsHeld(files, posts[k], refsOf[k]);
  }

  lemma StaysDoneWithoutDuplicates(base: UrlBase, files: set<string>, posts: seq<Post>, refsOf: seq<set<string>>,
                                   gone: set<string>, j: nat)
    requires OnePostPerSecond(posts) && AreHeld(files, posts, refsOf) && j < |posts| == |refsOf|
    requires IsNumeric(posts[j].externalID) && IsDone(base, files, posts[j], refsOf[j])
    requires gone <= Duplicates(files, Union(refsOf))
    ensures IsDone(base, files - gone, posts[j], refsOf[j])
  {
    DuplicatesAreBeside(files, posts, refsOf, gone, j);
    DoneWithoutDuplicates(base, files, posts[j], refsOf[j], gone);
  }

  lemma DuplicatesAreBeside(files: set<string>, posts: seq<Post>, refsOf: seq<set<string>>, gone: set<string>, j: nat)
    requires OnePostPerSecond(posts) && AreHeld(files, posts, refsOf) && j < |posts| == |refsOf|
    requires gone <= Duplicates(files, Union(refsOf))
    ensures IsBeside(gone, posts[j], refsOf[j])
  {
    assert forall r | r in refsOf[j] :: r in Union(refsOf);
    forall n | n in gone && HasPrefix(n, posts[j].prefix) ensures refsOf[j] != {} && IsLegacy(n, posts[j].prefix) {
      assert IsDuplicate(n, Union(refsOf));
      var i := DuplicateHasATwin(n, posts, files, refsOf);
      assert posts[i].prefix == posts[j].prefix;
    }
  }

  lemma DuplicatesGone(base: UrlBase, all: set<string>, files: set<string>, posts0: seq<Post>, posts: seq<Post>,
                       refsOf: seq<set<string>>, gone: set<string>)
    requires AreTidy(base, all, posts0) && SameFrom(posts0, posts, |posts0|) && |refsOf| == |posts|
    requires AreHeld(files, posts, refsOf) && AreDone(base, all, files, posts, refsOf)
    requires gone == Duplicates(files, Union(refsOf))
    ensures IsMigrated(base, files - gone, posts, refsOf)
  {
    assert OnePostPerSecond(posts);
    forall j | 0 <= j < |posts| ensures IsDone(base, files - gone, posts[j], refsOf[j]) {
      assert IsTidy(base, all, posts0[j]);
      StaysDoneWithoutDuplicates(base, files, posts, refsOf, gone, j);
    }
  }

  ghost predicate IsTidyLibrary(base: UrlBase, disk: Disk, posts: seq<Post>) {
    AreTidy(base, Universe(Names(disk), posts), posts)
  }

  predicate AreDuplicates(gone: set<string>, referenced: set<string>) {
    forall n | n in gone :: IsDuplicate(n, referenced)
  }

  lemma HeldWithoutDuplicates(files: set<string>, posts: seq<Post>, refsOf: seq<set<string>>, gone: set<string>)
    requires AreHeld(files, posts, refsOf) && gone <= Duplicates(files, Union(refsOf))
    ensures AreHeld(files - gone, posts, refsOf)
  {
    forall j | 0 <= j < |refsOf| ensures IsHeld(files - gone, posts[j], refsOf[j]) {
      assert IsHeld(files, posts[j], refsOf[j]);
      assert forall r | r in refsOf[j] :: r in Union(refsOf);
    }
  }

  /** Whatever file a row of a post can mean is among those that `refsOf` lists for the post, all of them held. */
  ghost predicate RowsKeepFiles(base: UrlBase, files: set<string>, posts: seq<Post>, refsOf: seq<set<string>>) {
    && |refsOf| == |posts| && AreHeld(files, posts, refsOf)
    && forall j | 0 <= j < |posts| :: AreMeant(base, files, posts[j], refsOf[j])
  }

  lemma MeantWithoutDuplicates(base: UrlBase, files: set<string>, p: Post, refsOf: seq<set<string>>, j: nat,
                               gone: set<string>)
    requires j < |refsOf| && AreMeant(base, files, p, refsOf[j]) && gone <= Duplicates(files, Union(refsOf))
    ensures AreMeant(base, files - gone, p, refsOf[j])
  {
    forall i | 0 <= i < |p.videos| ensures MatchesOf(base, files - gone, p, i) <= refsOf[j] {
      assert MatchesOf(base, files, p, i) <= refsOf[j] <= Union(refsOf);
      FewerMatches(base, files, p, i, gone);
    }
  }

  /** The library when the posts are handled and the duplicates, `gone`, moved aside. */
  lemma LibraryIsLeft(base: UrlBase, all: set<string>, files: set<string>, posts0: seq<Post>, posts: seq<Post>,
                      refsOf: seq<set<string>>, gone: set<string>, exact: bool)
    requires AreTidy(base, all, posts0) && SameFrom(posts0, posts, |posts0|) && |refsOf| == |posts|
    requires IsInOrder(base, all, files, posts, refsOf, exact) && gone <= Duplicates(files, Union(refsOf))
    requires exact ==> gone == Duplicates(files, Union(refsOf))
    ensures RowsKeepFiles(base, files - gone, posts, refsOf)
    ensures exact ==> IsMigrated(base, files - gone, posts, refsOf)
  {
    HeldWithoutDuplicates(files, posts, refsOf, gone);
    forall j | 0 <= j < |posts| ensures AreMeant(base, files - gone, posts[j], refsOf[j]) {
      assert IsMeantIn(base, all, files, posts[j], refsOf[j]);
      MeantWithoutDuplicates(base, files, posts[j], refsOf, j, gone);
    }
    if exact {
      DuplicatesGone(base, all, files, posts0, posts, refsOf, gone);
    }
  }

  /** The same for a library that may not be tidy. */
  lemma WhatIsLeft(base: UrlBase, all: set<string>, files: set<string>, posts0: seq<Post>, posts: seq<Post>,
                   refsOf: seq<set<string>>, gone: set<string>, exact: bool)
    requires SameFrom(posts0, posts, |posts0|) && |refsOf| == |posts|
    requires AreTidy(base, all, posts0) ==> IsInOrder(base, all, files, posts, refsOf, exact)
    requires gone <= Duplicates(files, Union(refsOf)) && (exact ==> gone == Duplicates(files, Union(refsOf)))
    ensures AreTidy(base, all, posts0) ==> RowsKeepFiles(base, files - gone, posts, refsOf)
    ensures AreTidy(base, all, posts0) && exact ==> IsMigrated(base, files - gone, posts, refsOf)
  {
    if AreTidy(base, all, posts0) {
      LibraryIsLeft(base, all, files, posts0, posts, refsOf, gone, exact);
    }
  }

  lemma NothingToMove(base: UrlBase, files: set<string>, posts: seq<Post>, refsOf: seq<set<string>>, gone: set<string>)
    requires IsMigrated(base, files, posts, refsOf) && gone <= Duplicates(files, Union(refsOf))
    ensures gone == {}
  {
  }

  // ---------------------------------------------------------------- what a run will count

  function Meant(base: UrlBase, files: set<string>, p: Post): set<string> {
    set i, n | 0 <= i < |p.videos| && n in MatchesOf(base, files, p, i) :: n
  }

  /** No row of the post gets a new url: a rename finds the canonical one there, and no row is paired. */
  ghost predicate KeepsUrls(base: UrlBase, files: set<string>, p: Post) {
    if WillRename(base, files, p) then p.videos[0] == CanonicalUrl(p)
    else AllMissing(base, files, p) ==> NoPairs(files, p)
  }

  /** No legacy video of the post's date is left beside what its rows mean; for a post that keeps its urls. */
  predicate LeavesNone(base: UrlBase, files: set<string>, p: Post) {
    WillRename(base, files, p) || HasDated(Meant(base, files, p)) ==>
      if AllMissing(base, files, p) then AtMostOne(Legacy(files, p.prefix))
      else LegacyAmong(files, p, Meant(base, files, p))
  }

  /** Nothing the migration does for the post is counted. */
  ghost predicate IsQuiet(base: UrlBase, files: set<string>, p: Post) {
    KeepsUrls(base, files, p) && LeavesNone(base, files, p)
  }

  predicate HasSpare(files: set<string>, p: Post, refs: set<string>) {
    HasDated(refs) && !LegacyAmong(files, p, refs)
  }

  predicate HasDated(names: set<string>) {
    exists n :: n in names && |n| > DATE_LEN
  }

  predicate LegacyAmong(files: set<string>, p: Post, some: set<string>) {
    forall n | n in files && IsLegacy(n, p.prefix) :: n in some
  }

  /** What the folder `before` says about a post is what became of it. */
  ghost predicate IsForeseen(base: UrlBase, before: set<string>, p: Post, p': Post, files: set<string>,
                             refs: set<string>)
  {
    && (p' == p <==> KeepsUrls(base, before, p))
    && (p' == p ==> (HasSpare(files, p, refs) <==> !LeavesNone(base, before, p)))
    && (WillRename(base, before, p) ==> Want(p) in files && Want(p) !in before)
  }

  lemma AllMeant(base: UrlBase, files: set<string>, p: Post, names: seq<Option<string>>)
    requires Means(base, files, p, names)
    ensures Meant(base, files, p) == Somes(names)
  {
    SomesHold(names);
    forall n | n in Meant(base, files, p) ensures n in Somes(names) {
      var i :| 0 <= i < |p.videos| && n in MatchesOf(base, files, p, i);
      assert n in OneOf(names[i]);
    }
    forall n | n in Somes(names) ensures n in Meant(base, files, p) {
      var i :| 0 <= i < |names| && n in OneOf(names[i]);
      assert n in MatchesOf(base, files, p, i);
    }
  }

  lemma RenameLeaves(files: set<string>, p: Post, name: string)
    requires IsNumeric(p.externalID) && name in files && Want(p) !in files
    ensures LegacyAmong(files - {name} + {Want(p)}, p, {Want(p)}) <==> LegacyAmong(files, p, {name})
  {
    WantIsCanonical(p);
    if LegacyAmong(files - {name} + {Want(p)}, p, {Want(p)}) {
      forall n | n in files && IsLegacy(n, p.prefix) ensures n == name {
        assert n == name || n in files - {name} + {Want(p)};
      }
    }
  }

  lemma OneLegacy(files: set<string>, p: Post, name: string)
    requires name in Legacy(files, p.prefix)
    ensures LegacyAmong(files, p, {name}) <==> AtMostOne(Legacy(files, p.prefix))
  {
    var legacy := Legacy(files, p.prefix);
    assert forall n :: n in legacy <==> n in files && IsLegacy(n, p.prefix);
    if LegacyAmong(files, p, {name}) {
      forall m, n | m in Legacy(files, p.prefix) && n in Legacy(files, p.prefix) ensures m == n {
        assert m in {name} && n in {name};
      }
    }
  }

  lemma LoneMeant(base: UrlBase, files: set<string>, p: Post, name: string)
    requires |p.videos| == 1 && name in MatchesOf(base, files, p, 0) && AtMostOne(MatchesOf(base, files, p, 0))
    ensures Meant(base, files, p) == {name}
  {
  }

  lemma RenamedShows(base: UrlBase, files: set<string>, p: Post, names: seq<Option<string>>, allMissing: bool)
    requires |names| == |p.videos| && IsRenamed(files, p, names)
    ensures PostAfter(files, p, names, allMissing) == p <==> p.videos[0] == CanonicalUrl(p)
  {
    assert PostAfter(files, p, names, allMissing).videos == [CanonicalUrl(p)] && p.videos == [p.videos[0]];
  }

  lemma RenamedLeaves(base: UrlBase, all: set<string>, files: set<string>, p: Post, names: seq<Option<string>>)
    requires files <= all && IsTidy(base, all, p) && AreNames(base, files, p, names) && IsRenamed(files, p, names)
    ensures HasSpare(FilesAfter(files, p, names), p, {Want(p)}) <==> !LeavesNone(base, files, p)
  {
    RenameIsDecided(base, files, p, names);
    NamesAreFiles(base, files, p, names, 0);
    var name := names[0].value;
    RenameLeaves(files, p, name);
    assert Want(p) in {Want(p)} && |Want(p)| > DATE_LEN;
    if AllMissing(base, files, p) {
      OneLegacy(files, p, name);
    } else {
      LocalMatches(base, all, files, p, 0);
      assert Resolves(base, files, p, 0, names[0]);
      LoneMeant(base, files, p, name);
    }
  }

  lemma RenamedIsForeseen(base: UrlBase, all: set<string>, files: set<string>, p: Post, names: seq<Option<string>>)
    requires files <= all && IsTidy(base, all, p) && AreNames(base, files, p, names) && IsRenamed(files, p, names)
    ensures IsForeseen(base, files, p, PostAfter(files, p, names, AllMissing(base, files, p)),
                       FilesAfter(files, p, names), RefsAfter(files, p, names))
  {
    RenameIsDecided(base, files, p, names);
    RenamedShows(base, files, p, names, AllMissing(base, files, p));
    RenamedLeaves(base, all, files, p, names);
  }

  lemma PairingShows(base: UrlBase, all: set<string>, files: set<string>, p: Post, names: seq<Option<string>>)
    requires files <= all && ArePlain(base, all) && IsTidy(base, all, p) && AllMissing(base, files, p)
    requires IsPairing(files, p, names) && !IsRenamed(files, p, names) && !NoPairs(files, p)
    ensures PostAfter(files, p, names, true) != p
  {
    PairedRow(base, all, files, p, names, 0);
    assert MatchesOf(base, files, p, 0) == {};
  }

  lemma UnrenamedIsForeseen(base: UrlBase, all: set<string>, files: set<string>, p: Post, names: seq<Option<string>>)
    requires files <= all && ArePlain(base, all) && IsTidy(base, all, p)
    requires AreNames(base, files, p, names) && !IsRenamed(files, p, names)
    ensures IsForeseen(base, files, p, PostAfter(files, p, names, AllMissing(base, files, p)), files, Somes(names))
  {
    RenameIsDecided(base, files, p, names);
    SomesHold(names);
    if AllMissing(base, files, p) {
      if !NoPairs(files, p) {
        PairingShows(base, all, files, p, names);
      }
    } else {
      ResolvedIsDone(base, all, files, p, names);
      forall i | 0 <= i < |names| ensures AtMostOne(MatchesOf(base, files, p, i)) {
        LocalMatches(base, all, files, p, i);
      }
      ResolvedMeans(base, files, p, names);
      AllMeant(base, files, p, names);
    }
  }

  /** What a folder foretells of a post is the same for every folder that agrees on the post's date. */
  lemma SameForesight(base: UrlBase, all: set<string>, before: set<string>, files: set<string>, p: Post)
    requires before <= all && files <= all && IsTidy(base, all, p) && Agree(before, files, p.prefix)
    ensures WillRename(base, before, p) <==> WillRename(base, files, p)
    ensures KeepsUrls(base, before, p) <==> KeepsUrls(base, files, p)
    ensures LeavesNone(base, before, p) <==> LeavesNone(base, files, p)
    ensures Want(p) in before <==> Want(p) in files
  {
    forall i | 0 <= i < |p.videos| ensures MatchesOf(base, before, p, i) == MatchesOf(base, files, p, i) {
      SameMatches(base, all, before, files, p, i);
    }
    WantIsCanonical(p);
    SameLegacy(before, files, p.prefix);
    SameMeant(base, before, files, p);
    assert forall some :: LegacyAmong(before, p, some) <==> LegacyAmong(files, p, some) by {
      forall some { SameAmong(before, files, p, some); }
    }
  }

  lemma SameAmong(before: set<string>, files: set<string>, p: Post, some: set<string>)
    requires Agree(before, files, p.prefix)
    ensures LegacyAmong(before, p, some) <==> LegacyAmong(files, p, some)
  {
    forall n | IsLegacy(n, p.prefix) ensures n in before <==> n in files {
      LegacyName(n, p.prefix);
      assert n in before + files ==> n in before && n in files;
    }
  }

  lemma SameMeant(base: UrlBase, before: set<string>, files: set<string>, p: Post)
    requires forall i | 0 <= i < |p.videos| :: MatchesOf(base, before, p, i) == MatchesOf(base, files, p, i)
    ensures Meant(base, before, p) == Meant(base, files, p)
    ensures AllMissing(base, before, p) <==> AllMissing(base, files, p)
  {
  }

  lemma StaysForeseen(base: UrlBase, before: set<string>, p: Post, p': Post, files: set<string>, files': set<string>,
                      refs: set<string>)
    requires IsForeseen(base, before, p, p', files, refs) && Agree(files, files', p.prefix)
    requires IsNumeric(p.externalID)
    ensures IsForeseen(base, before, p, p', files', refs)
  {
    SameAmong(files, files', p, refs);
    WantIsCanonical(p);
  }

  /** The posts handled so far came out as `before` foretold; those to come are in the folder as they were. */
  ghost predicate AreForeseen(base: UrlBase, before: set<string>, posts0: seq<Post>, posts: seq<Post>,
                              files: set<string>, refsOf: seq<set<string>>)
  {
    && |refsOf| <= |posts0| == |posts|
    && (forall j | |refsOf| <= j < |posts0| :: Agree(before, files, posts0[j].prefix))
    && forall j | 0 <= j < |refsOf| :: IsForeseen(base, before, posts0[j], posts[j], files, refsOf[j])
  }

  lemma PostIsForeseen(base: UrlBase, all: set<string>, before: set<string>, files: set<string>, p: Post,
                       names: seq<Option<string>>)
    requires before <= all && files <= all && ArePlain(base, all) && IsTidy(base, all, p)
    requires Agree(before, files, p.prefix) && AreNames(base, files, p, names)
    ensures IsForeseen(base, before, p, PostAfter(files, p, names, AllMissing(base, files, p)),
                       FilesAfter(files, p, names), RefsAfter(files, p, names))
  {
    SameForesight(base, all, before, files, p);
    if IsRenamed(files, p, names) {
      RenamedIsForeseen(base, all, files, p, names);
    } else {
      UnrenamedIsForeseen(base, all, files, p, names);
    }
  }

  lemma NextIsForeseen(base: UrlBase, all: set<string>, before: set<string>, posts0: seq<Post>, posts: seq<Post>,
                       files: set<string>, names: seq<Option<string>>, refsOf: seq<set<string>>)
    requires AreTidy(base, all, posts0) && before <= all && files <= all && |refsOf| < |posts0|
    requires Want(posts0[|refsOf|]) in all && SameFrom(posts0, posts, |refsOf|)
    requires AreNames(base, files, posts[|refsOf|], names)
    requires AreForeseen(base, before, posts0, posts, files, refsOf)
    ensures
      var p := posts[|refsOf|];
      AreForeseen(base, before, posts0, posts[|refsOf| := PostAfter(files, p, names, AllMissing(base, files, p))],
                  FilesAfter(files, p, names), refsOf + [RefsAfter(files, p, names)])
  {
    var k := |refsOf|;
    var p := posts[k];
    var files', refs := FilesAfter(files, p, names), RefsAfter(files, p, names);
    assert p == posts0[k] && IsTidy(base, all, posts0[k]);
    PostIsForeseen(base, all, before, files, p, names);
    forall j | 0 <= j < |posts0| && j != k ensures Agree(files, files', posts0[j].prefix) {
      OthersAgree(base, all, posts0, files, names, k, j);
    }
    forall j | 0 <= j < k ensures IsForeseen(base, before, posts0[j], posts[j], files', refsOf[j]) {
      assert IsTidy(base, all, posts0[j]);
      StaysForeseen(base, before, posts0[j], posts[j], files, files', refsOf[j]);
    }
    forall j | k + 1 <= j < |posts0| ensures Agree(before, files', posts0[j].prefix) {
      AgreeOnward(before, files, files', posts0[j].prefix);
    }
    var posts' := posts[k := PostAfter(files, p, names, AllMissing(base, files, p))];
    assert forall j | 0 <= j <= k ::
        IsForeseen(base, before, posts0[j], posts'[j], files', (refsOf + [refs])[j]);
  }

  lemma OthersAgree(base: UrlBase, all: set<string>, posts0: seq<Post>, files: set<string>, names: seq<Option<string>>,
                    k: nat, j: nat)
    requires AreTidy(base, all, posts0) && files <= all && k < |posts0| && j < |posts0| && j != k
    requires Want(posts0[k]) in all && AreNames(base, files, posts0[k], names)
    ensures Agree(files, FilesAfter(files, posts0[k], names), posts0[j].prefix)
  {
    assert IsTidy(base, all, posts0[k]) && posts0[j].prefix != posts0[k].prefix;
    StepIsLocal(base, all, files, posts0[k], names, FilesAfter(files, posts0[k], names),
                RefsAfter(files, posts0[k], names), posts0[j].prefix);
  }

  lemma AgreeOnward(a: set<string>, b: set<string>, c: set<string>, prefix: string)
    requires Agree(a, b, prefix) && Agree(b, c, prefix)
    ensures Agree(a, c, prefix)
  {
    forall n | HasPrefix(n, prefix) && n in a + c ensures n in a && n in c {
      assert n in a ==> n in a + b;
      assert n in c ==> n in b + c;
      assert n in b ==> n in a + b && n in b + c;
    }
  }

  /** A file is a duplicate exactly when it is spare for some post. */
  lemma SpareIsDuplicate(posts: seq<Post>, files: set<string>, refsOf: seq<set<string>>)
    requires OnePostPerSecond(posts) && AreHeld(files, posts, refsOf) && |refsOf| == |posts|
    ensures (exists n :: n in Duplicates(files, Union(refsOf))) <==>
      exists j | 0 <= j < |posts| :: HasSpare(files, posts[j], refsOf[j])
  {
    if n :| n in Duplicates(files, Union(refsOf)) {
      DuplicateIsSpare(posts, files, refsOf, n);
    }
    if j :| 0 <= j < |posts| && HasSpare(files, posts[j], refsOf[j]) {
      var n :| n in files && IsLegacy(n, posts[j].prefix) && n !in refsOf[j];
      SpareIsUnreferenced(posts, files, refsOf, j, n);
    }
  }

  lemma DuplicateIsSpare(posts: seq<Post>, files: set<string>, refsOf: seq<set<string>>, n: string)
    requires AreHeld(files, posts, refsOf) && |refsOf| == |posts| && n in Duplicates(files, Union(refsOf))
    ensures exists j | 0 <= j < |posts| :: HasSpare(files, posts[j], refsOf[j])
  {
    var r :| r in Union(refsOf) && |r| > DATE_LEN && r[..DATE_LEN] == n[..DATE_LEN];
    var j :| 0 <= j < |refsOf| && r in refsOf[j];
    assert IsHeld(files, posts[j], refsOf[j]);
    assert n !in refsOf[j] && posts[j].prefix == n[..DATE_LEN];
    assert HasSpare(files, posts[j], refsOf[j]);
  }

  lemma SpareIsUnreferenced(posts: seq<Post>, files: set<string>, refsOf: seq<set<string>>, j: nat, n: string)
    requires OnePostPerSecond(posts) && AreHeld(files, posts, refsOf) && |refsOf| == |posts| && j < |posts|
    requires HasDated(refsOf[j]) && n in files && IsLegacy(n, posts[j].prefix) && n !in refsOf[j]
    ensures n in Duplicates(files, Union(refsOf))
  {
    LegacyName(n, posts[j].prefix);
    var r :| r in refsOf[j] && |r| > DATE_LEN;
    assert IsHeld(files, posts[j], refsOf[j]);
    assert r in Union(refsOf) && r[..DATE_LEN] == n[..DATE_LEN];
    forall i | 0 <= i < |refsOf| ensures n !in refsOf[i] {
      assert i != j ==> posts[i].prefix != posts[j].prefix && IsHeld(files, posts[i], refsOf[i]);
    }
  }

  ghost predicate AllQuiet(base: UrlBase, files: set<string>, posts: seq<Post>) {
    forall j | 0 <= j < |posts| :: IsQuiet(base, files, posts[j])
  }

  /** Nothing has changed that is counted exactly when every post was quiet from the start. */
  lemma QuietRun(base: UrlBase, all: set<string>, before: set<string>, posts0: seq<Post>, posts: seq<Post>,
                 files: set<string>, refsOf: seq<set<string>>, gone: set<string>)
    requires AreTidy(base, all, posts0) && SameFrom(posts0, posts, |posts0|) && |refsOf| == |posts|
    requires AreForeseen(base, before, posts0, posts, files, refsOf) && AreHeld(files, posts, refsOf)
    requires gone == Duplicates(files, Union(refsOf))
    ensures posts == posts0 && gone == {} <==> AllQuiet(base, before, posts0)
  {
    assert OnePostPerSecond(posts);
    SpareIsDuplicate(posts, files, refsOf);
    if posts == posts0 && gone == {} {
      forall j | 0 <= j < |posts0| ensures IsQuiet(base, before, posts0[j]) {
        assert IsForeseen(base, before, posts0[j], posts[j], files, refsOf[j]) && !HasSpare(files, posts[j], refsOf[j]);
      }
    }
    if AllQuiet(base, before, posts0) {
      forall j | 0 <= j < |posts0| ensures posts[j] == posts0[j] && !HasSpare(files, posts[j], refsOf[j]) {
        assert IsForeseen(base, before, posts0[j], posts[j], files, refsOf[j]) && IsQuiet(base, before, posts0[j]);
      }
      assert posts == posts0;
    }
  }

  /** A rename leaves a name in the folder that was not there. */
  lemma RenameIsSeen(base: UrlBase, all: set<string>, before: set<string>, posts0: seq<Post>, posts: seq<Post>,
                     files: set<string>, refsOf: seq<set<string>>, gone: set<string>)
    requires AreTidy(base, all, posts0) && SameFrom(posts0, posts, |posts0|) && |refsOf| == |posts|
    requires AreForeseen(base, before, posts0, posts, files, refsOf)
    requires gone <= Duplicates(files, Union(refsOf)) && SomeRename(base, before, posts0, |posts0|)
    ensures files - gone != before
  {
    var j :| 0 <= j < |posts0| && WillRename(base, before, posts0[j]);
    assert IsForeseen(base, before, posts0[j], posts[j], files, refsOf[j]) && IsTidy(base, all, posts0[j]);
    WantIsCanonical(posts0[j]);
    assert Want(posts0[j])[..DATE_LEN] == posts0[j].prefix;
    assert Want(posts0[j]) in files - gone;
  }

  // ---------------------------------------------------------------- moving files

  /** `origin` says where each file was at first: no file has been lost, doubled or changed. */
  ghost predicate Conserves(before: Disk, now: Disk, origin: map<Place, Place>) {
    && origin.Keys == now.Keys
    && (forall q | q in origin :: origin[q] in before && now[q] == before[origin[q]])
    && (forall q, r | q in origin && r in origin && origin[q] == origin[r] :: q == r)
    && (forall o | o in before :: o in origin.Values || IsOverwritten(before, origin, o))
    && (forall o | o in before && o.Aside? :: o in origin)
  }

  /** An earlier duplicate whose place another file now has. */
  predicate IsOverwritten(before: Disk, origin: map<Place, Place>, o: Place) {
    o in before && o.Aside? && o in origin && origin[o] != o
  }

  lemma MoveConserves(before: Disk, now: Disk, origin: map<Place, Place>, a: Place, b: Place)
    requires Conserves(before, now, origin) && a in now && a.Kept? && a != b
    requires b in now ==> b.Aside? && origin[b] == b
    ensures Conserves(before, Move(now, a, b), Move(origin, a, b))
  {
    var origin' := Move(origin, a, b);
    forall o | o in before ensures o in origin'.Values || IsOverwritten(before, origin', o) {
      if o in origin.Values {
        var q :| q in origin && origin[q] == o;
        if q == a {
          assert origin'[b] == o;
        } else if q != b {
          assert origin'[q] == o;
        } else {
          assert o == b && origin'[b] == origin[a] != b;
        }
      } else {
        assert o in origin && origin[o] != o;
        assert o != a && o != b;
      }
    }
  }

  lemma NamesMove(disk: Disk, a: string, b: Place)
    requires Kept(a) in disk
    ensures Names(Move(disk, Kept(a), b)) == Names(disk) - {a} + if b.Kept? then {b.name} else {}
  {
    var moved := Move(disk, Kept(a), b);
    forall n ensures n in Names(moved) <==> n in Names(disk) - {a} + if b.Kept? then {b.name} else {} {
      assert n in Names(moved) <==> Kept(n) in moved;
      assert n in Names(disk) <==> Kept(n) in disk;
    }
  }

  function WithUrl(posts: seq<Post>, k: nat, i: nat, url: string): seq<Post>
    requires k < |posts| && i < |posts[k].videos|
  {
    posts[k := posts[k].(videos := posts[k].videos[i := url])]
  }

  lemma SameUrl(posts: seq<Post>, k: nat, i: nat, url: string)
    requires k < |posts| && i < |posts[k].videos|
    ensures WithUrl(posts, k, i, url) == posts <==> posts[k].videos[i] == url
  {
    if posts[k].videos[i] == url {
      assert posts[k].videos[i := url] == posts[k].videos;
    } else {
      assert WithUrl(posts, k, i, url)[k].videos[i] == url;
    }
  }

  /** The rows of post `k` may have other urls; nothing else differs. */
  predicate SameBut(posts: seq<Post>, posts': seq<Post>, k: nat)
    requires k < |posts|
  {
    && |posts'| == |posts| && posts'[k].prefix == posts[k].prefix && posts'[k].externalID == posts[k].externalID
    && |posts'[k].videos| == |posts[k].videos|
    && forall j | 0 <= j < |posts| && j != k :: posts'[j] == posts[j]
  }

  lemma UrlsAre(posts: seq<Post>, posts': seq<Post>, k: nat, files: set<string>, names: seq<Option<string>>,
                allMissing: bool)
    requires k < |posts| && SameBut(posts, posts', k) && |names| == |posts[k].videos|
    requires AreUrlsDone(files, posts[k], names, allMissing, |names|, posts'[k].videos,
                         FilesAfter(files, posts[k], names))
    ensures posts' == posts[k := PostAfter(files, posts[k], names, allMissing)]
  {
    PostIsAfter(files, posts[k], names, allMissing, posts'[k]);
  }

  lemma UnionGrows(refsOf: seq<set<string>>, refs: set<string>)
    ensures Union(refsOf + [refs]) == Union(refsOf) + refs
  {
    var grown := refsOf + [refs];
    assert forall j | 0 <= j < |refsOf| :: grown[j] == refsOf[j];
    assert grown[|refsOf|] == refs;
  }

  lemma CountOfRename(base: UrlBase, files: set<string>, p: Post, names: seq<Option<string>>, allMissing: bool,
                      videos: seq<string>, files': set<string>)
    requires |names| == |p.videos| && AreUrlsDone(files, p, names, allMissing, |names|, videos, files')
    requires files' != files ==> IsRenamed(files, p, names)
    ensures files' != files ==> (videos == p.videos <==> p.videos[0] == CanonicalUrl(p))
    ensures IsRenamed(files, p, names) ==> FilesAfter(files, p, names) != files
  {
    if IsRenamed(files, p, names) {
      assert Want(p) in FilesAfter(files, p, names);
    }
    if files' != files {
      assert videos == [CanonicalUrl(p)] && p.videos == [p.videos[0]];
    }
  }

  /** The counter tells whether the posts have changed, also after one more of them. */
  lemma CountsAdd(posts0: seq<Post>, posts: seq<Post>, posts': seq<Post>, k: nat, fixed0: nat, fixed: nat, fixed': nat)
    requires k < |posts0| && SameFrom(posts0, posts, k) && SameBut(posts, posts', k)
    requires fixed0 <= fixed <= fixed' && (fixed == fixed0 <==> posts == posts0)
    requires fixed' == fixed <==> posts'[k].videos == posts[k].videos
    ensures fixed' == fixed0 <==> posts' == posts0
  {
    if posts' == posts0 {
      assert posts[k] == posts0[k];
      assert posts == posts0;
    }
    if fixed' == fixed0 {
      assert posts == posts0 && posts'[k] == posts[k];
      assert posts' == posts;
    }
  }

  /** Every file is where it was at first, or was renamed to one of `named`, or moved aside as one of `gone`. */
  predicate AreTraced(origin: map<Place, Place>, named: set<string>, gone: set<string>) {
    forall q | q in origin :: origin[q] == q || q.name in if q.Aside? then gone else named
  }

  lemma RenameIsTraced(origin: map<Place, Place>, named: set<string>, gone: set<string>, a: string, b: Place)
    requires AreTraced(origin, named, gone) && Kept(a) in origin
    ensures AreTraced(Move(origin, Kept(a), b), if b.Kept? then named + {b.name} else named,
                      if b.Kept? then gone else gone + {b.name})
  {
  }

  /** Where every file is, and that it is still there. */
  ghost predicate IsTracked(before: Disk, disk: Disk, origin: map<Place, Place>, named: set<string>, gone: set<string>) {
    Conserves(before, disk, origin) && AreTraced(origin, named, gone)
  }

  /** A file takes a free name. */
  lemma RenameIsTracked(before: Disk, disk: Disk, origin: map<Place, Place>, named: set<string>, gone: set<string>,
                        a: string, to: string)
    requires IsTracked(before, disk, origin, named, gone) && Kept(a) in disk && Kept(to) !in disk
    ensures IsTracked(before, Move(disk, Kept(a), Kept(to)), Move(origin, Kept(a), Kept(to)), named + {to}, gone)
  {
    MoveConserves(before, disk, origin, Kept(a), Kept(to));
    RenameIsTraced(origin, named, gone, a, Kept(to));
  }

  /** A file that was not renamed goes aside. */
  lemma AsideIsTracked(before: Disk, disk: Disk, origin: map<Place, Place>, named: set<string>, gone: set<string>,
                       a: string)
    requires IsTracked(before, disk, origin, named, gone) && Kept(a) in disk && a !in named && a !in gone
    ensures IsTracked(before, Move(disk, Kept(a), Aside(a)), Move(origin, Kept(a), Aside(a)), named, gone + {a})
  {
    MoveConserves(before, disk, origin, Kept(a), Aside(a));
    RenameIsTraced(origin, named, gone, a, Aside(a));
  }

  datatype Snapshot = Snapshot(disk: Disk, named: set<string>, taken: set<string>, posts: seq<Post>, fixed: nat)

  /** Since `start` no file was lost but those renamed away, and none was renamed if `named` is as it was. */
  predicate IsOnward(start: Snapshot, now: Snapshot, files: set<string>, files': set<string>) {
    && start.named <= now.named && start.taken <= now.taken
    && files <= files' + now.taken && files' <= files + now.named
    && (now.named == {} ==> now.disk == start.disk)
    && (files' == files ==> now.disk == start.disk && now.named == start.named)
  }

  lemma StaysOnward(start: Snapshot, before: Snapshot, now: Snapshot, files: set<string>, files': set<string>)
    requires IsOnward(start, before, files, files')
    requires now.disk == before.disk && now.named == before.named && now.taken == before.taken
    ensures IsOnward(start, now, files, files')
  {
  }

  /** Only post `k` has other urls, and that is counted. */
  predicate IsPostCounted(start: Snapshot, now: Snapshot, k: nat)
    requires k < |start.posts|
  {
    && SameBut(start.posts, now.posts, k) && start.fixed <= now.fixed
    && (now.fixed == start.fixed <==> now.posts[k].videos == start.posts[k].videos)
  }

  /** The counter tells whether rows changed, `named` whether files were renamed, and what made the first rename. */
  predicate IsReported(base: UrlBase, start: Snapshot, now: Snapshot, n: nat)
    requires n <= |start.posts|
  {
    && start.fixed <= now.fixed && (now.fixed == start.fixed <==> now.posts == start.posts)
    && (now.named == {} ==> now.disk == start.disk)
    && (now.named != {} ==> SomeRename(base, Names(start.disk), start.posts, n))
  }

  /** The same when no url write has failed: a rename that was not counted was silent. */
  predicate IsAccounted(base: UrlBase, start: Snapshot, now: Snapshot, n: nat, exact: bool)
    requires n <= |start.posts|
  {
    && IsReported(base, start, now, n)
    && (now.named != {} && now.fixed == start.fixed ==> SomeSilent(base, Names(start.disk), start.posts, n))
    && (exact && now.named == {} ==> !SomeRename(base, Names(start.disk), start.posts, n))
  }

  lemma NextIsReported(base: UrlBase, start: Snapshot, was: Snapshot, now: Snapshot, k: nat, files': set<string>)
    requires k < |start.posts| && SameFrom(start.posts, was.posts, k) && IsReported(base, start, was, k)
    requires IsOnward(was, now, Names(was.disk), files') && IsPostCounted(was, now, k)
    requires files' != Names(was.disk) ==> WillRename(base, Names(was.disk), was.posts[k])
    ensures IsReported(base, start, now, k + 1)
  {
    CountsAdd(start.posts, was.posts, now.posts, k, start.fixed, was.fixed, now.fixed);
    if now.named != {} {
      if was.named != {} {
        var j :| 0 <= j < k && WillRename(base, Names(start.disk), start.posts[j]);
      } else {
        assert WillRename(base, Names(start.disk), start.posts[k]);
      }
    }
  }

  lemma NextIsAccounted(base: UrlBase, start: Snapshot, was: Snapshot, now: Snapshot, k: nat, files': set<string>,
                        exact: bool)
    requires k < |start.posts| && SameFrom(start.posts, was.posts, k) && IsAccounted(base, start, was, k, exact)
    requires IsReported(base, start, now, k + 1) && files' == Names(now.disk)
    requires IsOnward(was, now, Names(was.disk), files') && IsPostCounted(was, now, k)
    requires files' != Names(was.disk) ==> (now.fixed == was.fixed <==> IsSilent(base, Names(was.disk), was.posts[k]))
    requires exact ==> (files' != Names(was.disk) <==> WillRename(base, Names(was.disk), was.posts[k]))
    ensures IsAccounted(base, start, now, k + 1, exact)
  {
    if now.named != {} && now.fixed == start.fixed {
      assert was.fixed == start.fixed;
      if was.named != {} {
        var j :| 0 <= j < k && IsSilent(base, Names(start.disk), start.posts[j]);
      } else {
        assert IsSilent(base, Names(start.disk), start.posts[k]);
      }
    }
    if exact && now.named == {} {
      assert was.named == {} && now.disk == was.disk == start.disk && was.posts[k] == start.posts[k];
    }
  }

  /** What the work on one post does, when no operation has failed that it cannot go on without. */
  ghost predicate IsPostStep(base: UrlBase, exact: bool, was: Snapshot, now: Snapshot, k: nat,
                             names: seq<Option<string>>, files': set<string>, refs: set<string>)
    requires k < |was.posts|
  {
    var files, p := Names(was.disk), was.posts[k];
    && IsPostCounted(was, now, k) && IsOnward(was, now, files, files') && files' == Names(now.disk)
    && AreNames(base, files, p, names) && IsStep(files, p, names, files', refs) && now.named <= was.named + refs
    && AreUrlsDone(files, p, names, AllMissing(base, files, p), |names|, now.posts[k].videos, files')
    && (exact ==>
          && files' == FilesAfter(files, p, names) && refs == RefsAfter(files, p, names)
          && now.posts == was.posts[k := PostAfter(files, p, names, AllMissing(base, files, p))])
    && (files' != files ==> (now.fixed == was.fixed <==> IsSilent(base, files, p)))
    && (exact ==> (files' != files <==> WillRename(base, files, p)))
  }

  lemma RowsMakeAStep(base: UrlBase, exact: bool, was: Snapshot, now: Snapshot, k: nat, names: seq<Option<string>>,
                      allMissing: bool, files': set<string>, refs: set<string>)
    requires k < |was.posts| && IsPostCounted(was, now, k) && IsOnward(was, now, Names(was.disk), files')
    requires files' == Names(now.disk) && now.named <= was.named + refs
    requires AreNames(base, Names(was.disk), was.posts[k], names)
    requires allMissing == AllMissing(base, Names(was.disk), was.posts[k])
    requires AreRowsDone(Names(was.disk), was.posts[k], names, |names|, files', refs, exact)
    requires AreUrlsDone(Names(was.disk), was.posts[k], names, allMissing, |names|, now.posts[k].videos, files')
    requires files' != Names(was.disk) ==> IsRenamed(Names(was.disk), was.posts[k], names)
    ensures IsPostStep(base, exact, was, now, k, names, files', refs)
  {
    var files, p := Names(was.disk), was.posts[k];
    assert names[..|names|] == names;
    RenameIsDecided(base, files, p, names);
    CountOfRename(base, files, p, names, allMissing, now.posts[k].videos, files');
    if exact {
      UrlsAre(was.posts, now.posts, k, files, names, allMissing);
    }
  }

  /** Of some folder, the post referenced the files its rows resolve to there, or the name its file was given. */
  ghost predicate IsResolved(base: UrlBase, p: Post, refs: set<string>) {
    exists files, names, files' :: AreNames(base, files, p, names) && IsStep(files, p, names, files', refs)
  }

  ghost predicate AreResolved(base: UrlBase, posts: seq<Post>, refsOf: seq<set<string>>) {
    |refsOf| <= |posts| && forall j | 0 <= j < |refsOf| :: IsResolved(base, posts[j], refsOf[j])
  }

  /** The first `k` posts are handled, starting from `start`; `exact` when nothing fails. */
  ghost predicate IsMidway(base: UrlBase, exact: bool, all: set<string>, refs0: Option<seq<set<string>>>,
                           start: Snapshot, now: Snapshot, k: nat, refsOf: seq<set<string>>)
  {
    var files := Names(now.disk);
    && k <= |now.posts| == |start.posts| && |refsOf| == k
    && now.named <= Union(refsOf) <= files + now.taken && files <= Names(start.disk) + now.named
    && SameFrom(start.posts, now.posts, k) && IsAccounted(base, start, now, k, exact)
    && AreResolved(base, start.posts, refsOf)
    && (AreTidy(base, all, start.posts) ==> IsInOrder(base, all, files, now.posts, refsOf, exact))
    && (AreTidy(base, all, start.posts) && exact ==>
          AreForeseen(base, Names(start.disk), start.posts, now.posts, files, refsOf))
    && (refs0.Some? && exact ==>
          now.disk == start.disk && now.posts == start.posts && now.fixed == start.fixed
          && IsStart(refsOf, refs0.value, k))
  }

  /** What `start` has to be like: any library, and `refs0` what its rows mean if it has been migrated. */
  ghost predicate IsStartOf(base: UrlBase, all: set<string>, refs0: Option<seq<set<string>>>, start: Snapshot) {
    && all == Universe(Names(start.disk), start.posts) && start.named == {}
    && (refs0.Some? ==> IsMigrated(base, Names(start.disk), start.posts, refs0.value))
  }

  lemma NextIsMidway(base: UrlBase, exact: bool, all: set<string>, refs0: Option<seq<set<string>>>, start: Snapshot,
                     was: Snapshot, now: Snapshot, k: nat, names: seq<Option<string>>, refs: set<string>,
                     refsOf: seq<set<string>>)
    requires IsStartOf(base, all, refs0, start) && IsMidway(base, exact, all, refs0, start, was, k, refsOf)
    requires k < |was.posts| && IsPostStep(base, exact, was, now, k, names, Names(now.disk), refs)
    requires IsReported(base, start, now, k + 1)
    ensures IsMidway(base, exact, all, refs0, start, now, k + 1, refsOf + [refs])
  {
    NextIsAccounted(base, start, was, now, k, Names(now.disk), exact);
    NextPostIsSame(start.posts, was.posts, now.posts, k);
    NamesGoOn(base, exact, all, refs0, start, was, now, k, names, refs, refsOf);
    NextIsTidy(base, exact, all, refs0, start, was, now, k, names, refs, refsOf);
    if refs0.Some? && exact {
      DoneIsUntouched(base, Names(was.disk), was.posts, refs0.value, k, names, refsOf);
      NextIsAsBefore(base, exact, all, refs0, start, was, now, k, names, refs, refsOf);
    }
  }

  lemma NamesGoOn(base: UrlBase, exact: bool, all: set<string>, refs0: Option<seq<set<string>>>, start: Snapshot,
                  was: Snapshot, now: Snapshot, k: nat, names: seq<Option<string>>, refs: set<string>,
                  refsOf: seq<set<string>>)
    requires IsMidway(base, exact, all, refs0, start, was, k, refsOf)
    requires k < |was.posts| && IsPostStep(base, exact, was, now, k, names, Names(now.disk), refs)
    ensures now.named <= Union(refsOf + [refs]) <= Names(now.disk) + now.taken
    ensures Names(now.disk) <= Names(start.disk) + now.named
    ensures AreResolved(base, start.posts, refsOf + [refs])
  {
    UnionGrows(refsOf, refs);
    RefsAreThere(base, Names(was.disk), was.posts[k], names, Names(now.disk), refs);
    assert IsResolved(base, start.posts[k], refs);
  }

  lemma NextIsAsBefore(base: UrlBase, exact: bool, all: set<string>, refs0: Option<seq<set<string>>>, start: Snapshot,
                       was: Snapshot, now: Snapshot, k: nat, names: seq<Option<string>>, refs: set<string>,
                       refsOf: seq<set<string>>)
    requires IsMidway(base, exact, all, refs0, start, was, k, refsOf) && refs0.Some? && exact
    requires k < |was.posts| && IsPostStep(base, exact, was, now, k, names, Names(now.disk), refs)
    requires FilesAfter(Names(was.disk), was.posts[k], names) == Names(was.disk)
    requires was.posts[k := PostAfter(Names(was.disk), was.posts[k], names,
                                      AllMissing(base, Names(was.disk), was.posts[k]))] == was.posts
    ensures now.disk == start.disk && now.posts == start.posts && now.fixed == start.fixed
  {
    assert now.posts == was.posts;
  }

  lemma NextIsTidy(base: UrlBase, exact: bool, all: set<string>, refs0: Option<seq<set<string>>>, start: Snapshot,
                   was: Snapshot, now: Snapshot, k: nat, names: seq<Option<string>>, refs: set<string>,
                   refsOf: seq<set<string>>)
    requires IsStartOf(base, all, refs0, start) && IsMidway(base, exact, all, refs0, start, was, k, refsOf)
    requires k < |was.posts| && IsPostStep(base, exact, was, now, k, names, Names(now.disk), refs)
    ensures AreTidy(base, all, start.posts) ==>
      IsInOrder(base, all, Names(now.disk), now.posts, refsOf + [refs], exact)
    ensures AreTidy(base, all, start.posts) && exact ==>
      AreForeseen(base, Names(start.disk), start.posts, now.posts, Names(now.disk), refsOf + [refs])
  {
    if AreTidy(base, all, start.posts) {
      assert Want(start.posts[k]) in all;
      NextPostIsInOrder(base, all, Names(was.disk), start.posts, was.posts, now.posts, names, Names(now.disk), refs,
                        refsOf, exact);
      if exact {
        NextIsForeseen(base, all, Names(start.disk), start.posts, was.posts, Names(was.disk), names, refsOf);
      }
    }
  }

  /** `end` is what is left when the posts have been handled, up to `now`, and the files `gone` moved aside. */
  ghost predicate IsRunEnd(base: UrlBase, exact: bool, all: set<string>, refs0: Option<seq<set<string>>>,
                           start: Snapshot, now: Snapshot, end: Snapshot, refsOf: seq<set<string>>, gone: set<string>)
  {
    && IsStartOf(base, all, refs0, start)
    && IsMidway(base, exact, all, refs0, start, now, |start.posts|, refsOf)
    && gone <= Duplicates(Names(now.disk), Union(refsOf))
    && (exact ==> gone == Duplicates(Names(now.disk), Union(refsOf)))
    && end == now.(disk := end.disk) && Names(end.disk) == Names(now.disk) - gone
    && (gone == {} ==> end.disk == now.disk)
  }

  lemma RunEnds(base: UrlBase, exact: bool, all: set<string>, refs0: Option<seq<set<string>>>, start: Snapshot,
                now: Snapshot, end: Snapshot, refsOf: seq<set<string>>, gone: set<string>)
    requires IsRunEnd(base, exact, all, refs0, start, now, end, refsOf, gone)
    ensures AreResolved(base, start.posts, refsOf)
    ensures Union(refsOf) <= Names(end.disk) + end.taken
    ensures AreTidy(base, all, start.posts) ==> RowsKeepFiles(base, Names(end.disk), end.posts, refsOf)
    ensures AreTidy(base, all, start.posts) && exact ==> IsMigrated(base, Names(end.disk), end.posts, refsOf)
    ensures refs0.Some? && exact ==>
      end.disk == start.disk && end.posts == start.posts && end.fixed == start.fixed && gone == {}
  {
    var files := Names(now.disk);
    WhatIsLeft(base, all, files, start.posts, now.posts, refsOf, gone, exact);
    assert gone !! Union(refsOf);
    if refs0.Some? && exact {
      NothingToMove(base, files, now.posts, refs0.value, gone);
    }
  }

  /**
   What the counters of a run tell: of the rows everything, of the files not. Rows changed exactly if `fixed` grew;
   files moved aside are counted; but a run that got through may have renamed a file that nothing counts, and then the
   folder had a silent post from the start.
   */
  ghost predicate ReportsChanges(base: UrlBase, start: Snapshot, end: Snapshot, gone: set<string>, ok: bool, exact: bool)
  {
    var files, n := Names(start.disk), |start.posts|;
    && start.fixed <= end.fixed && (end.fixed == start.fixed <==> end.posts == start.posts)
    && (end.named == gone == {} ==> end.disk == start.disk) && (gone != {} ==> end.disk != start.disk)
    && (end.named != {} ==> SomeRename(base, files, start.posts, n))
    && (exact && SomeRename(base, files, start.posts, n) ==> end.named != {})
    && (ok && end.named != {} && end.fixed == start.fixed ==> SomeSilent(base, files, start.posts, n))
  }

  /** Exactly when nothing is counted, and when files changed all the same, by what the folder is like before. */
  ghost predicate MisreportsExactly(base: UrlBase, start: Snapshot, end: Snapshot, gone: set<string>) {
    var files := Names(start.disk);
    && (end.fixed == start.fixed && gone == {} <==> AllQuiet(base, files, start.posts))
    && (end.fixed == start.fixed && gone == {} && end.disk != start.disk <==>
          AllQuiet(base, files, start.posts) && SomeSilent(base, files, start.posts, |start.posts|))
  }

  lemma RunReports(base: UrlBase, exact: bool, all: set<string>, refs0: Option<seq<set<string>>>, start: Snapshot,
                   now: Snapshot, end: Snapshot, refsOf: seq<set<string>>, gone: set<string>, ok: bool)
    requires IsRunEnd(base, exact, all, refs0, start, now, end, refsOf, gone)
    ensures ReportsChanges(base, start, end, gone, ok, exact)
    ensures AreTidy(base, all, start.posts) && exact ==> MisreportsExactly(base, start, end, gone)
  {
    if n :| n in gone {
      assert n in Names(now.disk) && n !in now.named;
      assert n in Names(start.disk) && n !in Names(end.disk);
    }
    if AreTidy(base, all, start.posts) && exact {
      QuietRun(base, all, Names(start.disk), start.posts, now.posts, Names(now.disk), refsOf, gone);
      if SomeSilent(base, Names(start.disk), start.posts, |start.posts|) {
        RenameIsSeen(base, all, Names(start.disk), start.posts, now.posts, Names(now.disk), refsOf, gone);
      }
    }
  }

  lemma CutRunReports(base: UrlBase, start: Snapshot, end: Snapshot)
    requires IsReported(base, start, end, |start.posts|)
    ensures ReportsChanges(base, start, end, {}, false, false)
  {
  }

  lemma SomeRenameOfAll(base: UrlBase, start: Snapshot, now: Snapshot, n: nat)
    requires n <= |start.posts| && IsReported(base, start, now, n)
    ensures IsReported(base, start, now, |start.posts|)
  {
  }

  /** What a post's rows reference is in the folder after the post. */
  lemma RefsAreThere(base: UrlBase, files: set<string>, p: Post, names: seq<Option<string>>, files': set<string>,
                     refs: set<string>)
    requires AreNames(base, files, p, names) && IsStep(files, p, names, files', refs)
    ensures refs <= files'
  {
    forall r | r in Somes(names) ensures r in files {
      var i :| 0 <= i < |names| && names[i] == Some(r);
      NamesAreFiles(base, files, p, names, i);
    }
  }

  /**
   One account's library; operations numbered in `failing` fail and change nothing. `named` are the names given by
   renames, `taken` those renamed away, `gone` the files moved aside.
   */
  class Library {
    const base: UrlBase
    const mtime: map<string, int>
    const failing: set<nat>
    var ops: nat
    var disk: Disk
    var posts: seq<Post>
    var fixed: nat
    var moved: nat
    ghost const before: Disk
    ghost var origin: map<Place, Place>
    ghost var named: set<string>
    ghost var taken: set<string>
    ghost var gone: set<string>

    ghost predicate Valid()
      reads this
    {
      IsTracked(before, disk, origin, named, gone)
    }

    ghost function Now(): Snapshot
      reads this
    {
      Snapshot(disk, named, taken, posts, fixed)
    }

    constructor (base: UrlBase, mtime: map<string, int>, failing: set<nat>, disk: Disk, posts: seq<Post>)
      ensures Valid() && before == disk && this.disk == disk && this.posts == posts
      ensures this.base == base && this.failing == failing && fixed == moved == 0 && named == taken == gone == {}
    {
      this.base, this.mtime, this.failing := base, mtime, failing;
      this.ops, this.disk, this.posts, this.fixed, this.moved := 0, disk, posts, 0, 0;
      this.before := disk;
      this.origin, this.named, this.taken, this.gone := map p | p in disk :: p, {}, {}, {};
      new;
      assert forall o | o in disk :: origin[o] == o;
    }

    method Works() returns (ok: bool)
      modifies this`ops
      ensures failing == {} ==> ok
    {
      ok := ops !in failing;
      ops := ops + 1;
    }

    /** The move itself. */
    method Put(name: string, to: Place)
      requires Kept(name) in disk && Kept(name) in origin
      modifies this`disk, this`origin
      ensures disk == Move(old(disk), Kept(name), to) && origin == Move(old(origin), Kept(name), to)
    {
      disk, origin := Move(disk, Kept(name), to), Move(origin, Kept(name), to);
    }

    /** os.Rename within the account folder. */
    method Rename(name: string, to: string) returns (ok: bool)
      requires Valid() && Kept(name) in disk && Kept(to) !in disk
      modifies this`ops, this`disk, this`origin, this`named, this`taken
      ensures Valid() && (failing == {} ==> ok)
      ensures named == if ok then old(named) + {to} else old(named)
      ensures taken == if ok then old(taken) + {name} else old(taken)
      ensures disk == if ok then Move(old(disk), Kept(name), Kept(to)) else old(disk)
      ensures Names(disk) == if ok then Names(old(disk)) - {name} + {to} else Names(old(disk))
    {
      ok := Works();
      if ok {
        PutAs(name, to);
        taken := taken + {name};
      }
    }

    method PutAs(name: string, to: string)
      requires Valid() && Kept(name) in disk && Kept(to) !in disk
      modifies this`disk, this`origin, this`named
      ensures Valid() && named == old(named) + {to} && disk == Move(old(disk), Kept(name), Kept(to))
      ensures Names(disk) == Names(old(disk)) - {name} + {to}
    {
      NamesMove(disk, name, Kept(to));
      RenameIsTracked(before, disk, origin, named, gone, name, to);
      Put(name, Kept(to));
      named := named + {to};
    }

    /** posts.RenameMedia. */
    method SetUrl(k: nat, i: nat, url: string) returns (ok: bool)
      requires k < |posts| && i < |posts[k].videos|
      modifies this`ops, this`posts
      ensures failing == {} ==> ok
      ensures posts == if ok then WithUrl(old(posts), k, i, url) else old(posts)
    {
      ok := Works();
      if ok {
        posts := WithUrl(posts, k, i, url);
      }
    }

    /** Move a file to the duplicates folder; a duplicate of that name there is overwritten. */
    method MoveAside(name: string) returns (ok: bool)
      requires Valid() && Kept(name) in disk && name !in named && name !in gone
      modifies this`ops, this`disk, this`origin, this`moved, this`gone
      ensures Valid() && (failing == {} ==> ok)
      ensures Names(disk) == if ok then Names(old(disk)) - {name} else Names(old(disk))
      ensures gone == if ok then old(gone) + {name} else old(gone)
      ensures !ok ==> disk == old(disk)
      ensures moved == old(moved) + if ok then 1 else 0
    {
      ok := Works();
      if ok {
        PutAside(name);
        moved := moved + 1;
      }
    }

    method PutAside(name: string)
      requires Valid() && Kept(name) in disk && name !in named && name !in gone
      modifies this`disk, this`origin, this`gone
      ensures Valid() && Names(disk) == Names(old(disk)) - {name} && gone == old(gone) + {name}
    {
      NamesMove(disk, name, Aside(name));
      AsideIsTracked(before, disk, origin, named, gone, name);
      Put(name, Aside(name));
      gone := gone + {name};
    }

    /** What the row loop of migrateIgAccount does with one resolved row. */
    method MigrateRow(k: nat, i: nat, p: Post, name: string, allMissing: bool, files: set<string>)
      returns (files': set<string>, ref: string, ok: bool)
      requires Valid() && files == Names(disk) && name in files && (allMissing ==> |name| > DATE_LEN)
      requires k < |posts| && i < |posts[k].videos| == |p.videos| && posts[k].videos[i] == p.videos[i]
      modifies this`ops, this`disk, this`origin, this`named, this`taken, this`posts, this`fixed
      ensures Valid() && files' == Names(disk) && (failing == {} ==> ok)
      ensures IsRow(files, p, name, files', ref, failing == {})
      ensures named <= old(named) + {ref} && IsOnward(old(Now()), Now(), files, files')
      ensures IsRepointed(old(posts), old(fixed), k, i,
                          RowUrl(files, p, Some(name), allMissing, p.videos[i], files'), ok)
    {
      ghost var start := Now();
      var newURL;
      files', ref, newURL := RenameRow(p, p.videos[i], name, allMissing, files);
      ghost var renamed := Now();
      ok := Repoint(k, i, p, newURL, RowUrl(files, p, Some(name), allMissing, p.videos[i], files'));
      StaysOnward(start, renamed, Now(), files, files');
    }

    /** The rename of a row's file, and the url that the row is to have; empty when it keeps the one it has. */
    method RenameRow(p: Post, ghost former: string, name: string, allMissing: bool, files: set<string>)
      returns (files': set<string>, ref: string, newURL: string)
      requires Valid() && files == Names(disk) && name in files && (allMissing ==> |name| > DATE_LEN)
      modifies this`ops, this`disk, this`origin, this`named, this`taken
      ensures Valid() && files' == Names(disk) && IsRow(files, p, name, files', ref, failing == {})
      ensures named <= old(named) + {ref} && IsOnward(old(Now()), Now(), files, files')
      ensures RowUrl(files, p, Some(name), allMissing, former, files') == if newURL == "" then former else newURL
    {
      files', ref, newURL := files, name, "";
      var want := Want(p);
      RenamedRow(files, p, former, name, allMissing);
      if |p.videos| == 1 && name != want && want !in files {
        var renamed := Rename(name, want);
        if renamed {
          files', ref, newURL := files - {name} + {want}, want, CanonicalUrl(p);
        }
      } else if allMissing {
        newURL := name[DATE_LEN..];
      }
    }

    /** Row `i` of post `k` has its old url or `target`, which it has if all went well; a new url is counted. */
    ghost predicate IsRepointed(posts0: seq<Post>, fixed0: nat, k: nat, i: nat, target: string, ok: bool)
      requires k < |posts0| && i < |posts0[k].videos|
      reads this
    {
      && SameBut(posts0, posts, k) && posts[k].videos == posts0[k].videos[i := posts[k].videos[i]]
      && (posts[k].videos[i] == posts0[k].videos[i] || posts[k].videos[i] == target)
      && (ok ==> posts[k].videos[i] == target)
      && fixed == fixed0 + if posts[k].videos[i] != posts0[k].videos[i] then 1 else 0
    }

    /** The row's new url, unless it has none or has it already. */
    method Repoint(k: nat, i: nat, p: Post, newURL: string, ghost target: string) returns (ok: bool)
      requires Valid() && k < |posts| && i < |posts[k].videos| == |p.videos| && posts[k].videos[i] == p.videos[i]
      requires target == if newURL == "" then p.videos[i] else newURL
      modifies this`ops, this`posts, this`fixed
      ensures Valid() && Now() == old(Now()).(posts := posts, fixed := fixed) && (failing == {} ==> ok)
      ensures IsRepointed(old(posts), old(fixed), k, i, target, ok)
    {
      SameUrl(posts, k, i, p.videos[i]);
      ok := true;
      if newURL != "" && newURL != p.videos[i] {
        ok := SetUrl(k, i, newURL);
        if ok {
          fixed := fixed + 1;
        }
      }
    }

    /** The row loop of migrateIgAccount, once it is known what files the rows are about. */
    method MigrateRows(k: nat, files: set<string>, p: Post, names: seq<Option<string>>, allMissing: bool)
      returns (files': set<string>, refs: set<string>, ok: bool)
      requires Valid() && files == Names(disk) && k < |posts| && p == posts[k]
      requires AreNames(base, files, p, names) && allMissing == AllMissing(base, files, p)
      modifies this`ops, this`disk, this`origin, this`named, this`taken, this`posts, this`fixed
      ensures Valid() && files' == Names(disk) && (failing == {} ==> ok)
      ensures IsOnward(old(Now()), Now(), files, files') && IsPostCounted(old(Now()), Now(), k)
      ensures files' != files ==> IsRenamed(files, p, names)
      ensures ok ==> named <= old(named) + refs && AreRowsDone(files, p, names, |names|, files', refs, failing == {})
      ensures ok ==> AreUrlsDone(files, p, names, allMissing, |names|, posts[k].videos, files')
    {
      files', refs, ok := files, {}, true;
      ghost var start := Now();
      var i := 0;
      while i < |p.videos|
        invariant i <= |p.videos| && Valid()
        invariant AfterRows(start, k, files, names, allMissing, i, files', refs)
      {
        files', refs, ok := MigrateRowAt(k, i, p, names, allMissing, files', refs, start, files);
        if !ok {
          return;
        }
        i := i + 1;
      }
    }

    /** The first `n` rows of post `k` are done, from the state `start`. */
    ghost predicate AfterRows(start: Snapshot, k: nat, files: set<string>, names: seq<Option<string>>, allMissing: bool,
                              n: nat, files': set<string>, refs: set<string>)
      requires k < |start.posts| && n <= |names| == |start.posts[k].videos|
      reads this
    {
      var p := start.posts[k];
      && files' == Names(disk) && IsOnward(start, Now(), files, files') && IsPostCounted(start, Now(), k)
      && AreRowsDone(files, p, names, n, files', refs, failing == {})
      && named <= start.named + refs
      && AreUrlsDone(files, p, names, allMissing, n, posts[k].videos, files')
    }

    method MigrateRowAt(k: nat, i: nat, p: Post, names: seq<Option<string>>, allMissing: bool, files: set<string>,
                        refs: set<string>, ghost start: Snapshot, ghost files0: set<string>)
      returns (files': set<string>, refs': set<string>, ok: bool)
      requires k < |start.posts| && i < |names| == |start.posts[k].videos| && p == start.posts[k]
      requires AreNames(base, files0, p, names) && allMissing == AllMissing(base, files0, p)
      requires Valid() && AfterRows(start, k, files0, names, allMissing, i, files, refs)
      modifies this`ops, this`disk, this`origin, this`named, this`taken, this`posts, this`fixed
      ensures Valid() && (failing == {} ==> ok) && files' == Names(disk)
      ensures IsOnward(start, Now(), files0, files') && IsPostCounted(start, Now(), k)
      ensures files' != files0 ==> IsRenamed(files0, p, names)
      ensures ok ==> AfterRows(start, k, files0, names, allMissing, i + 1, files', refs')
    {
      OneRowMore(files0, p, names, i, files, refs, failing == {});
      ghost var videos := posts[k].videos;
      assert videos == videos[i := videos[i]] && videos[i] == p.videos[i];
      files', refs', ok := files, refs, true;
      if names[i].Some? {
        NamesAreFiles(base, files0, p, names, i);
        var ref;
        files', ref, ok := MigrateRow(k, i, p, names[i].value, allMissing, files);
        UrlsDiffer(p, i, videos, posts[k].videos);
        if ok {
          RowAdvances(files0, p, names, i, refs, files', ref, failing == {});
          refs' := refs + {ref};
        }
      } else {
        RowIsSkipped(files0, p, names, i, refs, failing == {});
      }
      if ok {
        UrlsAdvance(files0, p, names, allMissing, i, videos, posts[k].videos, files');
      }
    }

    /**
     migrateIgAccount's work on one post. Its file is renamed without being counted if and only if it is to be renamed
     and its row has the canonical url already.
     */
    method MigratePost(k: nat, files: set<string>)
      returns (files': set<string>, refs: set<string>, ok: bool, ghost names: seq<Option<string>>)
      requires Valid() && files == Names(disk) && k < |posts|
      modifies this`ops, this`disk, this`origin, this`named, this`taken, this`posts, this`fixed
      ensures Valid() && files' == Names(disk) && (failing == {} ==> ok)
      ensures IsOnward(old(Now()), Now(), files, files') && IsPostCounted(old(Now()), Now(), k)
      ensures ok ==> IsPostStep(base, failing == {}, old(Now()), Now(), k, names, files', refs)
      ensures files' != files ==> WillRename(base, files, old(posts)[k])
      ensures failing == {} ==> (files' != files && fixed == old(fixed) <==> IsSilent(base, files, old(posts)[k]))
    {
      var p := posts[k];
      var resolved, allMissing := ResolveAll(base, files, p);
      if allMissing {
        var paired, legacy := PairUp(files, mtime, p);
        resolved := paired;
      }
      names := resolved;
      files', refs, ok := MigrateRows(k, files, p, resolved, allMissing);
      RenameIsDecided(base, files, p, names);
      if ok {
        RowsMakeAStep(base, failing == {}, old(Now()), Now(), k, names, allMissing, files', refs);
      }
    }

    /** The last loop of migrateIgAccount: unreferenced legacy videos with a referenced file of the same date. */
    method MoveDuplicates(files: set<string>, referenced: set<string>) returns (ok: bool)
      requires Valid() && files == Names(disk) && named <= referenced && gone == {}
      modifies this`ops, this`disk, this`origin, this`moved, this`gone
      ensures Valid() && (failing == {} ==> ok)
      ensures Names(disk) == files - gone && gone <= Duplicates(files, referenced) && AreDuplicates(gone, referenced)
      ensures failing == {} ==> gone == Duplicates(files, referenced)
      ensures moved == old(moved) + |gone| && (gone == {} ==> disk == old(disk))
    {
      var rest := files;
      ghost var dups := Duplicates(files, referenced);
      ok := true;
      while rest != {} && ok
        invariant Valid() && rest <= files && named <= referenced && (failing == {} ==> ok)
        invariant AfterMoves(files, dups, rest) && moved == old(moved) + |gone|
        invariant gone == {} ==> disk == old(disk)
        decreases rest
      {
        var name :| name in rest;
        ok := MoveIfDuplicate(name, files, referenced, dups, rest);
        rest := rest - {name};
      }
    }

    /** All but `rest` have been looked at. */
    ghost predicate AfterMoves(files: set<string>, dups: set<string>, rest: set<string>)
      reads this
    {
      && Names(disk) == files - gone && gone <= dups && gone !! rest
      && (failing == {} ==> dups - rest <= gone)
    }

    method MoveIfDuplicate(name: string, files: set<string>, referenced: set<string>, ghost dups: set<string>,
                           ghost rest: set<string>)
      returns (ok: bool)
      requires Valid() && AfterMoves(files, dups, rest) && name in rest && rest <= files && named <= referenced
      requires dups == Duplicates(files, referenced)
      modifies this`ops, this`disk, this`origin, this`moved, this`gone
      ensures Valid() && (failing == {} ==> ok) && AfterMoves(files, dups, rest - {name})
      ensures moved - |gone| == old(moved) - |old(gone)|
      ensures gone == {} ==> disk == old(disk)
    {
      ok := true;
      if IsDuplicate(name, referenced) {
        ok := MoveOne(name, files, dups, rest);
      }
    }

    method MoveOne(name: string, ghost files: set<string>, ghost dups: set<string>, ghost rest: set<string>)
      returns (ok: bool)
      requires Valid() && AfterMoves(files, dups, rest) && name in rest && name in dups && dups <= files && name !in named
      modifies this`ops, this`disk, this`origin, this`moved, this`gone
      ensures Valid() && (failing == {} ==> ok) && AfterMoves(files, dups, rest - {name})
      ensures moved - |gone| == old(moved) - |old(gone)|
      ensures gone == {} ==> disk == old(disk)
    {
      ok := Works();
      if ok {
        assert name in Names(disk);
        var done := MoveAside(name);
      }
    }

    method MigrateNext(k: nat, files: set<string>, ghost start: Snapshot, ghost all: set<string>,
                       ghost refs0: Option<seq<set<string>>>, ghost refsOf: seq<set<string>>)
      returns (files': set<string>, refs: set<string>, ok: bool)
      requires Valid() && files == Names(disk) && k < |posts| && IsStartOf(base, all, refs0, start)
      requires IsMidway(base, failing == {}, all, refs0, start, Now(), k, refsOf)
      modifies this`ops, this`disk, this`origin, this`named, this`taken, this`posts, this`fixed
      ensures Valid() && files' == Names(disk) && (failing == {} ==> ok) && IsReported(base, start, Now(), k + 1)
      ensures ok ==> IsMidway(base, failing == {}, all, refs0, start, Now(), k + 1, refsOf + [refs])
    {
      ghost var names;
      ghost var was := Now();
      files', refs, ok, names := MigratePost(k, files);
      NextIsReported(base, start, was, Now(), k, files');
      if ok {
        NextIsMidway(base, failing == {}, all, refs0, start, was, Now(), k, names, refs, refsOf);
      }
    }

    method MigratePosts(ghost start: Snapshot, ghost all: set<string>, ghost refs0: Option<seq<set<string>>>)
      returns (files: set<string>, referenced: set<string>, ok: bool, ghost refsOf: seq<set<string>>)
      requires Valid() && start == Now() && IsStartOf(base, all, refs0, start)
      modifies this`ops, this`disk, this`origin, this`named, this`taken, this`posts, this`fixed
      ensures Valid() && files == Names(disk) && (failing == {} ==> ok)
      ensures IsReported(base, start, Now(), |start.posts|)
      ensures ok ==> referenced == Union(refsOf)
      ensures ok ==> IsMidway(base, failing == {}, all, refs0, start, Now(), |start.posts|, refsOf)
    {
      files, referenced, refsOf, ok := Names(disk), {}, [], true;
      var k := 0;
      while k < |posts|
        invariant k <= |posts| && Valid() && files == Names(disk) && referenced == Union(refsOf)
        invariant IsMidway(base, failing == {}, all, refs0, start, Now(), k, refsOf)
      {
        var refs;
        files, refs, ok := MigrateNext(k, files, start, all, refs0, refsOf);
        if !ok {
          SomeRenameOfAll(base, start, Now(), k + 1);
          return;
        }
        UnionGrows(refsOf, refs);
        referenced, refsOf, k := referenced + refs, refsOf + [refs], k + 1;
      }
    }

    /** The last loop, and what the whole run comes to. */
    method EndRun(files: set<string>, referenced: set<string>, ghost all: set<string>,
                  ghost settled: Option<seq<set<string>>>, ghost start: Snapshot, ghost refsOf: seq<set<string>>)
      returns (ok: bool)
      requires Valid() && files == Names(disk) && referenced == Union(refsOf) && gone == {}
      requires IsStartOf(base, all, settled, start)
      requires IsMidway(base, failing == {}, all, settled, start, Now(), |start.posts|, refsOf)
      modifies this`ops, this`disk, this`origin, this`moved, this`gone
      ensures Valid() && (failing == {} ==> ok) && moved == old(moved) + |gone|
      ensures AreDuplicates(gone, Union(refsOf)) && Union(refsOf) <= Names(disk) + taken
      ensures AreResolved(base, start.posts, refsOf) && |refsOf| == |posts|
      ensures AreTidy(base, all, start.posts) ==> RowsKeepFiles(base, Names(disk), posts, refsOf)
      ensures AreTidy(base, all, start.posts) && failing == {} ==>
        IsMigrated(base, Names(disk), posts, refsOf) && MisreportsExactly(base, start, Now(), gone)
      ensures failing == {} && settled.Some? ==>
        disk == start.disk && posts == start.posts && fixed == start.fixed && gone == {}
      ensures ReportsChanges(base, start, Now(), gone, ok, failing == {})
    {
      ghost var now := Now();
      ok := MoveDuplicates(files, referenced);
      assert IsRunEnd(base, failing == {}, all, settled, start, now, Now(), refsOf, gone);
      RunEnds(base, failing == {}, all, settled, start, now, Now(), refsOf, gone);
      RunReports(base, failing == {}, all, settled, start, now, Now(), refsOf, gone, ok);
    }

    /**
     migrateIgAccount. Files are conserved (Valid). No file a row resolved to is moved aside, every moved one has such a
     file of its date, and that one is still there unless a rename took its name away. In a tidy library, also when
     renames fail, what rows mean stays in the folder; with no failure nothing is left to do. When there was nothing to
     do, `settled` being what the rows mean, nothing is done. The counters miss a rename exactly where they can.
     */
    method Migrate(ghost settled: Option<seq<set<string>>>) returns (ok: bool, ghost refsOf: seq<set<string>>)
      requires Valid() && named == taken == gone == {}
      requires settled.Some? ==> IsMigrated(base, Names(disk), posts, settled.value)
      modifies this`ops, this`disk, this`origin, this`named, this`taken, this`posts, this`fixed, this`moved, this`gone
      ensures Valid() && (failing == {} ==> ok)
      ensures ok ==> |refsOf| == |posts| && AreResolved(base, old(posts), refsOf)
      ensures ok ==> AreDuplicates(gone, Union(refsOf)) && Union(refsOf) <= Names(disk) + taken
      ensures moved == old(moved) + |gone|
      ensures ok && IsTidyLibrary(base, old(disk), old(posts)) ==>
        RowsKeepFiles(base, Names(disk), posts, refsOf)
      ensures failing == {} && IsTidyLibrary(base, old(disk), old(posts)) ==>
        IsMigrated(base, Names(disk), posts, refsOf)
      ensures failing == {} && settled.Some? ==>
        disk == old(disk) && posts == old(posts) && fixed == old(fixed) && moved == old(moved)
      ensures ReportsChanges(base, old(Now()), Now(), gone, ok, failing == {})
      ensures failing == {} && IsTidyLibrary(base, old(disk), old(posts)) ==>
        MisreportsExactly(base, old(Now()), Now(), gone)
    {
      ghost var all := Universe(Names(disk), posts);
      ghost var start := Now();
      var files, referenced;
      files, referenced, ok, refsOf := MigratePosts(start, all, settled);
      if ok {
        ok := EndRun(files, referenced, all, settled, start, refsOf);
      } else {
        CutRunReports(base, start, Now());
      }
    }
  }

  /** A second run of the migration renames, repoints and moves nothing. */
  method MigrateTwice(base: UrlBase, mtime: map<string, int>, mtime': map<string, int>, disk: Disk, posts: seq<Post>)
    returns (once: Library, twice: Library)
    requires IsTidyLibrary(base, disk, posts)
    ensures fresh(once) && fresh(twice)
    ensures once.Valid() && once.before == disk
    ensures twice.disk == once.disk && twice.posts == once.posts && twice.fixed == twice.moved == 0
  {
    ghost var refsOf, refsOf';
    once, refsOf := RunClean(base, mtime, disk, posts, None);
    twice, refsOf' := RunClean(base, mtime', once.disk, once.posts, Some(refsOf));
  }

  /** One run in which every operation works. */
  method RunClean(base: UrlBase, mtime: map<string, int>, disk: Disk, posts: seq<Post>,
                  ghost settled: Option<seq<set<string>>>)
    returns (lib: Library, ghost refsOf: seq<set<string>>)
    requires settled.Some? ==> IsMigrated(base, Names(disk), posts, settled.value)
    ensures fresh(lib) && lib.Valid() && lib.before == disk
    ensures IsTidyLibrary(base, disk, posts) ==> IsMigrated(base, Names(lib.disk), lib.posts, refsOf)
    ensures settled.Some? ==> lib.disk == disk && lib.posts == posts && lib.fixed == lib.moved == 0
  {
    lib := new Library(base, mtime, {}, disk, posts);
    var ok;
    ok, refsOf := lib.Migrate(settled);
  }

  // ---------------------------------------------------------------- a rename that nothing counts

  const DATE: Stamp := "2006-01-02_15-04-05_"
  const COPY := DATE + "AQx.mp4"
  const LONE := Post(DATE, "123", ["123.mp4"])
  const COPY_ONLY: Disk := map[Kept(COPY) := Blob(0)]

  function SelfBase(url: string): Option<string> {
    Some(url)
  }

  lemma CopyIsLegacy()
    ensures IsLegacy(COPY, DATE) && !Contains(COPY, "123.mp4") && Names(COPY_ONLY) == {COPY} && Want(LONE) != COPY
  {
    assert COPY[DATE_LEN..] == "AQx.mp4" && COPY[..DATE_LEN] == DATE;
    var rest := "AQx.mp4";
    assert rest[3..] == MP4 && |rest| - |MP4| == 3 && rest[..3][0] == 'A';
    assert rest[..3][0] in rest[..3] && !IsDigit('A');
    assert Kept(COPY) in COPY_ONLY;
    assert Want(LONE)[DATE_LEN] == '1' && COPY[DATE_LEN] == 'A';
    forall i: nat | i <= |COPY| ensures !OccursAt(COPY, i, "123.mp4") {
      assert i + 7 <= |COPY| ==> COPY[i..i + 7][2] != '3';
    }
  }

  lemma CopyIsTidy()
    ensures IsTidyLibrary(SelfBase, COPY_ONLY, [LONE])
  {
    CopyIsLegacy();
    var all := Universe(Names(COPY_ONLY), [LONE]);
    assert Want([LONE][0]) in all;
    assert all == {COPY, Want(LONE)};
    assert [LONE][0] == LONE && IsLocal(SelfBase, all, LONE, "123.mp4");
  }

  lemma CopyAlone()
    ensures WillRename(SelfBase, {COPY}, LONE) && AllMissing(SelfBase, {COPY}, LONE)
    ensures AtMostOne(Legacy({COPY}, DATE))
  {
    CopyIsLegacy();
    assert MatchesOf(SelfBase, {COPY}, LONE, 0) == {};
    assert Legacy({COPY}, DATE) == {COPY};
  }

  /** A legacy video whose row has the canonical url: the folder is tidy, its one post quiet, and its rename silent. */
  lemma CopyIsRenamedSilently()
    ensures IsTidyLibrary(SelfBase, COPY_ONLY, [LONE])
    ensures AllQuiet(SelfBase, Names(COPY_ONLY), [LONE]) && SomeSilent(SelfBase, Names(COPY_ONLY), [LONE], 1)
  {
    CopyIsTidy();
    CopyIsLegacy();
    CopyIsQuiet();
    var posts := [LONE];
    assert IsSilent(SelfBase, {COPY}, posts[0]) && IsQuiet(SelfBase, {COPY}, posts[0]);
  }

  lemma CopyIsQuiet()
    ensures IsSilent(SelfBase, {COPY}, LONE) && IsQuiet(SelfBase, {COPY}, LONE)
  {
    CopyAlone();
    assert CanonicalUrl(LONE) == "123.mp4";
  }

  /** So the run renames a file of the account and reports nothing. */
  method RenameGoesUncounted() returns (lib: Library)
    ensures fresh(lib) && lib.Valid() && lib.before == COPY_ONLY
    ensures lib.fixed == lib.moved == 0 && lib.disk != COPY_ONLY
  {
    CopyIsRenamedSilently();
    lib := new Library(SelfBase, map[], {}, COPY_ONLY, [LONE]);
    var ok, refsOf := lib.Migrate(None);
  }
}
