/** The index of an account's Instagram files: how downloads are named, found again, and adopted under a new name. */
module IgIndex {
  import opened Basics
  import opened Text
  import opened IgFiles
  import opened Instagram
  import IgMigration

  /** The last segment of a url's path, "" when it ends in a slash; None when the url does not parse. */
  type LastSegment = string -> Option<string>

  datatype Name = Name(file: string, base: string)

  /** filepath.Ext(s) != "". */
  predicate HasExt(s: string) {
    s != "" && s[|s| - 1] != '/' && (s[|s| - 1] == '.' || HasExt(s[..|s| - 1]))
  }

  function WithExt(base: string, isVideo: bool): string {
    if HasExt(base) then base else base + if isVideo then MP4 else ".jpg"
  }

  /** igFilename, for an entry whose date prints as `stamp`. */
  function FileName(last: LastSegment, e: Entry, stamp: Stamp): Option<Name> {
    if e.isVideo && e.mediaId != "" then Some(Name(stamp + (e.mediaId + MP4), e.mediaId + MP4))
    else
      match last(e.url)
      case None => None
      case Some(segment) =>
        var base := WithExt(if segment == "" then e.mediaId else segment, e.isVideo);
        Some(Name(stamp + base, base))
  }

  /** The name has an extension: a dot with no slash behind it. */
  lemma {:induction false} HasExtIsExact(s: string)
    ensures HasExt(s) <==> exists i | 0 <= i < |s| :: s[i] == '.' && '/' !in s[i..]
  {
    if s != "" {
      var init, last := s[..|s| - 1], |s| - 1;
      HasExtIsExact(init);
      assert forall i | 0 <= i < last :: s[i..] == init[i..] + [s[last]] && init[i] == s[i];
      assert s[last..] == [s[last]];
      if s[last] == '/' {
        forall i | 0 <= i < |s| ensures '/' in s[i..] { assert s[i..][last - i] == '/'; }
      }
    }
  }

  /**
   The name of a download: a video's date and media id; otherwise the date and the last segment of the url's path, or
   the media id if that is empty, with an extension added where there is none.
   */
  lemma FileNameIsExact(last: LastSegment, e: Entry, stamp: Stamp)
    ensures e.isVideo && e.mediaId != "" ==>
      FileName(last, e, stamp).Some? && FileName(last, e, stamp).value.file == stamp + e.mediaId + ".mp4"
      && FileName(last, e, stamp).value.base == e.mediaId + ".mp4"
    ensures !(e.isVideo && e.mediaId != "") ==> (FileName(last, e, stamp).Some? <==> last(e.url).Some?)
    ensures !(e.isVideo && e.mediaId != "") && last(e.url).Some? ==>
      var name := FileName(last, e, stamp).value;
      var stem := if last(e.url).value == "" then e.mediaId else last(e.url).value;
      && name.file == stamp + name.base
      && (if exists i | 0 <= i < |stem| :: stem[i] == '.' && '/' !in stem[i..] then name.base == stem
          else name.base == stem + if e.isVideo then ".mp4" else ".jpg")
  {
    assert stamp + (e.mediaId + MP4) == stamp + e.mediaId + MP4;
    if last(e.url).Some? {
      HasExtIsExact(if last(e.url).value == "" then e.mediaId else last(e.url).value);
    }
  }

  /** A sync names a post's only video as the migration names it, so neither renames the other's work. */
  lemma SoleVideoHasItsMigratedName(last: LastSegment, item: FeedItem, i: nat, stamp: Stamp, videos: seq<string>)
    requires i < |Entries(item)| && Entries(item)[i].soleVideo && item.id != ""
    ensures
      var name := FileName(last, Entries(item)[i], stamp);
      name.Some? && name.value.file == IgMigration.Want(IgMigration.Post(stamp, item.id, videos))
  {
    SoleVideoIsMarked(item, i);
    assert stamp + item.id + MP4 == stamp + (item.id + MP4);
  }

  /** Videos of one post with different ids get different names, whatever their urls. */
  lemma VideoNamesDiffer(last: LastSegment, a: Entry, b: Entry, stamp: Stamp)
    requires a.isVideo && b.isVideo && a.mediaId != "" && b.mediaId != "" && a.mediaId != b.mediaId
    ensures FileName(last, a, stamp) != FileName(last, b, stamp)
  {
    assert (a.mediaId + MP4)[..|a.mediaId|] == a.mediaId && (b.mediaId + MP4)[..|b.mediaId|] == b.mediaId;
    assert (stamp + (a.mediaId + MP4))[|stamp|..] == a.mediaId + MP4;
    assert (stamp + (b.mediaId + MP4))[|stamp|..] == b.mediaId + MP4;
    if |a.mediaId| != |b.mediaId| {
      assert |a.mediaId + MP4| != |b.mediaId + MP4|;
    }
  }

  predicate Mentions(file: string, base: string, mediaId: string) {
    Contains(file, base) || (mediaId != "" && Contains(file, mediaId))
  }

  /** has: the file itself, or one whose name contains the base name or the media id. */
  predicate Has(files: set<string>, name: Name, mediaId: string) {
    name.file in files || exists file | file in files :: Mentions(file, name.base, mediaId)
  }

  /** Files change only by a legacy video taken over: one name less, one more, and the same file behind it. */
  predicate IsAdoption(files: set<string>, files': set<string>, disk: map<string, IgMigration.Blob>,
                       disk': map<string, IgMigration.Blob>, legacy: Option<string>, to: string)
  {
    if legacy.None? then files' == files && disk' == disk
    else
      && legacy.value in disk && to !in files
      && files' == files - {legacy.value} + {to} && disk' == Move(disk, legacy.value, to)
  }

  class FileIndex {
    const last: LastSegment
    const mtime: map<string, int>
    const failing: set<nat>
    var ops: nat
    var files: set<string>
    var disk: map<string, IgMigration.Blob>

    ghost predicate Valid()
      reads this
    {
      files <= disk.Keys
    }

    constructor (last: LastSegment, mtime: map<string, int>, failing: set<nat>, disk: map<string, IgMigration.Blob>)
      ensures Valid() && files == disk.Keys && this.disk == disk && this.last == last
    {
      this.last, this.mtime, this.failing, this.disk, this.files, this.ops := last, mtime, failing, disk, disk.Keys, 0;
    }

    method AdoptLegacyVideo(stamp: Stamp, file: string) returns (found: bool, ghost legacy: Option<string>)
      requires Valid()
      modifies this`ops, this`files, this`disk
      ensures Valid() && IsAdoption(old(files), files, old(disk), disk, legacy, file)
      ensures found <==> file in files
      ensures legacy.Some? ==> IsNewestLegacy(old(files), mtime, stamp, legacy)
      ensures failing == {} && !found ==> IsNewestLegacy(old(files), mtime, stamp, None)
    {
      legacy := None;
      if file in files {
        return true, None;
      }
      var newest := NewestLegacy(files, mtime, stamp);
      if newest.None? {
        return false, None;
      }
      ops := ops + 1;
      if ops in failing {
        return false, None;
      }
      disk := Move(disk, newest.value, file);
      files := files - {newest.value} + {file};
      return true, newest;
    }

    /** exists, for an entry whose date prints as `stamp`. */
    method Exists(e: Entry, stamp: Stamp) returns (found: bool, ghost legacy: Option<string>)
      requires Valid()
      modifies this`ops, this`files, this`disk
      ensures Valid()
      ensures FileName(last, e, stamp).None? ==> !found && legacy.None?
      ensures FileName(last, e, stamp).Some? ==>
        var name := FileName(last, e, stamp).value;
        && (found <==> name.file in files
                       || exists file | file in files ::
                            Contains(file, name.base) || (e.mediaId != "" && Contains(file, e.mediaId)))
        && found == Has(files, name, e.mediaId) && IsAdoption(old(files), files, old(disk), disk, legacy, name.file)
        && (legacy.Some? ==> e.soleVideo && !Has(old(files), name, e.mediaId))
      ensures legacy.None? ==> files == old(files) && disk == old(disk)
      ensures legacy.Some? ==> IsNewestLegacy(old(files), mtime, stamp, legacy)
    {
      var name := FileName(last, e, stamp);
      legacy := None;
      if name.None? {
        return false, None;
      }
      found := Has(files, name.value, e.mediaId);
      if !found && e.soleVideo {
        found, legacy := AdoptLegacyVideo(stamp, name.value.file);
      }
    }
  }

  predicate Finds(last: LastSegment, files: set<string>, e: Entry, stamp: Stamp) {
    FileName(last, e, stamp).Some? && Has(files, FileName(last, e, stamp).value, e.mediaId)
  }

  /**
   The check of a post's files put to a real index: its verdict is the scan's for the entries it reports missing, and
   of those the first is not in the index afterwards either, adoption included.
   */
  method CheckPost(index: FileIndex, takenAt: int, entries: seq<Entry>, cfg: Config, stamp: Stamp)
    returns (allExisting: bool, ghost missing: set<nat>)
    requires index.Valid()
    modifies index
    ensures index.Valid()
    ensures allExisting == AllExisting(Post(takenAt, entries, missing), cfg)
    ensures forall i | i in missing :: i < |entries| && !Finds(index.last, index.files, entries[i], stamp)
    ensures cfg.forceFull || missing == {} ==> allExisting == (!cfg.forceFull && |entries| > 0)
  {
    allExisting, missing := false, {};
    NoneAreMissing(|entries|);
    if !cfg.forceFull {
      allExisting := |entries| > 0;
      var i, found := 0, true;
      while i < |entries| && found
        invariant i <= |entries|
        invariant found ==> missing == {} && allExisting == (|entries| > 0)
        invariant !found ==>
          && !allExisting && i < |entries| && missing == {i} && !NoneMissing(missing, |entries|)
          && !Finds(index.last, index.files, entries[i], stamp)
        invariant index.Valid()
        decreases |entries| - i, found
      {
        ghost var legacy;
        found, legacy := index.Exists(entries[i], stamp);
        if !found {
          allExisting, missing := false, {i};
          MissingCounts(missing, i, |entries|);
        } else {
          i := i + 1;
        }
      }
    }
  }

  lemma {:induction false} NoneAreMissing(n: nat)
    ensures NoneMissing({}, n)
  {
    if n > 0 {
      NoneAreMissing(n - 1);
    }
  }

  /** What was found once is found again, and asking again moves nothing. */
  method AskTwice(index: FileIndex, e: Entry, stamp: Stamp)
    returns (first: bool, second: bool, ghost moved: Option<string>)
    requires index.Valid()
    modifies index
    ensures index.Valid() && (first ==> second && moved.None?)
  {
    first, moved := index.Exists(e, stamp);
    second, moved := index.Exists(e, stamp);
  }
}
