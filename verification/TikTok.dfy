/** Canonical TikTok file names: how ids are read out of names, and the pass that renames a whole folder. */
module TikTok {
  import opened Basics
  import opened Text
  import opened IgFiles

  datatype Blob = Blob(content: int)

  datatype VideoId = VideoId(id: string, ext: string)

  /** igDatePrefix of the instant so many seconds after the Unix epoch. */
  type Calendar = nat -> Stamp

  const MIN_ID := 15
  const TRANSCODING := ".transcoding."

  /** The part after the last `c`, or all of it. */
  function AfterLast(s: string, c: char): (r: string)
    ensures c !in r
    ensures c !in s ==> r == s
  {
    if c !in s then s
    else if s[|s| - 1] == c then ""
    else AfterLast(s[..|s| - 1], c) + [s[|s| - 1]]
  }

  /** ttVideoID. */
  function VideoIdOf(name: string): Option<VideoId> {
    var dot := IndexOf(name, '.');
    var id, ext := AfterLast(name[..dot], '_'), if dot < |name| then name[dot + 1..] else "";
    if |id| < MIN_ID || ext == "" || ParseUint(id).None? then None else Some(VideoId(id, ext))
  }

  /** The upper half of the id is its creation time. */
  function Canonical(calendar: Calendar, v: VideoId): string
    requires ParseUint(v.id).Some?
  {
    calendar(ParseUint(v.id).value / 0x1_0000_0000) + v.id + "." + v.ext
  }

  lemma {:induction false} AfterLastOf(s: string, t: string, c: char)
    requires c !in t
    ensures AfterLast(s + [c] + t, c) == t
  {
    var all := s + [c] + t;
    if t == "" {
      assert all == s + [c];
    } else {
      assert all[..|all| - 1] == s + [c] + t[..|t| - 1];
      AfterLastOf(s, t[..|t| - 1], c);
      assert t == t[..|t| - 1] + [t[|t| - 1]];
    }
  }

  lemma DatedName(stamp: Stamp, id: string, ext: string)
    requires |id| >= MIN_ID && ParseUint(id).Some? && ext != ""
    ensures VideoIdOf(stamp + id + "." + ext) == Some(VideoId(id, ext))
  {
    var name := stamp + id + "." + ext;
    assert forall c | c in id :: IsDigit(c);
    assert name == (stamp + id) + ['.'] + ext;
    IndexOfFirst(stamp + id, ext, '.');
    assert name[..|stamp + id|] == stamp + id && name[|stamp + id| + 1..] == ext;
    assert stamp + id == stamp[..DATE_LEN - 1] + ['_'] + id;
    AfterLastOf(stamp[..DATE_LEN - 1], id, '_');
  }

  /** Reading an id out of a canonical name undoes making the name. */
  lemma CanonicalIsRead(calendar: Calendar, name: string)
    requires VideoIdOf(name).Some?
    ensures VideoIdOf(Canonical(calendar, VideoIdOf(name).value)) == VideoIdOf(name)
  {
    var v := VideoIdOf(name).value;
    DatedName(calendar(ParseUint(v.id).value / 0x1_0000_0000), v.id, v.ext);
  }

  /** A name made of a part that is empty or ends in an underscore, at least 15 digits, a dot and an extension. */
  predicate IsVideoName(name: string, before: string, v: VideoId) {
    && name == before + v.id + "." + v.ext && '.' !in before && (before == "" || before[|before| - 1] == '_')
    && |v.id| >= 15 && (forall c | c in v.id :: '0' <= c <= '9') && Decimal(v.id) < 0x1_0000_0000_0000_0000
    && v.ext != ""
  }

  lemma {:induction false} LastPart(s: string, c: char) returns (before: string)
    ensures s == before + AfterLast(s, c) && (before == "" || before[|before| - 1] == c)
  {
    if c !in s {
      before := "";
    } else if s[|s| - 1] == c {
      before := s;
    } else {
      before := LastPart(s[..|s| - 1], c);
    }
  }

  /** The names ttVideoID reads a video out of are exactly these, dated or not, and this is what it reads. */
  lemma VideoIdIsExact(name: string, v: VideoId)
    ensures VideoIdOf(name) == Some(v) <==> exists before :: IsVideoName(name, before, v)
  {
    if VideoIdOf(name) == Some(v) {
      var before := VideoIsNamed(name, v);
    }
    if before :| IsVideoName(name, before, v) {
      VideoIsRead(name, before, v);
    }
  }

  lemma VideoIsNamed(name: string, v: VideoId) returns (before: string)
    requires VideoIdOf(name) == Some(v)
    ensures IsVideoName(name, before, v)
  {
    var dot := IndexOf(name, '.');
    var head := name[..dot];
    before := LastPart(head, '_');
    assert head == before + v.id && before == head[..|before|];
    assert forall c | c in before :: c in head;
    assert forall c | c in v.id :: IsDigit(c);
    DotBetween(name, dot);
  }

  lemma DotBetween(name: string, dot: nat)
    requires dot < |name| && name[dot] == '.'
    ensures name == name[..dot] + "." + name[dot + 1..]
  {
  }

  lemma VideoIsRead(name: string, before: string, v: VideoId)
    requires IsVideoName(name, before, v)
    ensures VideoIdOf(name) == Some(v)
  {
    assert forall c | c in v.id :: IsDigit(c);
    var head := before + v.id;
    assert '.' !in head && name == head + ['.'] + v.ext;
    CutAtDot(head, v.ext);
    IdIsLast(before, v.id);
  }

  lemma CutAtDot(head: string, ext: string)
    requires '.' !in head
    ensures
      var name := head + ['.'] + ext;
      IndexOf(name, '.') == |head| && name[..|head|] == head && name[|head| + 1..] == ext
  {
    IndexOfFirst(head, ext, '.');
  }

  lemma IdIsLast(before: string, id: string)
    requires '_' !in id && (before == "" || before[|before| - 1] == '_')
    ensures AfterLast(before + id, '_') == id
  {
    if before == "" {
      assert before + id == id;
    } else {
      assert before + id == before[..|before| - 1] + ['_'] + id;
      AfterLastOf(before[..|before| - 1], id, '_');
    }
  }

  /** The canonical name carries the second that the upper half of the id counts. */
  lemma CanonicalTells(calendar: Calendar, v: VideoId) returns (second: nat)
    requires ParseUint(v.id).Some?
    ensures Canonical(calendar, v) == calendar(second) + v.id + "." + v.ext
    ensures second * 0x1_0000_0000 <= Decimal(v.id) < (second + 1) * 0x1_0000_0000
  {
    second := Decimal(v.id) / 0x1_0000_0000;
  }

  // ---------------------------------------------------------------- which files are renamed

  predicate IsEligible(name: string) {
    !HasPrefix(name, ".") && !Contains(name, TRANSCODING)
  }

  lemma OccursLater(s: string, t: string, i: nat, sub: string)
    ensures OccursAt(s + t, |s| + i, sub) <==> OccursAt(t, i, sub)
  {
    if i + |sub| <= |t| {
      assert (s + t)[|s| + i..|s| + i + |sub|] == t[i..i + |sub|];
    }
  }

  lemma DotIsNotBefore(s: string, t: string, i: nat, sub: string)
    requires '.' !in s && sub != "" && sub[0] == '.' && OccursAt(s + t, i, sub)
    ensures i >= |s|
  {
    assert (s + t)[i] == (s + t)[i..i + |sub|][0] == '.';
  }

  lemma AfterFirstDot(s: string, t: string, sub: string)
    requires '.' !in s && sub != "" && sub[0] == '.'
    ensures Contains(s + t, sub) <==> Contains(t, sub)
  {
    if Contains(s + t, sub) {
      var i: nat :| i <= |s + t| && OccursAt(s + t, i, sub);
      DotIsNotBefore(s, t, i, sub);
      OccursLater(s, t, i - |s|, sub);
    }
    if Contains(t, sub) {
      var i: nat :| i <= |t| && OccursAt(t, i, sub);
      OccursLater(s, t, i, sub);
    }
  }

  /** A canonical name is no more hidden or in transcoding than the name it was read from. */
  lemma CanonicalIsEligible(calendar: Calendar, name: string)
    requires IsEligible(name) && VideoIdOf(name).Some?
    ensures IsEligible(Canonical(calendar, VideoIdOf(name).value))
  {
    var dot, v := IndexOf(name, '.'), VideoIdOf(name).value;
    var stamp := calendar(ParseUint(v.id).value / 0x1_0000_0000);
    var want := Canonical(calendar, v);
    assert name == name[..dot] + ("." + v.ext);
    assert want == stamp + v.id + ("." + v.ext);
    AfterFirstDot(name[..dot], "." + v.ext, TRANSCODING);
    AfterFirstDot(stamp + v.id, "." + v.ext, TRANSCODING);
    assert want[..1][0] == want[0] == stamp[0] && stamp[0] in stamp;
  }

  /** The name the pass gives a file; None for files it leaves alone. */
  function NameFor(calendar: Calendar, name: string): Option<string> {
    if !IsEligible(name) || VideoIdOf(name).None? then None else Some(Canonical(calendar, VideoIdOf(name).value))
  }

  /** The files that get a name: not hidden, not in transcoding, and named by an id. */
  lemma NameForIsExact(calendar: Calendar, name: string)
    ensures NameFor(calendar, name).Some? <==>
      && !(name != "" && name[0] == '.') && !Contains(name, ".transcoding.")
      && exists v, before :: IsVideoName(name, before, v)
    ensures forall v, before | IsVideoName(name, before, v) && NameFor(calendar, name).Some? ::
              ParseUint(v.id).Some? && NameFor(calendar, name) == Some(Canonical(calendar, v))
  {
    assert name != "" ==> (HasPrefix(name, ".") <==> name[..1][0] == '.');
    if VideoIdOf(name).Some? {
      VideoIdIsExact(name, VideoIdOf(name).value);
    }
    forall v, before | IsVideoName(name, before, v) ensures VideoIdOf(name) == Some(v) {
      VideoIsRead(name, before, v);
    }
  }

  /** The naming of TikTok files, as a rule for the pass. */
  function NamingOf(calendar: Calendar): Naming {
    n => NameFor(calendar, n)
  }

  lemma NamesAreFinal(calendar: Calendar)
    ensures IsFinal(NamingOf(calendar))
  {
    forall n | NameFor(calendar, n).Some? ensures NameFor(calendar, NameFor(calendar, n).value) == NameFor(calendar, n) {
      CanonicalIsRead(calendar, n);
      CanonicalIsEligible(calendar, n);
    }
  }

  /** Two files get one name only if they are the same video in the same format. */
  lemma SameNameSameVideo(calendar: Calendar, a: string, b: string)
    requires NameFor(calendar, a).Some? && NameFor(calendar, a) == NameFor(calendar, b)
    ensures VideoIdOf(a) == VideoIdOf(b)
  {
    CanonicalIsRead(calendar, a);
    CanonicalIsRead(calendar, b);
  }

  // ---------------------------------------------------------------- one pass over a folder

  type Naming = string -> Option<string>

  /** A file under the name it is given keeps it. */
  ghost predicate IsFinal(naming: Naming) {
    forall n :: naming(n).Some? ==> naming(naming(n).value) == naming(n)
  }

  /** `origin` says what each file was called at first: none is lost, doubled or changed. */
  ghost predicate Conserves(before: map<string, Blob>, now: map<string, Blob>, origin: map<string, string>) {
    && origin.Keys == now.Keys && origin.Values == before.Keys
    && (forall n | n in now :: origin[n] in before && now[n] == before[origin[n]])
    && (forall m, n | m in origin && n in origin && origin[m] == origin[n] :: m == n)
  }

  lemma MoveConserves(before: map<string, Blob>, now: map<string, Blob>, origin: map<string, string>, a: string,
                      b: string)
    requires Conserves(before, now, origin) && a in now && b !in now
    ensures Conserves(before, Move(now, a, b), Move(origin, a, b))
  {
    var origin' := Move(origin, a, b);
    forall o | o in before ensures o in origin'.Values {
      var n :| n in origin && origin[n] == o;
      assert origin'[if n == a then b else n] == o;
    }
  }

  /** The names taken: files and folders. */
  function Taken(disk: map<string, Blob>, dirs: set<string>): set<string> {
    disk.Keys + dirs
  }

  /** The names the files of a folder ask for. */
  function Wanted(naming: Naming, disk: map<string, Blob>): set<string> {
    set n | n in disk && naming(n).Some? :: naming(n).value
  }

  /** A file the pass renames: the name it asks for is another one, and free. */
  predicate NeedsRename(naming: Naming, dirs: set<string>, disk: map<string, Blob>, name: string) {
    && name in disk && name !in dirs && naming(name).Some? && naming(name).value != name
    && naming(name).value !in Taken(disk, dirs)
  }

  /** The pass has nothing to do for a file: some file or folder has the name it asks for. */
  predicate IsSettled(naming: Naming, dirs: set<string>, disk: map<string, Blob>, name: string) {
    name in disk && naming(name).Some? ==> naming(name).value in Taken(disk, dirs)
  }

  ghost predicate AllSettled(naming: Naming, dirs: set<string>, disk: map<string, Blob>) {
    forall name :: IsSettled(naming, dirs, disk, name)
  }

  predicate IsListing(entries: seq<string>, disk: map<string, Blob>, dirs: set<string>) {
    && (forall n | n in disk :: n in entries)
    && (forall e | e in entries :: e in Taken(disk, dirs))
    && (forall i, j | 0 <= i < j < |entries| :: entries[i] != entries[j])
  }

  /** The entries from `i` on are still to come; `exact` when every rename works. */
  ghost predicate InPass(naming: Naming, dirs: set<string>, before: map<string, Blob>, disk: map<string, Blob>,
                         entries: seq<string>, i: nat, exact: bool)
    requires i <= |entries|
  {
    && (forall j | i <= j < |entries| :: entries[j] in Taken(disk, dirs))
    && (exact ==> forall n :: n in entries[i..] || IsSettled(naming, dirs, disk, n))
    && Wanted(naming, before) == Wanted(naming, disk)
  }

  /** The same with the number of renames so far. */
  ghost predicate IsPassing(naming: Naming, dirs: set<string>, before: map<string, Blob>, disk: map<string, Blob>,
                            entries: seq<string>, i: nat, renamed: nat, exact: bool)
    requires i <= |entries|
  {
    && InPass(naming, dirs, before, disk, entries, i, exact)
    && (AllSettled(naming, dirs, before) ==> renamed == 0)
    && (renamed == 0 ==> disk == before)
  }

  lemma PassStarts(naming: Naming, dirs: set<string>, disk: map<string, Blob>, entries: seq<string>, exact: bool)
    requires IsListing(entries, disk, dirs)
    ensures IsPassing(naming, dirs, disk, disk, entries, 0, 0, exact)
  {
    assert entries[0..] == entries;
  }

  lemma PassEnds(naming: Naming, dirs: set<string>, before: map<string, Blob>, disk: map<string, Blob>,
                 entries: seq<string>, renamed: nat, exact: bool)
    requires IsPassing(naming, dirs, before, disk, entries, |entries|, renamed, exact)
    ensures IsPassed(naming, dirs, before, disk, renamed, exact)
  {
    assert entries[|entries|..] == [];
  }

  /** What a whole pass comes to. */
  ghost predicate IsPassed(naming: Naming, dirs: set<string>, before: map<string, Blob>, disk: map<string, Blob>,
                           renamed: nat, exact: bool)
  {
    && Wanted(naming, disk) == Wanted(naming, before)
    && (exact ==> AllSettled(naming, dirs, disk))
    && (AllSettled(naming, dirs, before) ==> renamed == 0)
    && (renamed == 0 ==> disk == before)
  }

  lemma SettledNeedsNone(naming: Naming, dirs: set<string>, disk: map<string, Blob>, name: string)
    requires NeedsRename(naming, dirs, disk, name)
    ensures !AllSettled(naming, dirs, disk)
  {
    assert !IsSettled(naming, dirs, disk, name);
  }

  lemma PassSkips(naming: Naming, dirs: set<string>, before: map<string, Blob>, disk: map<string, Blob>,
                  entries: seq<string>, i: nat, exact: bool)
    requires i < |entries| && InPass(naming, dirs, before, disk, entries, i, exact) && disk.Keys !! dirs
    requires exact ==> !NeedsRename(naming, dirs, disk, entries[i])
    ensures InPass(naming, dirs, before, disk, entries, i + 1, exact)
  {
    assert entries[i..] == [entries[i]] + entries[i + 1..];
  }

  lemma RenameKeepsWanted(naming: Naming, dirs: set<string>, disk: map<string, Blob>, name: string)
    requires IsFinal(naming) && NeedsRename(naming, dirs, disk, name)
    ensures Wanted(naming, Move(disk, name, naming(name).value)) == Wanted(naming, disk)
  {
    var want := naming(name).value;
    var disk' := Move(disk, name, want);
    assert naming(want) == Some(want);
    forall v ensures v in Wanted(naming, disk) <==> v in Wanted(naming, disk') {
      if v in Wanted(naming, disk) {
        var n :| n in disk && naming(n) == Some(v);
        assert (if n == name then want else n) in disk';
      }
      if v in Wanted(naming, disk') {
        var n :| n in disk' && naming(n) == Some(v);
        assert (if n == want then name else n) in disk;
      }
    }
  }

  /** Renaming to the name asked for unsettles no other file: nobody's name is taken away. */
  lemma PassRenames(naming: Naming, dirs: set<string>, before: map<string, Blob>, disk: map<string, Blob>,
                    entries: seq<string>, i: nat, exact: bool)
    requires i < |entries| && InPass(naming, dirs, before, disk, entries, i, exact) && IsFinal(naming)
    requires forall j, k | 0 <= j < k < |entries| :: entries[j] != entries[k]
    requires NeedsRename(naming, dirs, disk, entries[i])
    ensures InPass(naming, dirs, before, Move(disk, entries[i], naming(entries[i]).value), entries, i + 1, exact)
  {
    var name := entries[i];
    var disk' := Move(disk, name, naming(name).value);
    RenameKeepsWanted(naming, dirs, disk, name);
    assert entries[i..] == [name] + entries[i + 1..];
    if exact {
      forall n ensures n in entries[i + 1..] || IsSettled(naming, dirs, disk', n) {
        assert n in entries[i..] || IsSettled(naming, dirs, disk, n);
      }
    }
  }

  /** One account's folder; operations numbered in `failing` fail and change nothing. */
  class Folder {
    const naming: Naming
    const dirs: set<string>
    const failing: set<nat>
    var ops: nat
    var disk: map<string, Blob>
    ghost const before: map<string, Blob>
    ghost var origin: map<string, string>

    ghost predicate Valid()
      reads this
    {
      Conserves(before, disk, origin) && disk.Keys !! dirs
    }

    constructor (naming: Naming, dirs: set<string>, failing: set<nat>, disk: map<string, Blob>)
      requires disk.Keys !! dirs
      ensures Valid() && this.naming == naming && this.dirs == dirs && this.failing == failing
      ensures this.disk == before == disk
    {
      this.naming, this.dirs, this.failing, this.disk, this.ops := naming, dirs, failing, disk, 0;
      this.before, this.origin := disk, map n | n in disk :: n;
      new;
      assert forall n | n in disk :: origin[n] == n;
    }

    method Rename(name: string, want: string) returns (ok: bool)
      requires Valid() && name in disk && want !in disk && want !in dirs
      modifies this
      ensures Valid() && disk == if ok then Move(old(disk), name, want) else old(disk)
      ensures failing == {} ==> ok
    {
      ok := ops !in failing;
      ops := ops + 1;
      if ok {
        MoveConserves(before, disk, origin, name, want);
        disk, origin := Move(disk, name, want), Move(origin, name, want);
      }
    }

    /** NormalizeTikTokNames over a directory listing, files and folders in any order. */
    method Normalize(entries: seq<string>) returns (renamed: nat)
      requires Valid() && IsFinal(naming) && IsListing(entries, disk, dirs)
      modifies this
      ensures Valid() && IsPassed(naming, dirs, old(disk), disk, renamed, failing == {})
    {
      renamed := 0;
      PassStarts(naming, dirs, disk, entries, failing == {});
      var i := 0;
      while i < |entries|
        invariant i <= |entries| && Valid()
        invariant IsPassing(naming, dirs, old(disk), disk, entries, i, renamed, failing == {})
      {
        renamed := NormalizeNext(entries, i, renamed, old(disk));
        i := i + 1;
      }
      PassEnds(naming, dirs, old(disk), disk, entries, renamed, failing == {});
    }

    method NormalizeNext(entries: seq<string>, i: nat, renamed0: nat, ghost before: map<string, Blob>)
      returns (renamed: nat)
      requires Valid() && IsFinal(naming) && i < |entries|
      requires forall j, k | 0 <= j < k < |entries| :: entries[j] != entries[k]
      requires IsPassing(naming, dirs, before, disk, entries, i, renamed0, failing == {})
      modifies this
      ensures Valid() && IsPassing(naming, dirs, before, disk, entries, i + 1, renamed, failing == {})
    {
      var done := NormalizeOne(entries[i]);
      if done {
        PassRenames(naming, dirs, before, old(disk), entries, i, failing == {});
        SettledNeedsNone(naming, dirs, old(disk), entries[i]);
        renamed := renamed0 + 1;
      } else {
        PassSkips(naming, dirs, before, disk, entries, i, failing == {});
        renamed := renamed0;
      }
    }

    method NormalizeOne(name: string) returns (done: bool)
      requires Valid() && name in Taken(disk, dirs)
      modifies this
      ensures Valid()
      ensures done ==> NeedsRename(naming, dirs, old(disk), name)
      ensures done ==> disk == Move(old(disk), name, naming(name).value)
      ensures !done ==> disk == old(disk) && (failing == {} ==> !NeedsRename(naming, dirs, disk, name))
    {
      if name in dirs {
        return false;
      }
      var want := naming(name);
      if want.None? || want.value == name || want.value in disk || want.value in dirs {
        return false;
      }
      done := Rename(name, want.value);
    }
  }

  // ---------------------------------------------------------------- the pass over TikTok names

  /** Every video of the folder has its canonical file, or a folder of that name. */
  ghost predicate AllCanonical(calendar: Calendar, dirs: set<string>, disk: map<string, Blob>) {
    forall name | name in disk && IsEligible(name) && VideoIdOf(name).Some? ::
      Canonical(calendar, VideoIdOf(name).value) in Taken(disk, dirs)
  }

  /** The videos of a folder, whatever they are called. */
  function Videos(disk: map<string, Blob>): set<VideoId> {
    set name | name in disk && IsEligible(name) && VideoIdOf(name).Some? :: VideoIdOf(name).value
  }

  lemma SettledIsCanonical(calendar: Calendar, dirs: set<string>, disk: map<string, Blob>)
    ensures AllSettled(NamingOf(calendar), dirs, disk) <==> AllCanonical(calendar, dirs, disk)
  {
    if AllSettled(NamingOf(calendar), dirs, disk) {
      forall name | name in disk && IsEligible(name) && VideoIdOf(name).Some?
        ensures Canonical(calendar, VideoIdOf(name).value) in Taken(disk, dirs)
      {
        assert IsSettled(NamingOf(calendar), dirs, disk, name);
      }
    }
    if AllCanonical(calendar, dirs, disk) {
      forall name ensures IsSettled(NamingOf(calendar), dirs, disk, name) {
      }
    }
  }

  /** Folders whose files ask for the same names hold the same videos. */
  lemma WantedIsVideos(calendar: Calendar, disk: map<string, Blob>, disk': map<string, Blob>, v: VideoId)
    requires Wanted(NamingOf(calendar), disk) <= Wanted(NamingOf(calendar), disk') && v in Videos(disk)
    ensures v in Videos(disk')
  {
    var name :| name in disk && IsEligible(name) && VideoIdOf(name) == Some(v);
    assert NamingOf(calendar)(name) == Some(Canonical(calendar, v));
    assert Canonical(calendar, v) in Wanted(NamingOf(calendar), disk');
    var other :| other in disk' && NamingOf(calendar)(other) == Some(Canonical(calendar, v));
    SameNameSameVideo(calendar, name, other);
  }

  lemma SameVideos(calendar: Calendar, disk: map<string, Blob>, disk': map<string, Blob>)
    requires Wanted(NamingOf(calendar), disk) == Wanted(NamingOf(calendar), disk')
    ensures Videos(disk) == Videos(disk')
  {
    forall v ensures v in Videos(disk') <==> v in Videos(disk) {
      if v in Videos(disk) { WantedIsVideos(calendar, disk, disk', v); }
      if v in Videos(disk') { WantedIsVideos(calendar, disk', disk, v); }
    }
  }

  /**
   NormalizeTikTokNames on one account: no file and no video is lost; if every rename works every video is under its
   canonical name afterwards; and nothing is renamed where that already was so.
   */
  method NormalizeAccount(calendar: Calendar, dirs: set<string>, failing: set<nat>, disk: map<string, Blob>,
                          entries: seq<string>)
    returns (folder: Folder, renamed: nat)
    requires disk.Keys !! dirs && IsListing(entries, disk, dirs)
    ensures fresh(folder) && folder.Valid() && folder.before == disk && folder.dirs == dirs
    ensures Videos(folder.disk) == Videos(disk)
    ensures failing == {} ==> AllCanonical(calendar, dirs, folder.disk)
    ensures AllCanonical(calendar, dirs, disk) ==> renamed == 0
    ensures renamed == 0 ==> folder.disk == disk
  {
    NamesAreFinal(calendar);
    folder := new Folder(NamingOf(calendar), dirs, failing, disk);
    renamed := folder.Normalize(entries);
    SettledIsCanonical(calendar, dirs, disk);
    SettledIsCanonical(calendar, dirs, folder.disk);
    SameVideos(calendar, disk, folder.disk);
  }

  /** After one pass that works, a second one renames nothing. */
  method NormalizeTwice(calendar: Calendar, dirs: set<string>, disk: map<string, Blob>, failing: set<nat>,
                        entries: seq<string>)
    returns (once: Folder, twice: Folder, renamed: nat)
    requires disk.Keys !! dirs && IsListing(entries, disk, dirs)
    ensures once.Valid() && once.before == disk && AllCanonical(calendar, dirs, once.disk)
    ensures twice.disk == once.disk && renamed == 0
  {
    var first;
    once, first := NormalizeAccount(calendar, dirs, {}, disk, entries);
    var listing := List(once.disk, dirs);
    twice, renamed := NormalizeAccount(calendar, dirs, failing, once.disk, listing);
  }

  /** os.ReadDir, in some order. */
  method List(disk: map<string, Blob>, dirs: set<string>) returns (entries: seq<string>)
    ensures IsListing(entries, disk, dirs)
  {
    entries := [];
    var rest := Taken(disk, dirs);
    while rest != {}
      invariant forall n | n in Taken(disk, dirs) :: n in entries || n in rest
      invariant forall e | e in entries :: e in Taken(disk, dirs) - rest
      invariant rest <= Taken(disk, dirs)
      invariant forall i, j | 0 <= i < j < |entries| :: entries[i] != entries[j]
      decreases rest
    {
      var n :| n in rest;
      assert forall i | 0 <= i < |entries| :: entries[i] in entries;
      entries, rest := entries + [n], rest - {n};
    }
  }

  // ---------------------------------------------------------------- the download archive

  predicate IsIdOf(names: seq<string>, id: string) {
    exists i | 0 <= i < |names| :: VideoIdOf(names[i]).Some? && VideoIdOf(names[i]).value.id == id
  }

  /** SeedArchiveFromFiles: the ids to append, given the words already in the archive. */
  method SeedArchive(names: seq<string>, words: set<string>) returns (add: seq<string>)
    ensures forall id :: id in add <==> id !in words && IsIdOf(names, id)
    ensures forall i, j | 0 <= i < j < |add| :: add[i] != add[j]
  {
    var seen := words;
    add := [];
    var i := 0;
    while i < |names|
      invariant i <= |names| && (forall id :: id in seen <==> id in words || id in add)
      invariant forall id :: id in add <==> id !in words && IsIdOf(names[..i], id)
      invariant forall i, j | 0 <= i < j < |add| :: add[i] != add[j]
    {
      var v := VideoIdOf(names[i]);
      IdsGrow(names, i);
      if v.Some? && v.value.id !in seen {
        seen, add := seen + {v.value.id}, add + [v.value.id];
      }
      i := i + 1;
    }
    assert names[..i] == names;
  }

  lemma IdsGrow(names: seq<string>, n: nat)
    requires n < |names|
    ensures forall id :: IsIdOf(names[..n + 1], id) <==>
      IsIdOf(names[..n], id) || (VideoIdOf(names[n]).Some? && VideoIdOf(names[n]).value.id == id)
  {
    forall id ensures IsIdOf(names[..n + 1], id) <==>
      IsIdOf(names[..n], id) || (VideoIdOf(names[n]).Some? && VideoIdOf(names[n]).value.id == id)
    {
      assert names[..n + 1][n] == names[n];
      assert forall i | 0 <= i < n :: names[..n + 1][i] == names[..n][i];
    }
  }
}
