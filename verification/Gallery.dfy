/** The gallery's layered caches: what the maps of a target hold, and how old the data behind them can be. */
module Gallery {
  import opened Basics
  import opened Text

  datatype Post = Post(id: string, text: string, urls: seq<string>)

  /** The base name of a media url's path; None when there is none. */
  type UrlBase = string -> Option<string>

  const TWEET := "tweet:"
  const VIDEO_NAME := "_video.mp4"

  // ---------------------------------------------------------------- urls to local files

  function FirstContaining(names: seq<string>, sub: string): Option<string> {
    if names == [] then None
    else
      var earlier := FirstContaining(names[..|names| - 1], sub);
      if earlier.Some? then earlier
      else if Contains(names[|names| - 1], sub) then Some(names[|names| - 1]) else None
  }

  /** The local file of a url: the one of its base name, or else the first whose name contains it. */
  function Resolve(base: UrlBase, names: seq<string>, url: string): Option<string> {
    match base(url)
    case None => None
    case Some(b) => if b in names then Some(b) else FirstContaining(names, b)
  }

  function WithUrl(base: UrlBase, names: seq<string>, res: map<string, string>, url: string): map<string, string> {
    if Resolve(base, names, url).Some? then res[url := Resolve(base, names, url).value] else res
  }

  function WithUrls(base: UrlBase, names: seq<string>, res: map<string, string>, urls: seq<string>)
    : map<string, string>
  {
    if urls == [] then res
    else WithUrl(base, names, WithUrls(base, names, res, urls[..|urls| - 1]), urls[|urls| - 1])
  }

  function WithTweet(names: seq<string>, res: map<string, string>, id: string): map<string, string> {
    if id != "" && id + VIDEO_NAME in names then res[TWEET + id := id + VIDEO_NAME] else res
  }

  function UrlMap(base: UrlBase, names: seq<string>, posts: seq<Post>): map<string, string> {
    if posts == [] then map[]
    else
      var p := posts[|posts| - 1];
      WithTweet(names, WithUrls(base, names, UrlMap(base, names, posts[..|posts| - 1]), p.urls), p.id)
  }

  method FindName(base: UrlBase, names: seq<string>, url: string) returns (r: Option<string>)
    ensures r == Resolve(base, names, url)
  {
    var b := base(url);
    if b.None? {
      return None;
    }
    if b.value in names {
      return b;
    }
    var i := 0;
    while i < |names|
      invariant i <= |names| && FirstContaining(names[..i], b.value).None?
    {
      assert names[..i + 1][..i] == names[..i];
      if Contains(names[i], b.value) {
        FirstStays(names, b.value, i + 1);
        return Some(names[i]);
      }
      i := i + 1;
    }
    assert names[..i] == names;
    return None;
  }

  lemma {:induction false} FirstStays(names: seq<string>, sub: string, i: nat)
    requires i <= |names| && FirstContaining(names[..i], sub).Some?
    ensures FirstContaining(names, sub) == FirstContaining(names[..i], sub)
  {
    if i == |names| {
      assert names[..i] == names;
    } else {
      assert names[..|names| - 1][..i] == names[..i];
      FirstStays(names[..|names| - 1], sub, i);
    }
  }

  method BuildURLFiles(base: UrlBase, names: seq<string>, posts: seq<Post>) returns (res: map<string, string>)
    ensures res == UrlMap(base, names, posts)
  {
    res := map[];
    var i := 0;
    while i < |posts|
      invariant i <= |posts| && res == UrlMap(base, names, posts[..i])
    {
      assert posts[..i + 1][..i] == posts[..i];
      var p := posts[i];
      var j := 0;
      while j < |p.urls|
        invariant j <= |p.urls| && res == WithUrls(base, names, UrlMap(base, names, posts[..i]), p.urls[..j])
      {
        assert p.urls[..j + 1][..j] == p.urls[..j];
        var name := FindName(base, names, p.urls[j]);
        if name.Some? {
          res := res[p.urls[j] := name.value];
        }
        j := j + 1;
      }
      assert p.urls[..j] == p.urls;
      if p.id != "" {
        var videoName := p.id + VIDEO_NAME;
        if videoName in names {
          res := res[TWEET + p.id := videoName];
        }
      }
      i := i + 1;
    }
    assert posts[..i] == posts;
  }

  /** A url some post lists. */
  predicate IsListed(posts: seq<Post>, url: string) {
    exists i | 0 <= i < |posts| :: url in posts[i].urls
  }

  predicate IsTweet(posts: seq<Post>, id: string) {
    exists i | 0 <= i < |posts| :: posts[i].id == id
  }

  lemma {:induction false} UrlsHold(base: UrlBase, names: seq<string>, res: map<string, string>, urls: seq<string>,
                                    key: string)
    ensures
      var after := WithUrls(base, names, res, urls);
      if key in urls && Resolve(base, names, key).Some? then
        key in after && after[key] == Resolve(base, names, key).value
      else (key in after <==> key in res) && (key in after ==> after[key] == res[key])
  {
    if urls != [] {
      UrlsHold(base, names, res, urls[..|urls| - 1], key);
      assert urls == urls[..|urls| - 1] + [urls[|urls| - 1]];
    }
  }

  /** The first name that contains the base name. */
  predicate IsFirstContaining(names: seq<string>, sub: string, i: nat)
    requires i < |names|
  {
    Contains(names[i], sub) && forall j | 0 <= j < i :: !Contains(names[j], sub)
  }

  /** The file of a base name: the one of that very name, or else the first that contains it. */
  predicate IsFileOf(names: seq<string>, b: string, name: string) {
    if b in names then name == b else exists i | 0 <= i < |names| :: names[i] == name && IsFirstContaining(names, b, i)
  }

  /** Some file has the base name, or contains it. */
  predicate HasFile(names: seq<string>, b: string) {
    b in names || exists i | 0 <= i < |names| :: Contains(names[i], b)
  }

  lemma {:induction false} FirstContainingIsFirst(names: seq<string>, sub: string)
    ensures FirstContaining(names, sub).Some? <==> exists i | 0 <= i < |names| :: Contains(names[i], sub)
    ensures FirstContaining(names, sub).Some? ==>
      exists i | 0 <= i < |names| :: names[i] == FirstContaining(names, sub).value && IsFirstContaining(names, sub, i)
  {
    if names != [] {
      var init, last := names[..|names| - 1], |names| - 1;
      FirstContainingIsFirst(init, sub);
      assert forall i | 0 <= i < last :: init[i] == names[i];
      if FirstContaining(init, sub).Some? {
        var i :| 0 <= i < last && init[i] == FirstContaining(init, sub).value && IsFirstContaining(init, sub, i);
        assert IsFirstContaining(names, sub, i);
      } else if Contains(names[last], sub) {
        assert forall i | 0 <= i < last :: !Contains(init[i], sub);
        assert IsFirstContaining(names, sub, last);
      }
    }
  }

  lemma ResolveIsExact(base: UrlBase, names: seq<string>, url: string)
    ensures Resolve(base, names, url).Some? <==> base(url).Some? && HasFile(names, base(url).value)
    ensures Resolve(base, names, url).Some? ==> IsFileOf(names, base(url).value, Resolve(base, names, url).value)
  {
    if base(url).Some? {
      FirstContainingIsFirst(names, base(url).value);
    }
  }

  /**
   What the url map says of a url: if some post lists it, the file of its very base name, or else the first file whose
   name contains that; and otherwise nothing. Tweet keys do not parse as urls with a path.
   */
  lemma {:induction false} UrlMapIsExact(base: UrlBase, names: seq<string>, posts: seq<Post>, url: string)
    requires !HasPrefix(url, TWEET)
    ensures
      var res := UrlMap(base, names, posts);
      && (url in res <==> IsListed(posts, url) && base(url).Some? && HasFile(names, base(url).value))
      && (url in res ==> IsFileOf(names, base(url).value, res[url]))
  {
    ResolveIsExact(base, names, url);
    if posts != [] {
      var init, p := posts[..|posts| - 1], posts[|posts| - 1];
      UrlMapIsExact(base, names, init, url);
      UrlsHold(base, names, UrlMap(base, names, init), p.urls, url);
      assert HasPrefix(TWEET + p.id, TWEET);
      ListedGrows(posts, url);
    }
  }

  lemma ListedGrows(posts: seq<Post>, url: string)
    requires posts != []
    ensures IsListed(posts, url) <==> IsListed(posts[..|posts| - 1], url) || url in posts[|posts| - 1].urls
  {
    var init := posts[..|posts| - 1];
    assert forall i | 0 <= i < |init| :: init[i] == posts[i];
  }

  lemma TweetsGrow(posts: seq<Post>, id: string)
    requires posts != []
    ensures IsTweet(posts, id) <==> IsTweet(posts[..|posts| - 1], id) || id == posts[|posts| - 1].id
  {
    var init := posts[..|posts| - 1];
    assert forall i | 0 <= i < |init| :: init[i] == posts[i];
  }

  /** And of a tweet: its own video, if a post has that id, which is not empty, and the file is there. */
  lemma {:induction false} TweetsAreExact(base: UrlBase, names: seq<string>, posts: seq<Post>, id: string)
    requires base("tweet:" + id).None?
    ensures
      var res := UrlMap(base, names, posts);
      && ("tweet:" + id in res <==> id != "" && IsTweet(posts, id) && id + "_video.mp4" in names)
      && ("tweet:" + id in res ==> res["tweet:" + id] == id + "_video.mp4")
  {
    if posts != [] {
      var init, p := posts[..|posts| - 1], posts[|posts| - 1];
      TweetsAreExact(base, names, init, id);
      UrlsHold(base, names, UrlMap(base, names, init), p.urls, TWEET + id);
      TweetsGrow(posts, id);
      assert (TWEET + id)[|TWEET|..] == id && (TWEET + p.id)[|TWEET|..] == p.id;
    }
  }

  // ---------------------------------------------------------------- captions of local files

  function AppendWithSpace(existing: string, txt: string): string {
    if existing == "" then txt else existing + " " + txt
  }

  function Caption(res: map<string, string>, name: string): string {
    if name in res then res[name] else ""
  }

  function WithText(res: map<string, string>, name: string, text: string): map<string, string> {
    res[name := AppendWithSpace(Caption(res, name), text)]
  }

  /** The file names a post's captions go to, in order, repeats included. */
  function Named(urls: map<string, string>, keys: seq<string>): seq<string> {
    if keys == [] then []
    else Named(urls, keys[..|keys| - 1]) + if keys[|keys| - 1] in urls then [urls[keys[|keys| - 1]]] else []
  }

  function KeysOf(p: Post): seq<string> {
    p.urls + [TWEET + p.id]
  }

  function WithTexts(res: map<string, string>, names: seq<string>, text: string): map<string, string> {
    if names == [] then res else WithText(WithTexts(res, names[..|names| - 1], text), names[|names| - 1], text)
  }

  function TextMap(urls: map<string, string>, posts: seq<Post>): map<string, string> {
    if posts == [] then map[]
    else
      var p := posts[|posts| - 1];
      WithTexts(TextMap(urls, posts[..|posts| - 1]), Named(urls, KeysOf(p)), p.text)
  }

  lemma NamedGrows(urls: map<string, string>, keys: seq<string>, i: nat)
    requires i < |keys|
    ensures Named(urls, keys[..i + 1]) ==
      if keys[i] in urls then Named(urls, keys[..i]) + [urls[keys[i]]] else Named(urls, keys[..i])
  {
    assert keys[..i + 1][..i] == keys[..i];
    assert Named(urls, keys[..i]) + [] == Named(urls, keys[..i]);
  }

  lemma TextsGrow(res: map<string, string>, names: seq<string>, name: string, text: string)
    ensures WithTexts(res, names + [name], text) == WithText(WithTexts(res, names, text), name, text)
  {
    assert (names + [name])[..|names|] == names;
  }

  method BuildFilePostText(urls: map<string, string>, posts: seq<Post>) returns (res: map<string, string>)
    ensures res == TextMap(urls, posts)
  {
    res := map[];
    var i := 0;
    while i < |posts|
      invariant i <= |posts| && res == TextMap(urls, posts[..i])
    {
      assert posts[..i + 1][..i] == posts[..i];
      res := AddCaptions(urls, posts[i], res);
      i := i + 1;
    }
    assert posts[..i] == posts;
  }

  /** One post's turn. */
  method AddCaptions(urls: map<string, string>, p: Post, before: map<string, string>)
    returns (res: map<string, string>)
    ensures res == WithTexts(before, Named(urls, KeysOf(p)), p.text)
  {
    res := before;
    ghost var keys := KeysOf(p);
    KeysAre(p);
    var j := 0;
    while j < |p.urls|
      invariant j <= |p.urls| && res == WithTexts(before, Named(urls, keys[..j]), p.text)
    {
      res := AddCaption(urls, p.urls[j], p.text, res, before, keys, j);
      j := j + 1;
    }
    res := AddCaption(urls, TWEET + p.id, p.text, res, before, keys, j);
  }

  lemma KeysAre(p: Post)
    ensures |KeysOf(p)| == |p.urls| + 1 && forall j | 0 <= j < |p.urls| :: KeysOf(p)[j] == p.urls[j]
    ensures KeysOf(p)[|p.urls|] == TWEET + p.id && KeysOf(p)[..|p.urls| + 1] == KeysOf(p)
  {
  }

  /** One key's turn. */
  method AddCaption(urls: map<string, string>, key: string, text: string, done: map<string, string>,
                    ghost before: map<string, string>, ghost keys: seq<string>, ghost j: nat)
    returns (res: map<string, string>)
    requires j < |keys| && keys[j] == key && done == WithTexts(before, Named(urls, keys[..j]), text)
    ensures res == WithTexts(before, Named(urls, keys[..j + 1]), text)
  {
    res := done;
    NamedGrows(urls, keys, j);
    if key in urls {
      var name := urls[key];
      TextsGrow(before, Named(urls, keys[..j]), name, text);
      res := res[name := AppendWithSpace(Caption(res, name), text)];
    }
  }

  /** The captions that mention one file, in order. */
  function Mentions(urls: map<string, string>, posts: seq<Post>, name: string): seq<string> {
    if posts == [] then []
    else
      var p := posts[|posts| - 1];
      Mentions(urls, posts[..|posts| - 1], name) + Times(Named(urls, KeysOf(p)), name, p.text)
  }

  /** `text` once for each time the name occurs. */
  function Times(names: seq<string>, name: string, text: string): seq<string> {
    if names == [] then []
    else Times(names[..|names| - 1], name, text) + if names[|names| - 1] == name then [text] else []
  }

  function Glue(texts: seq<string>): string {
    if texts == [] then "" else AppendWithSpace(Glue(texts[..|texts| - 1]), texts[|texts| - 1])
  }

  lemma GlueGrows(texts: seq<string>, text: string)
    ensures Glue(texts + [text]) == AppendWithSpace(Glue(texts), text)
  {
    assert (texts + [text])[..|texts|] == texts;
  }

  lemma {:induction false} TextsHold(res: map<string, string>, names: seq<string>, text: string, name: string,
                                     told: seq<string>)
    requires Caption(res, name) == Glue(told) && (name in res <==> told != [])
    ensures
      var after := WithTexts(res, names, text);
      Caption(after, name) == Glue(told + Times(names, name, text))
      && (name in after <==> told + Times(names, name, text) != [])
  {
    if names == [] {
      assert told + [] == told;
    } else {
      var init := names[..|names| - 1];
      TextsHold(res, init, text, name, told);
      var before := told + Times(init, name, text);
      if names[|names| - 1] == name {
        GlueGrows(before, text);
        assert told + Times(names, name, text) == before + [text];
      } else {
        assert told + Times(names, name, text) == before;
      }
    }
  }

  lemma {:induction false} CaptionIsGlued(urls: map<string, string>, posts: seq<Post>, name: string)
    ensures name in TextMap(urls, posts) <==> Mentions(urls, posts, name) != []
    ensures Caption(TextMap(urls, posts), name) == Glue(Mentions(urls, posts, name))
  {
    if posts != [] {
      var init, p := posts[..|posts| - 1], posts[|posts| - 1];
      CaptionIsGlued(urls, init, name);
      TextsHold(TextMap(urls, init), Named(urls, KeysOf(p)), p.text, name, Mentions(urls, init, name));
    }
  }

  /** The places where a post mentions a file: each of its urls that is mapped there. */
  function Places(urls: map<string, string>, listed: seq<string>, name: string): set<nat> {
    set j | 0 <= j < |listed| && listed[j] in urls && urls[listed[j]] == name
  }

  /** How often a post mentions a file: by its urls, and once more as a tweet of its own. */
  function HowOften(urls: map<string, string>, p: Post, name: string): nat {
    |Places(urls, p.urls, name)| + if "tweet:" + p.id in urls && urls["tweet:" + p.id] == name then 1 else 0
  }

  function Repeat(text: string, n: nat): seq<string> {
    if n == 0 then [] else Repeat(text, n - 1) + [text]
  }

  /** The captions that go to a file, in the order of the posts. */
  function Told(urls: map<string, string>, posts: seq<Post>, name: string): seq<string> {
    if posts == [] then []
    else
      var p := posts[|posts| - 1];
      Told(urls, posts[..|posts| - 1], name) + Repeat(p.text, HowOften(urls, p, name))
  }

  lemma {:induction false} TimesAreRepeats(urls: map<string, string>, keys: seq<string>, name: string, text: string)
    ensures Times(Named(urls, keys), name, text) == Repeat(text, |Places(urls, keys, name)|)
  {
    if keys == [] {
      assert Places(urls, keys, name) == {};
    } else {
      var init, last := keys[..|keys| - 1], |keys| - 1;
      TimesAreRepeats(urls, init, name, text);
      PlacesGrow(urls, keys, name);
      if keys[last] in urls {
        var names := Named(urls, init);
        assert (names + [urls[keys[last]]])[..|names|] == names;
      } else {
        assert Named(urls, keys) == Named(urls, init);
      }
    }
  }

  lemma PlacesGrow(urls: map<string, string>, keys: seq<string>, name: string)
    requires keys != []
    ensures
      var init, last := keys[..|keys| - 1], |keys| - 1;
      |Places(urls, keys, name)| ==
        |Places(urls, init, name)| + if keys[last] in urls && urls[keys[last]] == name then 1 else 0
  {
    var init, last := keys[..|keys| - 1], |keys| - 1;
    var here := if keys[last] in urls && urls[keys[last]] == name then {last} else {};
    assert Places(urls, keys, name) == Places(urls, init, name) + here;
  }

  lemma {:induction false} MentionsAreTold(urls: map<string, string>, posts: seq<Post>, name: string)
    ensures Mentions(urls, posts, name) == Told(urls, posts, name)
  {
    if posts != [] {
      var p := posts[|posts| - 1];
      MentionsAreTold(urls, posts[..|posts| - 1], name);
      TimesAreRepeats(urls, KeysOf(p), name, p.text);
      PlacesGrow(urls, KeysOf(p), name);
      assert KeysOf(p)[..|KeysOf(p)| - 1] == p.urls;
    }
  }

  /** Captions joined by spaces, from the first that is not empty on. */
  function Joined(texts: seq<string>): string {
    if texts == [] then "" else if texts[0] == "" then Joined(texts[1..]) else Join(texts, ' ')
  }

  lemma {:induction false} GlueIsJoined(texts: seq<string>)
    ensures Glue(texts) == Joined(texts)
  {
    if texts != [] {
      var init, last := texts[..|texts| - 1], texts[|texts| - 1];
      GlueIsJoined(init);
      JoinedGrows(init, last);
      assert texts == init + [last];
    }
  }

  lemma {:induction false} JoinedGrows(texts: seq<string>, text: string)
    ensures Joined(texts + [text]) == AppendWithSpace(Joined(texts), text)
    decreases |texts|
  {
    if texts == [] {
      assert texts + [text] == [text] && [text][1..] == [];
    } else if texts[0] == "" {
      assert (texts + [text])[1..] == texts[1..] + [text];
      JoinedGrows(texts[1..], text);
    } else {
      JoinAppend(texts, [text], ' ');
      JoinIsLonger(texts, ' ');
      assert Join([text], ' ') == text && [' '] == " ";
    }
  }

  lemma JoinIsLonger(texts: seq<string>, c: char)
    requires texts != [] && texts[0] != ""
    ensures Join(texts, c) != ""
  {
  }

  /**
   A file's caption is the captions of the posts that mention it, in order and as often as they do, joined by spaces;
   files nobody mentions have none.
   */
  lemma TextMapIsExact(urls: map<string, string>, posts: seq<Post>, name: string)
    ensures name in TextMap(urls, posts) <==> Told(urls, posts, name) != []
    ensures name in TextMap(urls, posts) ==> TextMap(urls, posts)[name] == Joined(Told(urls, posts, name))
  {
    CaptionIsGlued(urls, posts, name);
    MentionsAreTold(urls, posts, name);
    GlueIsJoined(Told(urls, posts, name));
  }

  // ---------------------------------------------------------------- the caches

  datatype Entry<V> = Entry(v: V, at: nat)

  /** Ten minutes, in nanoseconds. */
  const TTL: nat := 600_000_000_000

  predicate IsFresh<V>(m: map<string, Entry<V>>, key: string, now: nat) {
    key in m && now - m[key].at <= TTL
  }

  type Files = seq<string>

  /** The world outside: what a scan of the folder and a query of the store give at each instant. */
  datatype World = World(base: UrlBase, filesAt: (string, nat) -> Files, postsAt: (string, nat) -> seq<Post>)

  ghost predicate AreFiles(w: World, key: string, v: Files, since: int, now: nat) {
    exists t: nat | since <= t <= now :: v == w.filesAt(key, t)
  }

  ghost predicate ArePosts(w: World, key: string, v: seq<Post>, since: int, now: nat) {
    exists t: nat | since <= t <= now :: v == w.postsAt(key, t)
  }

  /** A url map built from files and posts of the time from `since` to `now`. */
  ghost predicate IsUrlMap(w: World, key: string, v: map<string, string>, since: int, now: nat) {
    exists files, posts :: AreFiles(w, key, files, since, now) && ArePosts(w, key, posts, since, now)
      && v == UrlMap(w.base, files, posts)
  }

  ghost predicate IsTextMap(w: World, key: string, v: map<string, string>, since: int, now: nat) {
    exists urls, posts :: IsUrlMap(w, key, urls, since, now) && ArePosts(w, key, posts, since, now)
      && v == TextMap(urls, posts)
  }

  lemma UrlMapAges(w: World, key: string, v: map<string, string>, since: int, now: nat, since': int, now': nat)
    requires IsUrlMap(w, key, v, since, now) && since' <= since && now <= now'
    ensures IsUrlMap(w, key, v, since', now')
  {
    var files, posts :| AreFiles(w, key, files, since, now) && ArePosts(w, key, posts, since, now)
      && v == UrlMap(w.base, files, posts);
    assert AreFiles(w, key, files, since', now') && ArePosts(w, key, posts, since', now');
  }

  lemma TextMapAges(w: World, key: string, v: map<string, string>, since: int, now: nat, since': int, now': nat)
    requires IsTextMap(w, key, v, since, now) && since' <= since && now <= now'
    ensures IsTextMap(w, key, v, since', now')
  {
    var urls, posts :| IsUrlMap(w, key, urls, since, now) && ArePosts(w, key, posts, since, now)
      && v == TextMap(urls, posts);
    UrlMapAges(w, key, urls, since, now, since', now');
    assert ArePosts(w, key, posts, since', now');
  }

  function Later(a: int, b: int): int {
    if a < b then b else a
  }

  /** Built at the time noted, from data that had not expired and is no older than `floor`. */
  ghost predicate IsUrlEntry(w: World, key: string, e: Entry<map<string, string>>, floor: nat, now: nat) {
    floor <= e.at <= now && IsUrlMap(w, key, e.v, Later(e.at - TTL, floor), e.at)
  }

  ghost predicate IsTextEntry(w: World, key: string, e: Entry<map<string, string>>, floor: nat, now: nat) {
    floor <= e.at <= now && IsTextMap(w, key, e.v, Later(e.at - 2 * TTL, floor), e.at)
  }

  lemma UrlMapIsBuilt(w: World, key: string, files: Files, posts: seq<Post>, floor: nat, now: nat)
    requires AreFiles(w, key, files, Later(now - TTL, floor), now)
    requires ArePosts(w, key, posts, Later(now - TTL, floor), now)
    ensures IsUrlMap(w, key, UrlMap(w.base, files, posts), Later(now - TTL, floor), now)
    ensures IsUrlMap(w, key, UrlMap(w.base, files, posts), Later(now - 2 * TTL, floor), now)
  {
    UrlMapAges(w, key, UrlMap(w.base, files, posts), Later(now - TTL, floor), now, Later(now - 2 * TTL, floor), now);
  }

  lemma TextMapIsBuilt(w: World, key: string, urls: map<string, string>, posts: seq<Post>, floor: nat, now: nat)
    requires IsUrlMap(w, key, urls, Later(now - 2 * TTL, floor), now)
    requires ArePosts(w, key, posts, Later(now - TTL, floor), now)
    ensures IsTextMap(w, key, TextMap(urls, posts), Later(now - 2 * TTL, floor), now)
    ensures IsTextMap(w, key, TextMap(urls, posts), Later(now - 3 * TTL, floor), now)
  {
    assert ArePosts(w, key, posts, Later(now - 2 * TTL, floor), now);
    TextMapAges(w, key, TextMap(urls, posts), Later(now - 2 * TTL, floor), now, Later(now - 3 * TTL, floor), now);
  }

  lemma FreshUrls(w: World, key: string, e: Entry<map<string, string>>, floor: nat, now: nat)
    requires IsUrlEntry(w, key, e, floor, now) && now - e.at <= TTL
    ensures IsUrlMap(w, key, e.v, Later(now - 2 * TTL, floor), now)
  {
    UrlMapAges(w, key, e.v, Later(e.at - TTL, floor), e.at, Later(now - 2 * TTL, floor), now);
  }

  lemma FreshTexts(w: World, key: string, e: Entry<map<string, string>>, floor: nat, now: nat)
    requires IsTextEntry(w, key, e, floor, now) && now - e.at <= TTL
    ensures IsTextMap(w, key, e.v, Later(now - 3 * TTL, floor), now)
  {
    TextMapAges(w, key, e.v, Later(e.at - 2 * TTL, floor), e.at, Later(now - 3 * TTL, floor), now);
  }

  /** The same but for what `key` has. */
  ghost predicate SameElsewhere<V>(m: map<string, V>, m': map<string, V>, key: string) {
    forall k | k != key :: (k in m <==> k in m') && (k in m ==> m[k] == m'[k])
  }

  /** The caches of all targets; `cleared` has the time of each target's last Invalidate. */
  class Index {
    const world: World
    var files: map<string, Entry<Files>>
    var posts: map<string, Entry<seq<Post>>>
    var urlFiles: map<string, Entry<map<string, string>>>
    var fileTexts: map<string, Entry<map<string, string>>>
    ghost var cleared: map<string, nat>

    ghost function Floor(key: string): nat
      reads this`cleared
    {
      if key in cleared then cleared[key] else 0
    }

    /** Every cached value of a target was built after its last Invalidate, from data that had not expired then. */
    ghost predicate Valid(key: string, now: nat)
      reads this
    {
      && Floor(key) <= now
      && (key in files ==>
            Floor(key) <= files[key].at <= now && files[key].v == world.filesAt(key, files[key].at))
      && (key in posts ==>
            Floor(key) <= posts[key].at <= now && posts[key].v == world.postsAt(key, posts[key].at))
      && (key in urlFiles ==> IsUrlEntry(world, key, urlFiles[key], Floor(key), now))
      && (key in fileTexts ==> IsTextEntry(world, key, fileTexts[key], Floor(key), now))
    }

    constructor (world: World)
      ensures this.world == world && files == map[] && posts == map[] && urlFiles == map[] && fileTexts == map[]
      ensures cleared == map[] && forall key, now :: Valid(key, now)
    {
      this.world := world;
      files, posts, urlFiles, fileTexts := map[], map[], map[], map[];
      cleared := map[];
    }

    /** Nothing is different for any other target. */
    twostate predicate LeavesOthers(key: string)
      reads this
    {
      && SameElsewhere(old(files), files, key) && SameElsewhere(old(posts), posts, key)
      && SameElsewhere(old(urlFiles), urlFiles, key) && SameElsewhere(old(fileTexts), fileTexts, key)
      && SameElsewhere(old(cleared), cleared, key)
    }

    /** So what was valid for another target still is. */
    twostate lemma OthersStayValid(key: string)
      requires LeavesOthers(key)
      ensures forall k, n | k != key && old(Valid(k, n)) :: Valid(k, n)
    {
    }

    ghost predicate AllValid(now: nat)
      reads this
    {
      forall key :: Valid(key, now)
    }

    lemma Ages(now: nat, now': nat)
      requires AllValid(now) && now <= now'
      ensures AllValid(now')
    {
      forall key: string ensures Valid(key, now') {
        assert Valid(key, now);
      }
    }

    /** `cleared` is what the first `n` calls make it. */
    ghost predicate Follows(calls: seq<Call>, n: nat)
      requires n <= |calls|
      reads this`cleared
    {
      forall key :: Floor(key) == LastClear(calls, n, key)
    }

    method Get(key: string, now: nat) returns (v: Files)
      requires Valid(key, now)
      modifies this`files
      ensures Valid(key, now) && LeavesOthers(key)
      ensures v == if IsFresh(old(files), key, now) then old(files)[key].v else world.filesAt(key, now)
      ensures files == if IsFresh(old(files), key, now) then old(files) else old(files)[key := Entry(v, now)]
      ensures AreFiles(world, key, v, Later(now - TTL, Floor(key)), now)
    {
      if IsFresh(files, key, now) {
        v := files[key].v;
      } else {
        v := world.filesAt(key, now);
        files := files[key := Entry(v, now)];
      }
    }

    method Posts(key: string, now: nat) returns (v: seq<Post>)
      requires Valid(key, now)
      modifies this`posts
      ensures Valid(key, now) && LeavesOthers(key)
      ensures v == if IsFresh(old(posts), key, now) then old(posts)[key].v else world.postsAt(key, now)
      ensures posts == if IsFresh(old(posts), key, now) then old(posts) else old(posts)[key := Entry(v, now)]
      ensures ArePosts(world, key, v, Later(now - TTL, Floor(key)), now)
    {
      if IsFresh(posts, key, now) {
        v := posts[key].v;
      } else {
        v := world.postsAt(key, now);
        posts := posts[key := Entry(v, now)];
      }
    }

    function FilesSeen(key: string, now: nat): Files
      reads this
    {
      if IsFresh(files, key, now) then files[key].v else world.filesAt(key, now)
    }

    function PostsSeen(key: string, now: nat): seq<Post>
      reads this
    {
      if IsFresh(posts, key, now) then posts[key].v else world.postsAt(key, now)
    }

    function UrlsSeen(key: string, now: nat): map<string, string>
      reads this
    {
      if IsFresh(urlFiles, key, now) then urlFiles[key].v
      else UrlMap(world.base, FilesSeen(key, now), PostsSeen(key, now))
    }

    function TextsSeen(key: string, now: nat): map<string, string>
      reads this
    {
      if IsFresh(fileTexts, key, now) then fileTexts[key].v else TextMap(UrlsSeen(key, now), PostsSeen(key, now))
    }

    method URLFiles(key: string, now: nat) returns (v: map<string, string>)
      requires Valid(key, now)
      modifies this`files, this`posts, this`urlFiles
      ensures Valid(key, now) && v == old(UrlsSeen(key, now))
      ensures PostsSeen(key, now) == old(PostsSeen(key, now))
      ensures IsUrlMap(world, key, v, Later(now - 2 * TTL, Floor(key)), now)
      ensures LeavesOthers(key)
    {
      if IsFresh(urlFiles, key, now) {
        v := urlFiles[key].v;
        FreshUrls(world, key, urlFiles[key], Floor(key), now);
      } else {
        v := BuildUrls(key, now);
        StoreUrls(key, v, now);
      }
    }

    /** A url map built now, from files and posts that may be cached. */
    method BuildUrls(key: string, now: nat) returns (v: map<string, string>)
      requires Valid(key, now)
      modifies this`files, this`posts
      ensures Valid(key, now) && v == UrlMap(world.base, old(FilesSeen(key, now)), old(PostsSeen(key, now)))
      ensures PostsSeen(key, now) == old(PostsSeen(key, now))
      ensures IsUrlMap(world, key, v, Later(now - TTL, Floor(key)), now)
      ensures IsUrlMap(world, key, v, Later(now - 2 * TTL, Floor(key)), now)
      ensures LeavesOthers(key)
    {
      var names := Get(key, now);
      var rows := Posts(key, now);
      v := BuildURLFiles(world.base, names, rows);
      UrlMapIsBuilt(world, key, names, rows, Floor(key), now);
    }

    /** Add, on the url cache. */
    method StoreUrls(key: string, v: map<string, string>, now: nat)
      requires Valid(key, now) && IsUrlMap(world, key, v, Later(now - TTL, Floor(key)), now)
      modifies this`urlFiles
      ensures Valid(key, now) && urlFiles == old(urlFiles)[key := Entry(v, now)]
      ensures LeavesOthers(key)
    {
      urlFiles := urlFiles[key := Entry(v, now)];
    }

    /** A caption map built now, from layers that may be cached. */
    method BuildTexts(key: string, now: nat) returns (v: map<string, string>)
      requires Valid(key, now)
      modifies this`files, this`posts, this`urlFiles
      ensures Valid(key, now) && v == TextMap(old(UrlsSeen(key, now)), old(PostsSeen(key, now)))
      ensures IsTextMap(world, key, v, Later(now - 2 * TTL, Floor(key)), now)
      ensures IsTextMap(world, key, v, Later(now - 3 * TTL, Floor(key)), now)
      ensures LeavesOthers(key)
    {
      var urls := URLFiles(key, now);
      var rows := Posts(key, now);
      v := BuildFilePostText(urls, rows);
      TextMapIsBuilt(world, key, urls, rows, Floor(key), now);
    }

    method FilePostText(key: string, now: nat) returns (v: map<string, string>)
      requires Valid(key, now)
      modifies this`files, this`posts, this`urlFiles, this`fileTexts
      ensures Valid(key, now) && v == old(TextsSeen(key, now))
      ensures IsTextMap(world, key, v, Later(now - 3 * TTL, Floor(key)), now)
      ensures LeavesOthers(key)
    {
      if IsFresh(fileTexts, key, now) {
        v := fileTexts[key].v;
        FreshTexts(world, key, fileTexts[key], Floor(key), now);
      } else {
        v := BuildTexts(key, now);
        StoreTexts(key, v, now);
      }
    }

    /** Add, on the caption cache. */
    method StoreTexts(key: string, v: map<string, string>, now: nat)
      requires Valid(key, now) && IsTextMap(world, key, v, Later(now - 2 * TTL, Floor(key)), now)
      modifies this`fileTexts
      ensures Valid(key, now) && fileTexts == old(fileTexts)[key := Entry(v, now)]
      ensures LeavesOthers(key)
    {
      fileTexts := fileTexts[key := Entry(v, now)];
    }

    /** Invalidate, at the time `now`. */
    method Invalidate(key: string, ghost now: nat)
      modifies this
      ensures files == old(files) - {key} && posts == old(posts) - {key}
      ensures urlFiles == old(urlFiles) - {key} && fileTexts == old(fileTexts) - {key}
      ensures cleared == old(cleared)[key := now] && Valid(key, now)
      ensures LeavesOthers(key)
    {
      files, posts, urlFiles, fileTexts := files - {key}, posts - {key}, urlFiles - {key}, fileTexts - {key};
      cleared := cleared[key := now];
    }

    /** A read after Invalidate sees the world as it is. */
    method ReadAnew(key: string, now: nat) returns (urls: map<string, string>, texts: map<string, string>)
      requires Valid(key, now)
      modifies this
      ensures Valid(key, now)
      ensures urls == UrlMap(world.base, world.filesAt(key, now), world.postsAt(key, now))
      ensures texts == TextMap(urls, world.postsAt(key, now))
      ensures LeavesOthers(key)
    {
      Invalidate(key, now);
      texts := FilePostText(key, now);
      Invalidate(key, now);
      urls := URLFiles(key, now);
    }

    method FindLocalFile(key: string, url: string, now: nat) returns (name: Option<string>)
      requires Valid(key, now)
      modifies this`files, this`posts, this`urlFiles
      ensures Valid(key, now) && IsFound(world, key, url, name, Later(now - 2 * TTL, Floor(key)), now)
      ensures LeavesOthers(key)
    {
      var urls := URLFiles(key, now);
      if url in urls && !HasPrefix(urls[url], TWEET) {
        return Some(urls[url]);
      }
      return None;
    }
  }

  /** What a url map of the time from `since` to `now` has for a media url, tweet keys aside. */
  ghost predicate IsFound(w: World, key: string, url: string, name: Option<string>, since: int, now: nat) {
    exists urls | IsUrlMap(w, key, urls, since, now) ::
      name == if url in urls && !HasPrefix(urls[url], TWEET) then Some(urls[url]) else None
  }

  // ---------------------------------------------------------------- every sequence of calls

  /** A call of the gallery at some time, for any target. */
  datatype Call =
    | Urls(key: string, now: nat)
    | Texts(key: string, now: nat)
    | Find(key: string, now: nat, url: string)
    | Clear(key: string, now: nat)

  datatype Answer = UrlMapping(urls: map<string, string>) | TextMapping(texts: map<string, string>)
                  | File(name: Option<string>) | Done

  predicate InOrder(calls: seq<Call>) {
    forall i, j | 0 <= i < j < |calls| :: calls[i].now <= calls[j].now
  }

  /** When the target was last invalidated by the first `n` calls. */
  function LastClear(calls: seq<Call>, n: nat, key: string): nat
    requires n <= |calls|
  {
    if n == 0 then 0
    else if calls[n - 1].Clear? && calls[n - 1].key == key then calls[n - 1].now
    else LastClear(calls, n - 1, key)
  }

  /** The answer comes from files and posts of the last two lifetimes, three for captions, and since `floor`. */
  ghost predicate IsFair(w: World, call: Call, answer: Answer, floor: nat) {
    match call
    case Urls(key, now) => answer.UrlMapping? && IsUrlMap(w, key, answer.urls, Later(now - 2 * TTL, floor), now)
    case Texts(key, now) => answer.TextMapping? && IsTextMap(w, key, answer.texts, Later(now - 3 * TTL, floor), now)
    case Find(key, now, url) => answer.File? && IsFound(w, key, url, answer.name, Later(now - 2 * TTL, floor), now)
    case Clear(_, _) => answer.Done?
  }

  method Answered(index: Index, call: Call) returns (answer: Answer)
    requires index.AllValid(call.now)
    modifies index
    ensures index.Valid(call.key, call.now) && index.LeavesOthers(call.key)
    ensures index.cleared == if call.Clear? then old(index.cleared)[call.key := call.now] else old(index.cleared)
    ensures IsFair(index.world, call, answer, old(index.Floor(call.key)))
  {
    match call {
      case Urls(key, now) =>
        var urls := index.URLFiles(key, now);
        answer := UrlMapping(urls);
      case Texts(key, now) =>
        var texts := index.FilePostText(key, now);
        answer := TextMapping(texts);
      case Find(key, now, url) =>
        var name := index.FindLocalFile(key, url, now);
        answer := File(name);
      case Clear(key, now) =>
        index.Invalidate(key, now);
        answer := Done;
    }
  }

  ghost predicate AreFair(w: World, calls: seq<Call>, answers: seq<Answer>) {
    && |answers| <= |calls|
    && forall i | 0 <= i < |answers| :: IsFair(w, calls[i], answers[i], LastClear(calls, i, calls[i].key))
  }

  lemma {:induction false} FairGrows(w: World, calls: seq<Call>, answers: seq<Answer>, answer: Answer)
    requires AreFair(w, calls, answers) && |answers| < |calls|
    requires IsFair(w, calls[|answers|], answer, LastClear(calls, |answers|, calls[|answers|].key))
    ensures AreFair(w, calls, answers + [answer])
  {
    var grown := answers + [answer];
    forall i | 0 <= i < |grown| ensures IsFair(w, calls[i], grown[i], LastClear(calls, i, calls[i].key)) {
      if i < |answers| {
        assert IsFair(w, calls[i], answers[i], LastClear(calls, i, calls[i].key));
      }
    }
  }

  method ServeNext(index: Index, calls: seq<Call>, n: nat) returns (answer: Answer)
    requires n < |calls| && InOrder(calls) && index.AllValid(calls[n].now) && index.Follows(calls, n)
    modifies index
    ensures n + 1 < |calls| ==> index.AllValid(calls[n + 1].now)
    ensures index.Follows(calls, n + 1)
    ensures IsFair(index.world, calls[n], answer, LastClear(calls, n, calls[n].key))
  {
    answer := Answered(index, calls[n]);
    index.OthersStayValid(calls[n].key);
    assert forall k | k != calls[n].key :: old(index.Valid(k, calls[n].now));
    forall key: string ensures index.Floor(key) == LastClear(calls, n + 1, key) {
      assert old(index.Floor(key)) == LastClear(calls, n, key);
    }
    if n + 1 < |calls| {
      index.Ages(calls[n].now, calls[n + 1].now);
    }
  }

  /**
   For any sequence of calls over any targets, in the order of time: every answer is fair, and none is older than the
   last Invalidate of its target.
   */
  method Serve(world: World, calls: seq<Call>) returns (answers: seq<Answer>)
    requires InOrder(calls)
    ensures |answers| == |calls| && AreFair(world, calls, answers)
  {
    var index := new Index(world);
    answers := [];
    var n := 0;
    while n < |calls|
      invariant n == |answers| && AreFair(world, calls, answers) && index.world == world && fresh(index)
      invariant n < |calls| ==> index.AllValid(calls[n].now)
      invariant index.Follows(calls, n)
    {
      var answer := ServeNext(index, calls, n);
      FairGrows(world, calls, answers, answer);
      answers, n := answers + [answer], n + 1;
    }
  }
}
