/** One Instagram scrape: which posts of a paged feed it reaches, what it queues for them, and when it succeeds. */
module Instagram {
  import opened Basics
  import opened Text
  import Twitter
  import Pool

  datatype Rendition = Rendition(url: string, width: int, height: int)

  datatype Node = Node(id: string, mediaType: int, images: seq<Rendition>, videos: seq<Rendition>)

  /** A timeline item: the post itself as a node (whose id is shadowed and so empty), or a carousel of nodes. */
  datatype FeedItem = FeedItem(id: string, takenAt: int, node: Node, carousel: seq<Node>)

  datatype Entry = Entry(url: string, takenAt: int, mediaId: string, isVideo: bool, soleVideo: bool)

  const CAROUSEL := 8
  const VIDEO := 2

  // ---------------------------------------------------------------- the media of a post

  function Area(r: Rendition): int {
    r.width * r.height
  }

  /** The first rendition of the largest area. */
  function Best(rs: seq<Rendition>): (best: Rendition)
    requires rs != []
    ensures exists i | 0 <= i < |rs| :: IsFirstLargest(rs, i) && rs[i] == best
  {
    var last := |rs| - 1;
    if last == 0 then
      assert IsFirstLargest(rs, 0);
      rs[0]
    else
      var best := Best(rs[..last]);
      ghost var i :| 0 <= i < last && IsFirstLargest(rs[..last], i) && rs[..last][i] == best;
      assert forall j | 0 <= j < last :: rs[..last][j] == rs[j];
      assert IsFirstLargest(rs, if Area(rs[last]) > Area(best) then last else i);
      if Area(rs[last]) > Area(best) then rs[last] else best
  }

  predicate IsFirstLargest(rs: seq<Rendition>, i: nat)
    requires i < |rs|
  {
    && (forall j | 0 <= j < |rs| :: Area(rs[j]) <= Area(rs[i]))
    && (forall j | 0 <= j < i :: Area(rs[j]) < Area(rs[i]))
  }

  function BestURL(rs: seq<Rendition>): string {
    if rs == [] then "" else Best(rs).url
  }

  function NodesOf(item: FeedItem): seq<Node> {
    if item.node.mediaType == CAROUSEL && item.carousel != [] then item.carousel else [item.node]
  }

  function EntryOf(n: Node, item: FeedItem): Entry {
    var isVideo := n.mediaType == VIDEO;
    Entry(BestURL(if isVideo then n.videos else n.images), item.takenAt, if n.id != "" then n.id else item.id, isVideo,
          false)
  }

  /** The nodes that have something to fetch, in order. */
  function Fetchable(nodes: seq<Node>, item: FeedItem): seq<Entry> {
    if nodes == [] then []
    else
      var last := EntryOf(nodes[|nodes| - 1], item);
      Fetchable(nodes[..|nodes| - 1], item) + if last.url == "" then [] else [last]
  }

  function Videos(entries: seq<Entry>): nat {
    if entries == [] then 0 else Videos(entries[..|entries| - 1]) + if entries[|entries| - 1].isVideo then 1 else 0
  }

  function Named(e: Entry, item: FeedItem, sole: bool): Entry {
    if e.isVideo && sole then e.(mediaId := item.id, soleVideo := true) else e
  }

  function Entries(item: FeedItem): seq<Entry> {
    var found := Fetchable(NodesOf(item), item);
    NameAll(found, item, Videos(found) == 1)
  }

  function NameAll(found: seq<Entry>, item: FeedItem, sole: bool): (entries: seq<Entry>)
    ensures |entries| == |found|
    ensures forall i | 0 <= i < |found| :: entries[i] == Named(found[i], item, sole)
  {
    if found == [] then []
    else NameAll(found[..|found| - 1], item, sole) + [Named(found[|found| - 1], item, sole)]
  }

  method PostEntries(item: FeedItem) returns (entries: seq<Entry>, ghost ks: seq<nat>)
    ensures entries == Entries(item)
    ensures
      var nodes := if item.node.mediaType == 8 && |item.carousel| > 0 then item.carousel else [item.node];
      AreNodesOf(ks, nodes, item, entries)
  {
    ks := EntriesAreExact(item);
    entries := CollectEntries(item);
  }

  method CollectEntries(item: FeedItem) returns (entries: seq<Entry>)
    ensures entries == Entries(item)
  {
    var nodes := [item.node];
    if item.node.mediaType == CAROUSEL && |item.carousel| > 0 {
      nodes := item.carousel;
    }
    var videos, i := 0, 0;
    entries := [];
    while i < |nodes|
      invariant i <= |nodes|
      invariant entries == Fetchable(nodes[..i], item) && videos == Videos(entries)
    {
      FetchableGrows(nodes, item, i);
      entries, videos := AddNode(entries, videos, nodes[i], item);
      i := i + 1;
    }
    assert nodes[..i] == nodes;
    entries := NameSole(entries, item, videos);
  }

  /** One pass of the first loop. */
  method AddNode(found: seq<Entry>, count: nat, n: Node, item: FeedItem) returns (entries: seq<Entry>, videos: nat)
    requires count == Videos(found)
    ensures entries == found + if EntryOf(n, item).url == "" then [] else [EntryOf(n, item)]
    ensures videos == Videos(entries)
  {
    entries, videos := found, count;
    var isVideo := n.mediaType == VIDEO;
    var u := BestURL(n.images);
    if isVideo {
      u := BestURL(n.videos);
    }
    var id := if n.id != "" then n.id else item.id;
    if u != "" {
      var entry := Entry(u, item.takenAt, id, isVideo, false);
      VideosGrow(entries, entry);
      entries := entries + [entry];
      if isVideo {
        videos := videos + 1;
      }
    }
  }

  /** The second loop: a post's only video takes the post's id. */
  method NameSole(found: seq<Entry>, item: FeedItem, videos: nat) returns (entries: seq<Entry>)
    ensures |entries| == |found|
    ensures forall i | 0 <= i < |found| :: entries[i] == Named(found[i], item, videos == 1)
  {
    entries := found;
    var i := 0;
    while i < |entries|
      invariant i <= |entries| == |found|
      invariant forall j | 0 <= j < i :: entries[j] == Named(found[j], item, videos == 1)
      invariant forall j | i <= j < |found| :: entries[j] == found[j]
    {
      if entries[i].isVideo && videos == 1 {
        entries := entries[i := entries[i].(mediaId := item.id, soleVideo := true)];
      }
      i := i + 1;
    }
  }

  lemma FetchableGrows(nodes: seq<Node>, item: FeedItem, i: nat)
    requires i < |nodes|
    ensures Fetchable(nodes[..i + 1], item) ==
      Fetchable(nodes[..i], item) + if EntryOf(nodes[i], item).url == "" then [] else [EntryOf(nodes[i], item)]
  {
    assert nodes[..i + 1][..i] == nodes[..i];
  }

  lemma VideosGrow(entries: seq<Entry>, e: Entry)
    ensures Videos(entries + [e]) == Videos(entries) + if e.isVideo then 1 else 0
  {
    assert (entries + [e])[..|entries|] == entries;
  }

  lemma {:induction false} TwoVideos(entries: seq<Entry>, i: nat, j: nat)
    requires i < j < |entries| && entries[i].isVideo && entries[j].isVideo
    ensures Videos(entries) >= 2
  {
    if j < |entries| - 1 {
      TwoVideos(entries[..|entries| - 1], i, j);
    } else {
      OneVideo(entries[..j], i);
    }
  }

  lemma {:induction false} OneVideo(entries: seq<Entry>, i: nat)
    requires i < |entries| && entries[i].isVideo
    ensures Videos(entries) >= 1
  {
    if i < |entries| - 1 {
      OneVideo(entries[..|entries| - 1], i);
    }
  }

  lemma {:induction false} VideoAt(entries: seq<Entry>) returns (i: nat)
    requires Videos(entries) >= 1
    ensures i < |entries| && entries[i].isVideo
    ensures Videos(entries) == 1 || exists j | 0 <= j < |entries| && j != i :: entries[j].isVideo
  {
    var init := entries[..|entries| - 1];
    i := |entries| - 1;
    if !entries[i].isVideo {
      i := VideoAt(init);
      if Videos(entries) != 1 {
        var j :| 0 <= j < |init| && j != i && init[j].isVideo;
        assert entries[j].isVideo;
      }
    } else if Videos(init) >= 1 {
      var j := VideoAt(init);
      assert entries[j].isVideo;
    }
  }

  /** A post's only video, and no other entry, is named by the post and marked so. */
  lemma SoleVideoIsMarked(item: FeedItem, i: nat)
    requires i < |Entries(item)|
    ensures
      var all := Entries(item);
      && (all[i].soleVideo <==> all[i].isVideo && forall j | 0 <= j < |all| && j != i :: !all[j].isVideo)
      && (all[i].soleVideo ==> all[i].mediaId == item.id)
      && all[i].url != ""
  {
    var found := Fetchable(NodesOf(item), item);
    PlainEntries(NodesOf(item), item, i);
    if found[i].isVideo {
      OneVideo(found, i);
      var first := VideoAt(found);
      if j: nat :| j < |found| && j != i && found[j].isVideo {
        TwoVideos(found, if i < j then i else j, if i < j then j else i);
        assert Entries(item)[j].isVideo;
      }
    }
  }

  /** The renditions a node is fetched by: a video's if its type is 2, otherwise its images. */
  function RenditionsOf(n: Node): seq<Rendition> {
    if n.mediaType == 2 then n.videos else n.images
  }

  /** The url is that of the first of the node's largest renditions. */
  predicate CarriesUrl(n: Node, url: string) {
    exists i | 0 <= i < |RenditionsOf(n)| :: RenditionsOf(n)[i].url == url && IsPicked(RenditionsOf(n), i)
  }

  predicate IsPicked(rs: seq<Rendition>, i: nat)
    requires i < |rs|
  {
    forall j | 0 <= j < |rs| :: if j < i then IsSmaller(rs[j], rs[i]) else !IsSmaller(rs[i], rs[j])
  }

  predicate IsSmaller(a: Rendition, b: Rendition) {
    a.width * a.height < b.width * b.height
  }

  lemma LargestIsPicked(rs: seq<Rendition>, i: nat)
    requires i < |rs| && IsFirstLargest(rs, i)
    ensures IsPicked(rs, i)
  {
    forall j | 0 <= j < |rs| ensures if j < i then IsSmaller(rs[j], rs[i]) else !IsSmaller(rs[i], rs[j]) {
      assert Area(rs[j]) <= Area(rs[i]) && (j < i ==> Area(rs[j]) < Area(rs[i]));
    }
  }

  lemma NodeEntry(n: Node, item: FeedItem)
    ensures
      var e := EntryOf(n, item);
      && (if RenditionsOf(n) == [] then e.url == "" else CarriesUrl(n, e.url))
      && e.takenAt == item.takenAt && (e.isVideo <==> n.mediaType == 2) && !e.soleVideo
      && e.mediaId == if n.id != "" then n.id else item.id
  {
    var rs := RenditionsOf(n);
    if rs != [] {
      BestIsCarried(n);
    }
  }

  lemma BestIsCarried(n: Node)
    requires RenditionsOf(n) != []
    ensures CarriesUrl(n, Best(RenditionsOf(n)).url)
  {
    var rs := RenditionsOf(n);
    var best := Best(rs);
    var i :| 0 <= i < |rs| && IsFirstLargest(rs, i) && rs[i] == best;
    LargestIsPicked(rs, i);
  }

  /** Which nodes the found entries belong to. */
  predicate AreNodesOf(ks: seq<nat>, nodes: seq<Node>, item: FeedItem, entries: seq<Entry>) {
    && IsRising(ks, |nodes|) && |ks| == |entries|
    && AreEntriesFor(ks, nodes, item, entries) && OthersHaveNone(ks, nodes)
  }

  predicate AreEntriesFor(ks: seq<nat>, nodes: seq<Node>, item: FeedItem, entries: seq<Entry>)
    requires IsRising(ks, |nodes|) && |ks| == |entries|
  {
    forall j | 0 <= j < |ks| :: IsEntryFor(entries[j], nodes[ks[j]], item)
  }

  predicate OthersHaveNone(ks: seq<nat>, nodes: seq<Node>) {
    forall k | 0 <= k < |nodes| && k !in ks :: HasNoUrl(nodes[k])
  }

  predicate IsRising(ks: seq<nat>, n: nat) {
    && (forall j | 0 <= j < |ks| :: ks[j] < n)
    && (forall i, j | 0 <= i < j < |ks| :: ks[i] < ks[j])
  }

  predicate HasNoUrl(n: Node) {
    RenditionsOf(n) == [] || CarriesUrl(n, "")
  }

  /** An entry is its node's: its url, its kind, the post's date, and the node's id or else the post's. */
  predicate IsEntryFor(e: Entry, n: Node, item: FeedItem) {
    && e.url != "" && CarriesUrl(n, e.url) && e.takenAt == item.takenAt && (e.isVideo <==> n.mediaType == 2)
    && (!e.soleVideo ==> e.mediaId == if n.id != "" then n.id else item.id)
  }

  lemma {:induction false} FetchableNodes(nodes: seq<Node>, item: FeedItem) returns (ks: seq<nat>)
    ensures AreNodesOf(ks, nodes, item, Fetchable(nodes, item))
    ensures forall i | 0 <= i < |Fetchable(nodes, item)| :: !Fetchable(nodes, item)[i].soleVideo
  {
    ks := [];
    if nodes != [] {
      var last := |nodes| - 1;
      ks := FetchableNodes(nodes[..last], item);
      NodeEntry(nodes[last], item);
      OneNodeMore(ks, nodes, item, Fetchable(nodes[..last], item));
      if EntryOf(nodes[last], item).url != "" {
        ks := ks + [last];
      }
    }
  }

  lemma OneNodeMore(ks: seq<nat>, nodes: seq<Node>, item: FeedItem, entries: seq<Entry>)
    requires nodes != [] && AreNodesOf(ks, nodes[..|nodes| - 1], item, entries)
    ensures
      var last := |nodes| - 1;
      var e := EntryOf(nodes[last], item);
      if e.url == "" then AreNodesOf(ks, nodes, item, entries)
      else AreNodesOf(ks + [last], nodes, item, entries + [e])
  {
    var last := |nodes| - 1;
    NodeEntry(nodes[last], item);
    if EntryOf(nodes[last], item).url == "" {
      NodeWithoutUrl(ks, nodes, item, entries);
    } else {
      NodeWithUrl(ks, nodes, item, entries, EntryOf(nodes[last], item));
    }
  }

  lemma NodeWithoutUrl(ks: seq<nat>, nodes: seq<Node>, item: FeedItem, entries: seq<Entry>)
    requires nodes != [] && AreNodesOf(ks, nodes[..|nodes| - 1], item, entries) && HasNoUrl(nodes[|nodes| - 1])
    ensures AreNodesOf(ks, nodes, item, entries)
  {
    var init := nodes[..|nodes| - 1];
    assert IsRising(ks, |nodes|);
    forall j | 0 <= j < |ks| ensures IsEntryFor(entries[j], nodes[ks[j]], item) {
      assert IsEntryFor(entries[j], init[ks[j]], item);
    }
    forall k | 0 <= k < |nodes| && k !in ks ensures HasNoUrl(nodes[k]) {
      assert k < |init| ==> HasNoUrl(init[k]);
    }
  }

  lemma NodeWithUrl(ks: seq<nat>, nodes: seq<Node>, item: FeedItem, entries: seq<Entry>, e: Entry)
    requires nodes != [] && AreNodesOf(ks, nodes[..|nodes| - 1], item, entries)
    requires IsEntryFor(e, nodes[|nodes| - 1], item)
    ensures AreNodesOf(ks + [|nodes| - 1], nodes, item, entries + [e])
  {
    var init, grown := nodes[..|nodes| - 1], ks + [|nodes| - 1];
    assert IsRising(grown, |nodes|);
    forall j | 0 <= j < |grown| ensures IsEntryFor((entries + [e])[j], nodes[grown[j]], item) {
      assert j < |ks| ==> IsEntryFor(entries[j], init[ks[j]], item);
    }
    forall k | 0 <= k < |nodes| && k !in grown ensures HasNoUrl(nodes[k]) {
      assert grown[|ks|] in grown && (k < |init| ==> k !in ks && HasNoUrl(init[k]));
    }
  }

  /**
   The media of a post: its slides if it is a carousel, type 8, that has some, otherwise the post itself; one entry for
   each that has a url, in order.
   */
  lemma EntriesAreExact(item: FeedItem) returns (ks: seq<nat>)
    ensures
      var nodes := if item.node.mediaType == 8 && |item.carousel| > 0 then item.carousel else [item.node];
      AreNodesOf(ks, nodes, item, Entries(item))
  {
    ks := FetchableNodes(NodesOf(item), item);
  }

  lemma {:induction false} PlainEntries(nodes: seq<Node>, item: FeedItem, i: nat)
    requires i < |Fetchable(nodes, item)|
    ensures !Fetchable(nodes, item)[i].soleVideo && Fetchable(nodes, item)[i].url != ""
  {
    var init := Fetchable(nodes[..|nodes| - 1], item);
    if i < |init| {
      PlainEntries(nodes[..|nodes| - 1], item, i);
    }
  }

  // ---------------------------------------------------------------- the feed

  /** A timeline item with those of its entries that the file index would report missing when asked. */
  datatype Sight = Sight(item: FeedItem, missing: set<nat>)

  /** The same as the scan sees it. */
  datatype Post = Post(takenAt: int, entries: seq<Entry>, missing: set<nat>)

  function PostOf(s: Sight): Post {
    Post(s.item.takenAt, Entries(s.item), s.missing)
  }

  function PostsOf(sights: seq<Sight>): (posts: seq<Post>)
    ensures |posts| == |sights|
    ensures forall i | 0 <= i < |sights| :: posts[i] == PostOf(sights[i])
  {
    seq(|sights|, i requires 0 <= i < |sights| => PostOf(sights[i]))
  }

  /** What a fetch brings: a page, with whether the feed names a next one; or no page at all. */
  datatype Page = Page(sights: seq<Sight>, more: bool) | Broken

  datatype Config = Config(cutoff: Twitter.Time, maxPosts: int, forceFull: bool)

  function PostTime(p: Post): int {
    (p.takenAt * 1000 + Twitter.UNIX_EPOCH_MS) * Twitter.MILLISECOND
  }

  predicate IsOld(p: Post, cfg: Config) {
    cfg.cutoff != 0 && PostTime(p) < cfg.cutoff
  }

  predicate AllExisting(p: Post, cfg: Config) {
    !cfg.forceFull && |p.entries| > 0 && NoneMissing(p.missing, |p.entries|)
  }

  predicate NoneMissing(missing: set<nat>, n: nat) {
    n == 0 || (n - 1 !in missing && NoneMissing(missing, n - 1))
  }

  lemma {:induction false} MissingCounts(missing: set<nat>, i: nat, n: nat)
    requires i < n && i in missing
    ensures !NoneMissing(missing, n)
  {
    if i < n - 1 {
      MissingCounts(missing, i, n - 1);
    }
  }

  /** A post that counts towards the three in a row. */
  predicate IsQuiet(p: Post, cfg: Config) {
    IsOld(p, cfg) || AllExisting(p, cfg)
  }

  /** How many of the first `n` posts counted towards the cap. */
  function Taken(posts: seq<Post>, cfg: Config, n: nat): nat
    requires n <= |posts|
  {
    if n == 0 then 0 else Taken(posts, cfg, n - 1) + if IsOld(posts[n - 1], cfg) then 0 else 1
  }

  /** The media of those of the first `n` posts that are not older than the cutoff. */
  function Wanted(posts: seq<Post>, cfg: Config, n: nat): seq<Entry>
    requires n <= |posts|
  {
    if n == 0 then []
    else Wanted(posts, cfg, n - 1) + if IsOld(posts[n - 1], cfg) then [] else posts[n - 1].entries
  }

  predicate IsThirdQuiet(posts: seq<Post>, cfg: Config, n: nat)
    requires n < |posts|
  {
    n >= 2 && IsQuiet(posts[n - 2], cfg) && IsQuiet(posts[n - 1], cfg) && IsQuiet(posts[n], cfg)
  }

  /** Where a scan gives up: the cap is used up, or a third quiet post in a row. */
  predicate IsStop(posts: seq<Post>, cfg: Config, n: nat)
    requires n < |posts|
  {
    (cfg.maxPosts > 0 && Taken(posts, cfg, n) >= cfg.maxPosts) || IsThirdQuiet(posts, cfg, n)
  }

  predicate NoStopBefore(posts: seq<Post>, cfg: Config, n: nat)
    requires n <= |posts|
  {
    n == 0 || (!IsStop(posts, cfg, n - 1) && NoStopBefore(posts, cfg, n - 1))
  }

  lemma {:induction false} NoStopAt(posts: seq<Post>, cfg: Config, n: nat, k: nat)
    requires k < n <= |posts| && NoStopBefore(posts, cfg, n)
    ensures !IsStop(posts, cfg, k)
  {
    NoStopStep(posts, cfg, n);
    if k < n - 1 {
      NoStopAt(posts, cfg, n - 1, k);
    }
  }

  lemma NoStopStep(posts: seq<Post>, cfg: Config, n: nat)
    requires 0 < n <= |posts| && NoStopBefore(posts, cfg, n)
    ensures NoStopBefore(posts, cfg, n - 1) && !IsStop(posts, cfg, n - 1)
  {
  }

  /** The posts of a feed in order, up to its end or the first fetch that brings no page. */
  function Flat(feed: seq<Page>): seq<Post> {
    if feed == [] || feed[0].Broken? then []
    else PostsOf(feed[0].sights) + if feed[0].more then Flat(feed[1..]) else []
  }

  predicate EndsCleanly(feed: seq<Page>) {
    feed != [] && feed[0].Page? && (feed[0].more ==> EndsCleanly(feed[1..]))
  }

  datatype Verdict = AtStop | AtEnd | Broke | Cancelled

  predicate IsStart<T(==)>(a: seq<T>, b: seq<T>) {
    |a| <= |b| && forall i | 0 <= i < |a| :: a[i] == b[i]
  }

  /** What a scan makes of a feed; `n` posts were handled. */
  predicate ScanResult(feed: seq<Page>, cfg: Config, verdict: Verdict, jobs: seq<Entry>, n: nat) {
    var posts := Flat(feed);
    && n <= |posts| && NoStopBefore(posts, cfg, n)
    && IsStart(jobs, Wanted(posts, cfg, n))
    && (verdict != Cancelled ==> jobs == Wanted(posts, cfg, n))
    && (verdict == AtStop ==> n < |posts| && IsStop(posts, cfg, n))
    && (verdict == AtEnd ==> n == |posts| && EndsCleanly(feed))
    && (verdict == Broke ==> n == |posts| && !EndsCleanly(feed))
  }

  /** The check of a post's files: stops at the first that is missing. */
  method CheckFiles(p: Post, cfg: Config) returns (allExisting: bool)
    ensures allExisting == AllExisting(p, cfg)
  {
    allExisting := false;
    if !cfg.forceFull {
      allExisting := |p.entries| > 0;
      var i := 0;
      while i < |p.entries|
        invariant i <= |p.entries|
        invariant allExisting <==> |p.entries| > 0
        invariant NoneMissing(p.missing, i)
      {
        if i in p.missing {
          MissingCounts(p.missing, i, |p.entries|);
          allExisting := false;
          break;
        }
        i := i + 1;
      }
    }
  }

  /** Send a post's entries, unless the context is found cancelled at one of them. */
  method SendAll(entries: seq<Entry>, jobs: seq<Entry>, checks: nat, notices: set<nat>)
    returns (sent: seq<Entry>, seen: nat, aborted: bool)
    ensures sent <= jobs + entries
    ensures !aborted ==> sent == jobs + entries
    ensures aborted ==> notices != {}
  {
    sent, seen, aborted := jobs, checks, false;
    var i := 0;
    while i < |entries|
      invariant i <= |entries| && sent == jobs + entries[..i]
    {
      if seen in notices {
        return sent, seen, true;
      }
      sent, seen := sent + [entries[i]], seen + 1;
      i := i + 1;
    }
  }

  /** How many quiet posts end at `n`, up to two. */
  predicate StreakFits(posts: seq<Post>, cfg: Config, n: nat, streak: nat)
    requires n <= |posts|
  {
    && streak <= 2
    && (streak >= 1 <==> n >= 1 && IsQuiet(posts[n - 1], cfg))
    && (streak >= 2 <==> n >= 2 && IsQuiet(posts[n - 1], cfg) && IsQuiet(posts[n - 2], cfg))
  }

  datatype Progress = Progress(streak: nat, taken: nat, jobs: seq<Entry>)

  /** The counters and the queue after `n` posts without a stop. */
  predicate Reached(posts: seq<Post>, cfg: Config, n: nat, p: Progress) {
    && n <= |posts| && NoStopBefore(posts, cfg, n) && StreakFits(posts, cfg, n, p.streak)
    && p.taken == Taken(posts, cfg, n) && p.jobs == Wanted(posts, cfg, n)
  }

  predicate StopsHere(p: Progress, cfg: Config, quiet: bool) {
    (cfg.maxPosts > 0 && p.taken >= cfg.maxPosts) || (quiet && p.streak == 2)
  }

  function Advance(p: Progress, post: Post, cfg: Config): Progress {
    var streak := if IsQuiet(post, cfg) then p.streak + 1 else 0;
    if IsOld(post, cfg) then p.(streak := streak)
    else Progress(streak, p.taken + 1, p.jobs + post.entries)
  }

  lemma StopIsSeen(posts: seq<Post>, cfg: Config, n: nat, p: Progress)
    requires Reached(posts, cfg, n, p) && n < |posts|
    ensures StopsHere(p, cfg, IsQuiet(posts[n], cfg)) <==> IsStop(posts, cfg, n)
  {
  }

  lemma OnePostFurther(posts: seq<Post>, cfg: Config, n: nat, p: Progress)
    requires Reached(posts, cfg, n, p) && n < |posts| && !IsStop(posts, cfg, n)
    ensures Reached(posts, cfg, n + 1, Advance(p, posts[n], cfg))
  {
    StopIsSeen(posts, cfg, n, p);
  }

  /** What the loop's work on one post comes to. */
  predicate IsPostDone(p: Progress, post: Post, cfg: Config, notices: set<nat>, reachedOld: bool, aborted: bool,
                       next: Progress)
  {
    && reachedOld == StopsHere(p, cfg, IsQuiet(post, cfg))
    && if reachedOld then !aborted && next.jobs == p.jobs
       else if aborted then notices != {} && IsStart(next.jobs, Advance(p, post, cfg).jobs)
       else next == Advance(p, post, cfg)
  }

  /** The loop's work on one post. */
  method ScanPost(sight: Sight, cfg: Config, notices: set<nat>, p: Progress, checks0: nat, ghost seen: Post)
    returns (reachedOld: bool, aborted: bool, next: Progress, checks: nat)
    requires p.streak <= 2 && seen == PostOf(sight)
    ensures IsPostDone(p, seen, cfg, notices, reachedOld, aborted, next)
  {
    reachedOld, aborted, next, checks := false, false, p, checks0;
    var entries := CollectEntries(sight.item);
    var post := Post(sight.item.takenAt, entries, sight.missing);
    var older := cfg.cutoff != 0 && PostTime(post) < cfg.cutoff;
    var allExisting := CheckFiles(post, cfg);
    if cfg.maxPosts > 0 && p.taken >= cfg.maxPosts {
      reachedOld := true;
      return;
    }
    var streak := 0;
    if older || allExisting {
      streak := p.streak + 1;
      if streak >= 3 {
        reachedOld := true;
        return;
      }
    }
    if older {
      next := p.(streak := streak);
      return;
    }
    var jobs;
    jobs, checks, aborted := SendAll(entries, p.jobs, checks, notices);
    next := Progress(streak, p.taken + 1, jobs);
  }

  /** The scan stopped at post `n` with these jobs, cut short or at a stop. */
  predicate HasEnded(posts: seq<Post>, cfg: Config, n: nat, jobs: seq<Entry>, aborted: bool) {
    && n <= |posts| && NoStopBefore(posts, cfg, n)
    && if aborted then IsStart(jobs, Wanted(posts, cfg, n))
       else n < |posts| && IsStop(posts, cfg, n) && jobs == Wanted(posts, cfg, n)
  }

  /** Where a scan is: cut short, at a stop, or still under way with `n` posts handled. */
  predicate IsAt(posts: seq<Post>, cfg: Config, notices: set<nat>, n: nat, p: Progress, reachedOld: bool,
                 aborted: bool)
  {
    if aborted then notices != {} && HasEnded(posts, cfg, n, p.jobs, true)
    else if reachedOld then HasEnded(posts, cfg, n, p.jobs, false)
    else Reached(posts, cfg, n, p)
  }

  /** The loop's work on post `n`, seen from the whole feed. */
  method ScanAt(sight: Sight, cfg: Config, notices: set<nat>, p: Progress, checks0: nat, ghost posts: seq<Post>,
                ghost n: nat)
    returns (reachedOld: bool, aborted: bool, next: Progress, checks: nat, ghost n': nat)
    requires n < |posts| && posts[n] == PostOf(sight) && Reached(posts, cfg, n, p)
    ensures IsAt(posts, cfg, notices, n', next, reachedOld, aborted)
    ensures !reachedOld && !aborted ==> n' == n + 1
  {
    reachedOld, aborted, next, checks := ScanPost(sight, cfg, notices, p, checks0, posts[n]);
    n' := PostIsDone(posts, cfg, notices, n, p, reachedOld, aborted, next);
  }

  lemma PostIsDone(posts: seq<Post>, cfg: Config, notices: set<nat>, n: nat, p: Progress, reachedOld: bool,
                   aborted: bool, next: Progress)
    returns (n': nat)
    requires Reached(posts, cfg, n, p) && n < |posts|
    requires IsPostDone(p, posts[n], cfg, notices, reachedOld, aborted, next)
    ensures IsAt(posts, cfg, notices, n', next, reachedOld, aborted)
    ensures !reachedOld && !aborted ==> n' == n + 1
  {
    StopIsSeen(posts, cfg, n, p);
    n' := n;
    if reachedOld {
      StoppedAt(posts, cfg, n, p, next.jobs);
    } else {
      OnePostFurther(posts, cfg, n, p);
      n' := n + 1;
      if aborted {
        AbortedAt(posts, cfg, n', Advance(p, posts[n], cfg), next.jobs);
      }
    }
  }

  lemma StoppedAt(posts: seq<Post>, cfg: Config, n: nat, p: Progress, jobs: seq<Entry>)
    requires Reached(posts, cfg, n, p) && n < |posts| && IsStop(posts, cfg, n) && jobs == p.jobs
    ensures HasEnded(posts, cfg, n, jobs, false)
  {
  }

  lemma AbortedAt(posts: seq<Post>, cfg: Config, n: nat, p: Progress, jobs: seq<Entry>)
    requires Reached(posts, cfg, n, p) && IsStart(jobs, p.jobs)
    ensures HasEnded(posts, cfg, n, jobs, true)
  {
  }

  /** A page's posts are those of the feed from `n` on. */
  predicate IsStretch(posts: seq<Post>, n: nat, page: seq<Sight>) {
    n + |page| <= |posts| && forall i | 0 <= i < |page| :: PostOf(page[i]) == posts[n + i]
  }

  /** One page; `n0` is where it starts in the whole feed. */
  method ScanPage(page: seq<Sight>, cfg: Config, notices: set<nat>, p0: Progress, checks0: nat,
                  ghost posts: seq<Post>, ghost n0: nat)
    returns (reachedOld: bool, aborted: bool, p: Progress, checks: nat, ghost n: nat)
    requires IsStretch(posts, n0, page) && Reached(posts, cfg, n0, p0)
    ensures IsAt(posts, cfg, notices, n, p, reachedOld, aborted)
    ensures !reachedOld && !aborted ==> n == n0 + |page|
  {
    reachedOld, aborted, p, checks, n := false, false, p0, checks0, n0;
    var i := 0;
    while i < |page| && !reachedOld && !aborted
      invariant i <= |page|
      invariant IsAt(posts, cfg, notices, n, p, reachedOld, aborted)
      invariant !reachedOld && !aborted ==> n == n0 + i
    {
      reachedOld, aborted, p, checks, n := ScanAt(page[i], cfg, notices, p, checks, posts, n);
      i := i + 1;
    }
  }

  lemma FlatStep(feed: seq<Page>, n0: nat, n: nat, posts: seq<Post>)
    requires feed != [] && feed[0].Page? && n0 <= |posts| && posts[n0..] == Flat(feed)
    requires n == n0 + |feed[0].sights|
    ensures n <= |posts|
    ensures feed[0].more ==> posts[n..] == Flat(feed[1..])
    ensures !feed[0].more ==> n == |posts|
  {
    assert posts[n0..][n - n0..] == posts[n..];
  }

  lemma PageStarts(feed: seq<Page>, n: nat, posts: seq<Post>)
    requires feed != [] && feed[0].Page? && n <= |posts| && posts[n..] == Flat(feed)
    ensures IsStretch(posts, n, feed[0].sights)
  {
    FlatStep(feed, n, n + |feed[0].sights|, posts);
    forall i | 0 <= i < |feed[0].sights| ensures PostOf(feed[0].sights[i]) == posts[n + i] {
      assert posts[n..][i] == posts[n + i];
    }
  }

  /** A scan that has come `n` posts far, with the pages of `rest` to come. */
  predicate IsScanning(feed: seq<Page>, cfg: Config, rest: seq<Page>, n: nat, p: Progress) {
    && n <= |Flat(feed)| && Flat(feed)[n..] == Flat(rest)
    && (EndsCleanly(feed) <==> EndsCleanly(rest))
    && Reached(Flat(feed), cfg, n, p)
  }

  /** The paged loop of ScrapeInstagramUser. A check numbered in `notices` finds the context cancelled. */
  method Scan(feed: seq<Page>, cfg: Config, notices: set<nat>)
    returns (verdict: Verdict, jobs: seq<Entry>, ghost n: nat)
    ensures ScanResult(feed, cfg, verdict, jobs, n)
    ensures verdict == Cancelled ==> notices != {}
  {
    var rest, checks, p, done := feed, 0, Progress(0, 0, []), false;
    verdict, n := Broke, 0;
    while !done
      invariant IsTurn(feed, cfg, notices, rest, p, n, done, verdict)
      decreases !done, |rest|
    {
      done, verdict, rest, p, checks, n := ScanNext(feed, cfg, notices, rest, p, checks, n);
    }
    jobs := p.jobs;
  }

  /** Between two pages: under way, or ended with a verdict. */
  predicate IsTurn(feed: seq<Page>, cfg: Config, notices: set<nat>, rest: seq<Page>, p: Progress, n: nat, done: bool,
                   verdict: Verdict)
  {
    if done then ScanResult(feed, cfg, verdict, p.jobs, n) && (verdict == Cancelled ==> notices != {})
    else IsScanning(feed, cfg, rest, n, p)
  }

  lemma CutShort(feed: seq<Page>, cfg: Config, rest: seq<Page>, p: Progress, n: nat)
    requires IsScanning(feed, cfg, rest, n, p)
    ensures ScanResult(feed, cfg, Cancelled, p.jobs, n)
    ensures rest == [] || rest[0].Broken? ==> ScanResult(feed, cfg, Broke, p.jobs, n)
  {
  }

  /** What a page that ended the scan leaves. */
  lemma PageEnded(feed: seq<Page>, cfg: Config, p: Progress, n: nat, aborted: bool)
    requires HasEnded(Flat(feed), cfg, n, p.jobs, aborted)
    ensures ScanResult(feed, cfg, if aborted then Cancelled else AtStop, p.jobs, n)
  {
  }

  /** What a page read to its end leaves. */
  lemma PageTurned(feed: seq<Page>, cfg: Config, rest: seq<Page>, n0: nat, n: nat, p: Progress)
    requires rest != [] && rest[0].Page? && n == n0 + |rest[0].sights|
    requires n0 <= |Flat(feed)| && Flat(feed)[n0..] == Flat(rest)
    requires EndsCleanly(feed) <==> EndsCleanly(rest)
    requires Reached(Flat(feed), cfg, n, p)
    ensures rest[0].more ==> IsScanning(feed, cfg, rest[1..], n, p)
    ensures !rest[0].more ==> ScanResult(feed, cfg, AtEnd, p.jobs, n)
  {
    FlatStep(rest, n0, n, Flat(feed));
    if rest[0].more {
      OnToTheNext(feed, cfg, rest[1..], n, p);
    } else {
      AllRead(feed, cfg, n, p);
    }
  }

  lemma OnToTheNext(feed: seq<Page>, cfg: Config, rest: seq<Page>, n: nat, p: Progress)
    requires Reached(Flat(feed), cfg, n, p) && Flat(feed)[n..] == Flat(rest)
    requires EndsCleanly(feed) <==> EndsCleanly(rest)
    ensures IsScanning(feed, cfg, rest, n, p)
  {
  }

  lemma AllRead(feed: seq<Page>, cfg: Config, n: nat, p: Progress)
    requires Reached(Flat(feed), cfg, n, p) && n == |Flat(feed)| && EndsCleanly(feed)
    ensures ScanResult(feed, cfg, AtEnd, p.jobs, n)
  {
  }

  /** One turn of that loop: the check of the context, the fetch, and the page if there is one. */
  method ScanNext(ghost feed: seq<Page>, cfg: Config, notices: set<nat>, rest: seq<Page>, p: Progress, checks0: nat,
                  ghost n0: nat)
    returns (done: bool, verdict: Verdict, rest': seq<Page>, p': Progress, checks: nat, ghost n: nat)
    requires IsScanning(feed, cfg, rest, n0, p)
    ensures IsTurn(feed, cfg, notices, rest', p', n, done, verdict)
    ensures !done ==> |rest'| < |rest|
  {
    CutShort(feed, cfg, rest, p, n0);
    if checks0 in notices || rest == [] || rest[0].Broken? {
      done, verdict, rest', p', checks, n := true, if checks0 in notices then Cancelled else Broke, rest, p, checks0, n0;
    } else {
      done, verdict, p', checks, n := ScanFetched(feed, cfg, notices, rest, p, checks0 + 1, n0);
      rest' := rest[1..];
    }
  }

  /** The page just fetched, and the wait for the limiter before the next. */
  method ScanFetched(ghost feed: seq<Page>, cfg: Config, notices: set<nat>, rest: seq<Page>, p: Progress, checks0: nat,
                     ghost n0: nat)
    returns (done: bool, verdict: Verdict, p': Progress, checks: nat, ghost n: nat)
    requires IsScanning(feed, cfg, rest, n0, p) && rest != [] && rest[0].Page?
    ensures IsTurn(feed, cfg, notices, rest[1..], p', n, done, verdict)
  {
    PageStarts(rest, n0, Flat(feed));
    var reachedOld, aborted;
    reachedOld, aborted, p', checks, n := ScanPage(rest[0].sights, cfg, notices, p, checks0, Flat(feed), n0);
    if aborted || reachedOld {
      PageEnded(feed, cfg, p', n, aborted);
      done, verdict := true, if aborted then Cancelled else AtStop;
    } else {
      PageTurned(feed, cfg, rest, n0, n, p');
      if !rest[0].more {
        done, verdict := true, AtEnd;
      } else {
        CutShort(feed, cfg, rest[1..], p', n);
        done, verdict, checks := checks in notices, Cancelled, checks + 1;
      }
    }
  }

  // ---------------------------------------------------------------- what a scan promises

  lemma FirstStopIsUnique(posts: seq<Post>, cfg: Config, m: nat, n: nat)
    requires m <= |posts| && n <= |posts| && NoStopBefore(posts, cfg, m) && NoStopBefore(posts, cfg, n)
    requires m == |posts| || IsStop(posts, cfg, m)
    requires n == |posts| || IsStop(posts, cfg, n)
    ensures m == n
  {
    if m < n {
      NoStopAt(posts, cfg, n, m);
    } else if n < m {
      NoStopAt(posts, cfg, m, n);
    }
  }

  /** How a feed is cut into pages changes neither the verdict nor the jobs. */
  lemma PagesDoNotMatter(feed: seq<Page>, other: seq<Page>, cfg: Config, verdict: Verdict, verdict': Verdict,
                         jobs: seq<Entry>, jobs': seq<Entry>, n: nat, n': nat)
    requires Flat(feed) == Flat(other) && EndsCleanly(feed) == EndsCleanly(other)
    requires ScanResult(feed, cfg, verdict, jobs, n) && verdict != Cancelled
    requires ScanResult(other, cfg, verdict', jobs', n') && verdict' != Cancelled
    ensures (verdict, jobs, n) == (verdict', jobs', n')
  {
    FirstStopIsUnique(Flat(feed), cfg, n, n');
  }

  /** A scrape succeeds when the scan was neither broken off nor cancelled and no download failed. */
  predicate Succeeds(verdict: Verdict, cancelled: bool, failed: nat) {
    verdict in {AtStop, AtEnd} && !cancelled && failed == 0
  }

  predicate Asks(p: Post, cfg: Config, e: Entry) {
    !IsDatedBefore(p, cfg.cutoff) && e in p.entries
  }

  predicate IsAsked(posts: seq<Post>, cfg: Config, n: nat, e: Entry)
    requires n <= |posts|
  {
    exists i | 0 <= i < n :: Asks(posts[i], cfg, e)
  }

  lemma {:induction false} WantedHolds(posts: seq<Post>, cfg: Config, n: nat, e: Entry)
    requires n <= |posts|
    ensures e in Wanted(posts, cfg, n) <==> IsAsked(posts, cfg, n, e)
  {
    if n > 0 {
      WantedHolds(posts, cfg, n - 1, e);
      QuietIsSettled(posts[n - 1], cfg);
      AskedGrows(posts, cfg, n - 1, e);
    }
  }

  lemma AskedGrows(posts: seq<Post>, cfg: Config, n: nat, e: Entry)
    requires n < |posts|
    ensures IsAsked(posts, cfg, n + 1, e) <==> IsAsked(posts, cfg, n, e) || Asks(posts[n], cfg, e)
  {
  }

  /** The scan's jobs are the media of the posts before the stop that are not older than the cutoff. */
  lemma JobsAreExact(feed: seq<Page>, cfg: Config, verdict: Verdict, jobs: seq<Entry>, n: nat, e: Entry)
    requires ScanResult(feed, cfg, verdict, jobs, n) && verdict != Cancelled
    ensures e in jobs <==> IsAsked(Flat(feed), cfg, n, e)
  {
    WantedHolds(Flat(feed), cfg, n, e);
  }

  /**
   A successful run: the jobs are exactly the media of the posts not older than the cutoff before the first stop, the
   pool counted each of them once, and none failed.
   */
  lemma SuccessIsExact(feed: seq<Page>, cfg: Config, verdict: Verdict, jobs: seq<Entry>, n: nat, cancelled: bool,
                       states: seq<Pool.State<Entry>>, actions: seq<Pool.Action<Entry>>, e: Entry)
    requires ScanResult(feed, cfg, verdict, jobs, n)
    requires Pool.IsRun(states, actions, 5) && Pool.IsDone(states[|actions|])
    requires states[|actions|].sent == jobs
    requires Succeeds(verdict, cancelled, states[|actions|].failed)
    ensures n == |Flat(feed)| || IsStop(Flat(feed), cfg, n)
    ensures e in jobs <==> IsAsked(Flat(feed), cfg, n, e)
    ensures IsAsked(Flat(feed), cfg, n, e) ==> Pool.Settled(states[|actions|], e)
    ensures states[|actions|].downloaded + states[|actions|].skipped == |jobs|
    ensures multiset(Pool.Items(states[|actions|].log)) == multiset(jobs)
  {
    Pool.TalliesAreExact(states, actions, 5);
    JobsAreExact(feed, cfg, verdict, jobs, n, e);
  }

  /** Older than the cutoff by its own date, in seconds since 1970, unless there is no cutoff. */
  predicate IsDatedBefore(p: Post, cutoff: Twitter.Time) {
    cutoff != 0 && (Twitter.DaysBefore(1970) * 86_400 + p.takenAt) * 1_000_000_000 < cutoff
  }

  /** A post a sync need not look at: an old one, or, unless the sync is forced, one whose files are all there. */
  predicate IsSettledPost(p: Post, cfg: Config) {
    || IsDatedBefore(p, cfg.cutoff)
    || (!cfg.forceFull && |p.entries| > 0 && forall i | 0 <= i < |p.entries| :: i !in p.missing)
  }

  lemma {:induction false} NoneMissingMeans(missing: set<nat>, n: nat)
    ensures NoneMissing(missing, n) <==> forall i | 0 <= i < n :: i !in missing
  {
    if n > 0 {
      NoneMissingMeans(missing, n - 1);
    }
  }

  lemma QuietIsSettled(p: Post, cfg: Config)
    ensures IsOld(p, cfg) <==> IsDatedBefore(p, cfg.cutoff)
    ensures IsQuiet(p, cfg) <==> IsSettledPost(p, cfg)
  {
    NoneMissingMeans(p.missing, |p.entries|);
  }

  /** Three settled posts in a row end the scan at or before post `i`. */
  predicate IsHidden(posts: seq<Post>, cfg: Config, i: nat)
    requires i < |posts|
  {
    exists k: nat | k + 2 <= i :: AreThreeSettled(posts, cfg, k)
  }

  predicate AreThreeSettled(posts: seq<Post>, cfg: Config, k: nat)
    requires k + 2 < |posts|
  {
    IsSettledPost(posts[k], cfg) && IsSettledPost(posts[k + 1], cfg) && IsSettledPost(posts[k + 2], cfg)
  }

  lemma HiddenByThree(posts: seq<Post>, cfg: Config, i: nat)
    requires i < |posts|
    ensures IsHidden(posts, cfg, i) <==> exists k | 0 <= k <= i :: IsThirdQuiet(posts, cfg, k)
  {
    forall j | 0 <= j < |posts| ensures IsQuiet(posts[j], cfg) <==> IsSettledPost(posts[j], cfg) {
      QuietIsSettled(posts[j], cfg);
    }
    if k :| 0 <= k <= i && IsThirdQuiet(posts, cfg, k) {
      assert AreThreeSettled(posts, cfg, k - 2);
    }
    if k: nat :| k + 2 <= i && AreThreeSettled(posts, cfg, k) {
      assert IsThirdQuiet(posts, cfg, k + 2);
    }
  }

  /** The posts among the first `n` that count towards the cap. */
  function Counted(posts: seq<Post>, cfg: Config, n: nat): set<nat>
    requires n <= |posts|
  {
    set i | 0 <= i < n && !IsDatedBefore(posts[i], cfg.cutoff)
  }

  lemma {:induction false} TakenCounts(posts: seq<Post>, cfg: Config, n: nat)
    requires n <= |posts|
    ensures Taken(posts, cfg, n) == |Counted(posts, cfg, n)|
  {
    if n > 0 {
      TakenCounts(posts, cfg, n - 1);
      QuietIsSettled(posts[n - 1], cfg);
      var before, now := Counted(posts, cfg, n - 1), Counted(posts, cfg, n);
      assert now == if IsDatedBefore(posts[n - 1], cfg.cutoff) then before else before + {n - 1};
    } else {
      assert Counted(posts, cfg, 0) == {};
    }
  }

  /**
   A cap lets a scan handle so many posts that are not old, and stops it at the first post after them; where a scan
   stops before its cap is used up, three settled posts in a row were the reason.
   */
  lemma CapIsExact(feed: seq<Page>, cfg: Config, verdict: Verdict, jobs: seq<Entry>, n: nat)
    requires ScanResult(feed, cfg, verdict, jobs, n)
    ensures cfg.maxPosts > 0 ==> |Counted(Flat(feed), cfg, n)| <= cfg.maxPosts
    ensures verdict == AtStop ==>
      || (cfg.maxPosts > 0 && |Counted(Flat(feed), cfg, n)| == cfg.maxPosts)
      || (n >= 2 && n < |Flat(feed)| && AreThreeSettled(Flat(feed), cfg, n - 2))
  {
    var posts := Flat(feed);
    TakenCounts(posts, cfg, n);
    if n > 0 {
      NoStopAt(posts, cfg, n, n - 1);
    }
    if verdict == AtStop && IsThirdQuiet(posts, cfg, n) {
      QuietIsSettled(posts[n - 2], cfg);
      QuietIsSettled(posts[n - 1], cfg);
      QuietIsSettled(posts[n], cfg);
    }
  }

  /** Exactly which posts a scan without a cap reaches: those that no three settled posts in a row hide. */
  lemma ReachedExactly(feed: seq<Page>, cfg: Config, verdict: Verdict, jobs: seq<Entry>, n: nat, i: nat)
    requires ScanResult(feed, cfg, verdict, jobs, n) && verdict in {AtStop, AtEnd} && cfg.maxPosts <= 0
    requires i < |Flat(feed)|
    ensures i < n <==> !IsHidden(Flat(feed), cfg, i)
  {
    var posts := Flat(feed);
    HiddenByThree(posts, cfg, i);
    if i < n {
      forall k | 0 <= k <= i ensures !IsThirdQuiet(posts, cfg, k) {
        NoStopAt(posts, cfg, n, k);
      }
    } else {
      assert IsThirdQuiet(posts, cfg, n);
    }
  }

  /**
   Exactly when an uncapped sync misses nothing: it reaches every post that is not older than the cutoff if and only
   if none of them comes at or after a third settled post in a row.
   */
  lemma NothingIsMissedExactly(feed: seq<Page>, cfg: Config, verdict: Verdict, jobs: seq<Entry>, n: nat)
    requires ScanResult(feed, cfg, verdict, jobs, n) && verdict in {AtStop, AtEnd} && cfg.maxPosts <= 0
    ensures (forall i | 0 <= i < |Flat(feed)| && !IsDatedBefore(Flat(feed)[i], cfg.cutoff) :: i < n) <==>
      forall i | 0 <= i < |Flat(feed)| && !IsDatedBefore(Flat(feed)[i], cfg.cutoff) :: !IsHidden(Flat(feed), cfg, i)
  {
    forall i | 0 <= i < |Flat(feed)| ensures i < n <==> !IsHidden(Flat(feed), cfg, i) {
      ReachedExactly(feed, cfg, verdict, jobs, n, i);
    }
  }

  /** Newest first, but for the first `pinned` posts. */
  predicate NewestFirstAfter(posts: seq<Post>, pinned: nat) {
    forall i, j | pinned <= i < j < |posts| :: PostTime(posts[i]) >= PostTime(posts[j])
  }

  lemma OldAfterThird(posts: seq<Post>, cfg: Config, n: nat, i: nat)
    requires n <= i < |posts| && IsThirdQuiet(posts, cfg, n)
    requires cfg.forceFull && NewestFirstAfter(posts, 2)
    ensures IsOld(posts[i], cfg)
  {
    assert n == i || PostTime(posts[n]) >= PostTime(posts[i]);
  }

  /** So two pinned posts never hide anything from a full sync: all it does not reach is older than the cutoff. */
  lemma PinnedPostsHideNothing(feed: seq<Page>, cfg: Config, verdict: Verdict, jobs: seq<Entry>, n: nat, i: nat)
    requires ScanResult(feed, cfg, verdict, jobs, n) && verdict in {AtStop, AtEnd}
    requires cfg.forceFull && cfg.maxPosts <= 0 && NewestFirstAfter(Flat(feed), 2)
    requires i < |Flat(feed)| && !IsOld(Flat(feed)[i], cfg)
    ensures i < n && forall e | e in Flat(feed)[i].entries :: e in jobs
  {
    var posts := Flat(feed);
    ReachedExactly(feed, cfg, verdict, jobs, n, i);
    HiddenByThree(posts, cfg, i);
    if IsHidden(posts, cfg, i) {
      var k :| 0 <= k <= i && IsThirdQuiet(posts, cfg, k);
      OldAfterThird(posts, cfg, k, i);
    }
    QuietIsSettled(posts[i], cfg);
    forall e | e in posts[i].entries ensures e in jobs {
      assert Asks(posts[i], cfg, e);
      JobsAreExact(feed, cfg, verdict, jobs, n, e);
    }
  }

  /** And three do: the scan ends at the third one, and succeeds without having seen what follows. */
  lemma ThreePinnedPostsHideTheRest(feed: seq<Page>, cfg: Config, verdict: Verdict, jobs: seq<Entry>, n: nat)
    requires ScanResult(feed, cfg, verdict, jobs, n) && verdict != Cancelled
    requires |Flat(feed)| >= 3 && forall i | 0 <= i < 3 :: IsOld(Flat(feed)[i], cfg)
    ensures verdict == AtStop && jobs == []
  {
    var posts := Flat(feed);
    assert IsOld(posts[0], cfg) && IsOld(posts[1], cfg) && IsOld(posts[2], cfg);
    assert IsThirdQuiet(posts, cfg, 2);
    if n > 2 {
      NoStopAt(posts, cfg, n, 2);
    }
    NothingWanted(posts, cfg, n);
  }

  lemma {:induction false} NothingWanted(posts: seq<Post>, cfg: Config, n: nat)
    requires n <= |posts| && forall i | 0 <= i < n :: IsOld(posts[i], cfg)
    ensures Wanted(posts, cfg, n) == []
  {
    if n > 0 {
      NothingWanted(posts, cfg, n - 1);
    }
  }
}
