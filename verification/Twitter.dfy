/** One Twitter scrape: where the loop over a newest-first timeline stops, and what it queues before that. */
module Twitter {
  import opened Basics
  import opened Text

  type Time = nat

  datatype Tweet = Tweet(
    id: string, text: string, isRetweet: bool, photos: seq<string>, videos: seq<string>, gifs: seq<string>)

  /** What a timeline channel carries. */
  datatype TweetResult = Tweeted(tweet: Tweet) | Broken

  datatype Config = Config(
    saveText: bool, skipRetweets: bool, filters: seq<string>, downloadPhotos: bool, downloadVideos: bool)

  /** A download job; `date` is None for "unknown_date". */
  datatype Item = Item(url: string, date: Option<Time>, tweetId: string, isVideo: bool)

  const MILLISECOND: Time := 1_000_000
  /** Milliseconds from Go's zero time to the Unix epoch. */
  const UNIX_EPOCH_MS: int := 62_135_596_800_000
  const SNOWFLAKE_EPOCH_MS: int := 1_288_834_974_657

  /** The instant a snowflake id encodes: its bits above the lowest 22 are milliseconds. */
  function SnowflakeTime(id: int): (t: Time)
    requires IsInt64(id)
    ensures t > 0
  {
    (id / 0x40_0000 + SNOWFLAKE_EPOCH_MS + UNIX_EPOCH_MS) * MILLISECOND
  }

  /** The last day of the year before, counted from day 1 of year 1 in the Gregorian calendar. */
  function DaysBefore(year: nat): nat
    requires year > 0
  {
    365 * (year - 1) + (year - 1) / 4 - (year - 1) / 100 + (year - 1) / 400
  }

  const DAY_MS := 86_400_000

  const DAY: Time := DAY_MS * MILLISECOND

  /** The Unix epoch, and the epoch of the ids: 4 November 2010, 01:42:54.657 UTC, the 308th day of its year. */
  lemma Epochs()
    ensures UNIX_EPOCH_MS == DaysBefore(1970) * DAY_MS
    ensures SnowflakeTime(0) == (DaysBefore(2010) + 307) * DAY + 6_174_657 * MILLISECOND
  {
    assert DaysBefore(1970) == 719_162 && DaysBefore(2010) == 733_772;
  }

  /** From there on 2^22 ids share a millisecond. */
  lemma SnowflakeClock(id: int) returns (ms: int)
    requires IsInt64(id)
    ensures SnowflakeTime(id) == SnowflakeTime(0) + ms * MILLISECOND
    ensures ms * 0x40_0000 <= id < (ms + 1) * 0x40_0000
  {
    ms := id / 0x40_0000;
  }

  function TimeOf(t: Tweet): Option<Time> {
    var id := ParseInt(t.id);
    if id.None? then None else Some(SnowflakeTime(id.value))
  }

  // ---------------------------------------------------------------- filters and the cutoff

  function ToLower(s: string): (r: string)
    ensures |r| == |s|
  {
    if s == "" then "" else [Lower(s[0])] + ToLower(s[1..])
  }

  function Lower(c: char): char {
    if 'A' <= c <= 'Z' then c - 'A' + 'a' else c
  }

  predicate MatchesFilters(text: string, filters: seq<string>) {
    filters == [] || exists f | f in filters :: Contains(ToLower(text), ToLower(f))
  }

  function Cutoff(since: Time, lastSync: Time): Time {
    if since > lastSync then since else lastSync
  }

  lemma {:induction false} ToLowerAt(s: string, i: nat)
    requires i < |s|
    ensures ToLower(s)[i] == Lower(s[i])
  {
    if i > 0 {
      ToLowerAt(s[1..], i - 1);
    }
  }

  /** The same letters, capital or small. */
  predicate IsSameLetter(a: char, b: char) {
    || a == b || ('A' <= a <= 'Z' && b as int == a as int + 32) || ('A' <= b <= 'Z' && a as int == b as int + 32)
  }

  lemma LowerIsSameLetter(a: char, b: char)
    ensures Lower(a) == Lower(b) <==> IsSameLetter(a, b)
  {
    assert 'A' as int == 65 && 'Z' as int == 90 && 'a' as int == 97;
  }

  predicate OccursAnyCase(text: string, i: nat, f: string) {
    i + |f| <= |text| && forall j | 0 <= j < |f| :: IsSameLetter(text[i + j], f[j])
  }

  lemma OccursLower(text: string, i: nat, f: string)
    ensures OccursAt(ToLower(text), i, ToLower(f)) <==> OccursAnyCase(text, i, f)
  {
    if i + |f| <= |text| {
      var part, low := ToLower(text)[i..i + |f|], ToLower(f);
      forall j | 0 <= j < |f| ensures part[j] == low[j] <==> IsSameLetter(text[i + j], f[j]) {
        ToLowerAt(text, i + j);
        ToLowerAt(f, j);
        LowerIsSameLetter(text[i + j], f[j]);
      }
      if part == low {
        assert forall j | 0 <= j < |f| :: part[j] == low[j];
      }
    }
  }

  predicate HasAnyCase(text: string, f: string) {
    exists i: nat | i <= |text| :: OccursAnyCase(text, i, f)
  }

  /** A text passes if there are no filters, or some filter occurs in it in whatever case. */
  lemma FiltersIgnoreCase(text: string, filters: seq<string>)
    ensures MatchesFilters(text, filters) <==> filters == [] || exists f | f in filters :: HasAnyCase(text, f)
  {
    forall f ensures Contains(ToLower(text), ToLower(f)) <==> HasAnyCase(text, f) {
      forall i: nat ensures OccursAt(ToLower(text), i, ToLower(f)) <==> OccursAnyCase(text, i, f) {
        OccursLower(text, i, f);
      }
    }
  }

  // ---------------------------------------------------------------- one tweet

  predicate IsOld(t: Tweet, cutoff: Time) {
    cutoff != 0 && TimeOf(t).Some? && TimeOf(t).value < cutoff
  }

  predicate IsKept(t: Tweet, cfg: Config) {
    !(t.isRetweet && (cfg.skipRetweets || !cfg.saveText)) && MatchesFilters(t.text, cfg.filters)
  }

  function LargePhoto(url: string): string {
    if Contains(url, "?") then url else url + "?format=jpg&name=large"
  }

  function ItemOf(url: string, t: Tweet, isVideo: bool): Item {
    Item(if isVideo then url else LargePhoto(url), TimeOf(t), t.id, isVideo)
  }

  /** The jobs one of a tweet's media lists asks for. */
  function ListItems(urls: seq<string>, t: Tweet, isVideo: bool): seq<Item> {
    if urls == [] then []
    else ListItems(urls[..|urls| - 1], t, isVideo) + Fetchable(ItemOf(urls[|urls| - 1], t, isVideo))
  }

  /** Items without a url are not queued. */
  function Fetchable(item: Item): seq<Item> {
    if item.url == "" then [] else [item]
  }

  lemma ListItemsGrow(urls: seq<string>, n: nat, t: Tweet, isVideo: bool)
    requires n < |urls|
    ensures ListItems(urls[..n + 1], t, isVideo)
         == ListItems(urls[..n], t, isVideo) + Fetchable(ItemOf(urls[n], t, isVideo))
  {
    assert urls[..n + 1][..n] == urls[..n];
  }

  /** The jobs a tweet asks for, in the order the loop queues them. */
  function Media(t: Tweet, cfg: Config): seq<Item> {
    (if cfg.downloadPhotos then ListItems(t.photos, t, false) else [])
    + (if cfg.downloadVideos then ListItems(t.videos, t, true) else [])
    + (if cfg.downloadVideos then ListItems(t.gifs, t, true) else [])
  }

  /**
   A job of a tweet, by its lists: a video or gif of its own url, or a photo, in its large form unless its url has a
   query already; so a photo without a url is asked for by the bare query.
   */
  predicate IsJobOf(item: Item, t: Tweet, cfg: Config) {
    && item.url != "" && item.date == TimeOf(t) && item.tweetId == t.id
    && if item.isVideo then cfg.downloadVideos && (item.url in t.videos || item.url in t.gifs)
       else cfg.downloadPhotos && exists p | p in t.photos :: IsLargeForm(item.url, p)
  }

  predicate IsLargeForm(url: string, photo: string) {
    url == photo + if '?' in photo then "" else "?format=jpg&name=large"
  }

  lemma QueryMark(s: string)
    ensures Contains(s, "?") <==> '?' in s
  {
    if '?' in s {
      var i: nat :| i < |s| && s[i] == '?';
      assert s[i..i + 1] == "?";
      assert OccursAt(s, i, "?");
    }
    if i: nat :| i <= |s| && OccursAt(s, i, "?") {
      assert s[i] == s[i..i + 1][0];
    }
  }

  /** The form in which a list's url is asked for. */
  predicate IsFormOf(url: string, given: string, isVideo: bool) {
    if isVideo then url == given else IsLargeForm(url, given)
  }

  lemma {:induction false} ListItemsAre(urls: seq<string>, t: Tweet, isVideo: bool, item: Item)
    ensures item in ListItems(urls, t, isVideo) <==>
      && item.url != "" && item.date == TimeOf(t) && item.tweetId == t.id && item.isVideo == isVideo
      && exists u | u in urls :: IsFormOf(item.url, u, isVideo)
  {
    if urls != [] {
      var init, last := urls[..|urls| - 1], urls[|urls| - 1];
      assert forall u :: u in urls <==> u in init || u == last;
      ListItemsAre(init, t, isVideo, item);
      FetchableIs(last, t, isVideo, item);
    }
  }

  lemma FetchableIs(url: string, t: Tweet, isVideo: bool, item: Item)
    ensures item in Fetchable(ItemOf(url, t, isVideo)) <==>
      && item.url != "" && item.date == TimeOf(t) && item.tweetId == t.id && item.isVideo == isVideo
      && IsFormOf(item.url, url, isVideo)
  {
    QueryMark(url);
    assert url + "" == url;
  }

  /** A tweet asks for all its media that are wanted, and nothing else. */
  lemma MediaIsExact(t: Tweet, cfg: Config, item: Item)
    ensures item in Media(t, cfg) <==> IsJobOf(item, t, cfg)
  {
    ListItemsAre(t.photos, t, false, item);
    ListItemsAre(t.videos, t, true, item);
    ListItemsAre(t.gifs, t, true, item);
  }

  /** A tweet is kept unless it is a retweet that is unwanted or has no text saved, or no filter occurs in its text. */
  lemma KeptIsExact(t: Tweet, cfg: Config)
    ensures IsKept(t, cfg) <==>
      && (t.isRetweet ==> cfg.saveText && !cfg.skipRetweets)
      && (cfg.filters == [] || exists f | f in cfg.filters :: HasAnyCase(t.text, f))
  {
    FiltersIgnoreCase(t.text, cfg.filters);
  }

  /** A list's jobs in its order. */
  predicate AreInOrder(items: seq<Item>, urls: seq<string>, isVideo: bool) {
    && |items| == |urls|
    && (forall i | 0 <= i < |urls| :: items[i].isVideo == isVideo && IsFormOf(items[i].url, urls[i], isVideo))
  }

  lemma {:induction false} ListInOrder(urls: seq<string>, t: Tweet, isVideo: bool)
    requires isVideo ==> "" !in urls
    ensures AreInOrder(ListItems(urls, t, isVideo), urls, isVideo)
  {
    if urls != [] {
      var init, last := urls[..|urls| - 1], urls[|urls| - 1];
      ListInOrder(init, t, isVideo);
      var item := ItemOf(last, t, isVideo);
      FetchableIs(last, t, isVideo, item);
      QueryMark(last);
      assert Fetchable(item) == [item] && IsFormOf(item.url, last, isVideo);
      OneMoreInOrder(ListItems(init, t, isVideo), urls, isVideo, item);
    }
  }

  lemma OneMoreInOrder(items: seq<Item>, urls: seq<string>, isVideo: bool, item: Item)
    requires urls != [] && AreInOrder(items, urls[..|urls| - 1], isVideo)
    requires item.isVideo == isVideo && IsFormOf(item.url, urls[|urls| - 1], isVideo)
    ensures AreInOrder(items + [item], urls, isVideo)
  {
    var init := urls[..|urls| - 1];
    assert forall i | 0 <= i < |init| :: init[i] == urls[i];
  }

  /** In the order of the lists: photos, videos, gifs. */
  lemma MediaInOrder(t: Tweet, cfg: Config)
    requires cfg.downloadPhotos && cfg.downloadVideos && "" !in t.videos && "" !in t.gifs
    ensures
      var items, p, v := Media(t, cfg), |t.photos|, |t.videos|;
      && |items| == p + v + |t.gifs|
      && AreInOrder(items[..p], t.photos, false) && AreInOrder(items[p..p + v], t.videos, true)
      && AreInOrder(items[p + v..], t.gifs, true)
  {
    var photos, videos, gifs := ListItems(t.photos, t, false), ListItems(t.videos, t, true), ListItems(t.gifs, t, true);
    ListInOrder(t.photos, t, false);
    ListInOrder(t.videos, t, true);
    ListInOrder(t.gifs, t, true);
    ThreeParts(photos, videos, gifs);
  }

  lemma ThreeParts(a: seq<Item>, b: seq<Item>, c: seq<Item>)
    ensures
      var all := a + b + c;
      all[..|a|] == a && all[|a|..|a| + |b|] == b && all[|a| + |b|..] == c
  {
  }

  // ---------------------------------------------------------------- the whole timeline

  datatype Stop = Drained | AtOld | AtCap | AtError

  /** How many results the loop gets through before it stops, and why; `taken` posts count towards the cap. */
  function Walk(results: seq<TweetResult>, cfg: Config, cutoff: Time, maxPosts: nat, taken: nat): (r: (nat, Stop))
    ensures r.0 <= |results|
  {
    if results == [] then (0, Drained)
    else if results[0].Broken? then (0, AtError)
    else if IsOld(results[0].tweet, cutoff) then (0, AtOld)
    else if !IsKept(results[0].tweet, cfg) then
      var (n, stop) := Walk(results[1..], cfg, cutoff, maxPosts, taken);
      (n + 1, stop)
    else if maxPosts > 0 && taken >= maxPosts then (0, AtCap)
    else
      var (n, stop) := Walk(results[1..], cfg, cutoff, maxPosts, taken + 1);
      (n + 1, stop)
  }

  /** All jobs the kept tweets of a stretch of timeline ask for. */
  function AllMedia(results: seq<TweetResult>, cfg: Config): seq<Item> {
    if results == [] then []
    else
      var last := results[|results| - 1];
      AllMedia(results[..|results| - 1], cfg)
      + if last.Tweeted? && IsKept(last.tweet, cfg) then Media(last.tweet, cfg) else []
  }

  function Urls(items: seq<Item>): set<string> {
    set item | item in items :: item.url
  }

  /** The first job for each url. */
  function FirstPerUrl(items: seq<Item>): seq<Item> {
    if items == [] then []
    else
      var last := |items| - 1;
      FirstPerUrl(items[..last])
      + if items[last].url in Urls(items[..last]) then [] else [items[last]]
  }

  /** What is left of `items` when the sends numbered in `lost` gave way to a cancelled context. */
  function Survivors(items: seq<Item>, lost: set<nat>): seq<Item> {
    if items == [] then []
    else
      var last := |items| - 1;
      Survivors(items[..last], lost) + if last in lost then [] else [items[last]]
  }

  // ---------------------------------------------------------------- the loop

  /**
   The channel of download jobs with the urls already queued. `drops` numbers the sends that lose the race against
   a cancelled context; `asked` is every job asked for, repeats included.
   */
  class JobQueue {
    const drops: set<nat>
    var jobs: seq<Item>
    var queuedURLs: set<string>
    var sends: nat
    ghost var asked: seq<Item>
    ghost var sent: seq<Item>

    ghost predicate Valid()
      reads this
    {
      && queuedURLs == Urls(asked)
      && sent == FirstPerUrl(asked)
      && sends == |sent|
      && jobs == Survivors(sent, drops)
    }

    constructor (drops: set<nat>)
      ensures Valid() && asked == [] && this.drops == drops
    {
      this.drops := drops;
      jobs, queuedURLs, sends, asked, sent := [], {}, 0, [], [];
    }

    method QueueItem(item: Item)
      requires Valid()
      modifies this
      ensures Valid() && asked == if item.url == "" then old(asked) else old(asked) + [item]
    {
      if item.url == "" {
        return;
      }
      UrlsGrow(asked, item);
      FirstPerUrlGrows(asked, item);
      SurvivorsGrow(sent, item, drops);
      asked := asked + [item];
      if item.url in queuedURLs {
        return;
      }
      sent := sent + [item];
      queuedURLs := queuedURLs + {item.url};
      if sends !in drops {
        jobs := jobs + [item];
      }
      sends := sends + 1;
    }

    /** The loop over one media list of a tweet. */
    method QueueList(urls: seq<string>, t: Tweet, isVideo: bool)
      requires Valid()
      modifies this
      ensures Valid() && asked == old(asked) + ListItems(urls, t, isVideo)
    {
      var i := 0;
      while i < |urls|
        invariant i <= |urls|
        invariant Valid()
        invariant asked == old(asked) + ListItems(urls[..i], t, isVideo)
      {
        ListItemsGrow(urls, i, t, isVideo);
        QueueUrl(urls[i], t, isVideo);
        i := i + 1;
      }
      assert urls[..i] == urls;
    }

    method QueueUrl(given: string, t: Tweet, isVideo: bool)
      requires Valid()
      modifies this
      ensures Valid() && asked == old(asked) + Fetchable(ItemOf(given, t, isVideo))
    {
      var url := given;
      if !isVideo && !Contains(url, "?") {
        url := url + "?format=jpg&name=large";
      }
      QueueItem(Item(url, TimeOf(t), t.id, isVideo));
    }

    /** The part of the loop body that queues a kept tweet's media. */
    method QueueTweet(t: Tweet, cfg: Config)
      requires Valid()
      modifies this
      ensures Valid() && asked == old(asked) + Media(t, cfg)
      ensures forall item :: item in asked <==> item in old(asked) || IsJobOf(item, t, cfg)
    {
      forall item ensures item in Media(t, cfg) <==> IsJobOf(item, t, cfg) { MediaIsExact(t, cfg, item); }
      ghost var before := asked;
      ghost var photos, videos, gifs := [], [], [];
      if cfg.downloadPhotos {
        photos := ListItems(t.photos, t, false);
        QueueList(t.photos, t, false);
      }
      if cfg.downloadVideos {
        videos, gifs := ListItems(t.videos, t, true), ListItems(t.gifs, t, true);
        QueueList(t.videos, t, true);
        QueueList(t.gifs, t, true);
      }
      InOneGo(before, photos, videos, gifs);
    }
  }

  lemma InOneGo(before: seq<Item>, photos: seq<Item>, videos: seq<Item>, gifs: seq<Item>)
    ensures before + (photos + videos + gifs) == before + photos + videos + gifs
    ensures before + [] == before
  {
  }

  lemma FirstPerUrlGrows(items: seq<Item>, item: Item)
    ensures FirstPerUrl(items + [item]) == FirstPerUrl(items) + if item.url in Urls(items) then [] else [item]
  {
    assert (items + [item])[..|items|] == items;
  }

  lemma UrlsGrow(items: seq<Item>, item: Item)
    ensures Urls(items + [item]) == Urls(items) + {item.url}
  {
    var grown := items + [item];
    forall url | url in Urls(items) + {item.url} ensures url in Urls(grown) {
      if url in Urls(items) {
        var former :| former in items && former.url == url;
        assert former in grown;
      } else {
        assert item in grown;
      }
    }
  }

  lemma SurvivorsGrow(items: seq<Item>, item: Item, lost: set<nat>)
    ensures Survivors(items + [item], lost) == Survivors(items, lost) + if |items| in lost then [] else [item]
  {
    assert (items + [item])[..|items|] == items;
  }

  lemma AllMediaGrows(results: seq<TweetResult>, cfg: Config, i: nat)
    requires i < |results| && results[i].Tweeted?
    ensures AllMedia(results[..i + 1], cfg) ==
      if IsKept(results[i].tweet, cfg) then AllMedia(results[..i], cfg) + Media(results[i].tweet, cfg)
      else AllMedia(results[..i], cfg)
  {
    assert results[..i + 1][..i] == results[..i];
  }

  datatype Ended = Ended(stop: Stop, received: nat)

  /** Whether a result ends the loop, and how. */
  function Halt(r: TweetResult, cfg: Config, cutoff: Time, maxPosts: nat, taken: nat): Option<Stop> {
    if r.Broken? then Some(AtError)
    else if IsOld(r.tweet, cutoff) then Some(AtOld)
    else if IsKept(r.tweet, cfg) && maxPosts > 0 && taken >= maxPosts then Some(AtCap)
    else None
  }

  lemma WalkFrom(results: seq<TweetResult>, cfg: Config, cutoff: Time, maxPosts: nat, taken: nat, i: nat)
    requires i < |results| && IsReading(results, cfg, cutoff, maxPosts, i, taken, None)
    ensures
      var stop := Halt(results[i], cfg, cutoff, maxPosts, taken);
      if stop.Some? then IsReading(results, cfg, cutoff, maxPosts, i, taken, stop)
      else IsReading(results, cfg, cutoff, maxPosts, i + 1,
                     if IsKept(results[i].tweet, cfg) then taken + 1 else taken, None)
  {
    assert results[i..][1..] == results[i + 1..];
  }

  /** ScrapeTwitterUser up to the end of its loop. */
  method ReadTimeline(results: seq<TweetResult>, cfg: Config, cutoff: Time, maxPosts: nat, queue: JobQueue)
    returns (ended: Ended)
    requires queue.Valid() && queue.asked == []
    modifies queue
    ensures queue.Valid()
    ensures (ended.received, ended.stop) == Walk(results, cfg, cutoff, maxPosts, 0)
    ensures queue.asked == AllMedia(results[..ended.received], cfg)
  {
    var i, taken, stop := 0, 0, None;
    assert results[0..] == results;
    while i < |results| && stop.None?
      invariant i <= |results|
      invariant queue.Valid() && queue.asked == AllMedia(results[..i], cfg)
      invariant IsReading(results, cfg, cutoff, maxPosts, i, taken, stop)
      decreases |results| - i, stop.None?
    {
      stop, taken := ReadNext(results, i, cfg, cutoff, maxPosts, taken, queue);
      if stop.None? {
        i := i + 1;
      }
    }
    assert stop.None? ==> results[i..] == [];
    return Ended(if stop.Some? then stop.value else Drained, i);
  }

  /** `i` results are read: the walk ends here, or goes on with the rest. */
  predicate IsReading(results: seq<TweetResult>, cfg: Config, cutoff: Time, maxPosts: nat, i: nat, taken: nat,
                      stop: Option<Stop>)
    requires i <= |results|
  {
    var (n, s) := if stop.Some? then (0, stop.value) else Walk(results[i..], cfg, cutoff, maxPosts, taken);
    (i + n, s) == Walk(results, cfg, cutoff, maxPosts, 0)
  }

  /** The next result, in the walk over them all. */
  method ReadNext(results: seq<TweetResult>, i: nat, cfg: Config, cutoff: Time, maxPosts: nat, taken0: nat,
                  queue: JobQueue)
    returns (stop: Option<Stop>, taken: nat)
    requires i < |results| && IsReading(results, cfg, cutoff, maxPosts, i, taken0, None)
    requires queue.Valid() && queue.asked == AllMedia(results[..i], cfg)
    modifies queue
    ensures queue.Valid() && IsReading(results, cfg, cutoff, maxPosts, if stop.None? then i + 1 else i, taken, stop)
    ensures queue.asked == AllMedia(results[..if stop.None? then i + 1 else i], cfg)
  {
    WalkFrom(results, cfg, cutoff, maxPosts, taken0, i);
    stop, taken := ReadOne(results, i, cfg, cutoff, maxPosts, taken0, queue);
    if stop.None? {
      AllMediaGrows(results, cfg, i);
    }
  }

  /** One turn of the loop. */
  method ReadOne(results: seq<TweetResult>, i: nat, cfg: Config, cutoff: Time, maxPosts: nat, taken0: nat,
                 queue: JobQueue)
    returns (stop: Option<Stop>, taken: nat)
    requires i < |results| && queue.Valid()
    modifies queue
    ensures queue.Valid() && stop == Halt(results[i], cfg, cutoff, maxPosts, taken0)
    ensures stop.None? && IsKept(results[i].tweet, cfg) ==>
      taken == taken0 + 1 && queue.asked == old(queue.asked) + Media(results[i].tweet, cfg)
    ensures !(stop.None? && IsKept(results[i].tweet, cfg)) ==> taken == taken0 && queue.asked == old(queue.asked)
  {
    taken := taken0;
    if results[i].Broken? {
      stop := Some(AtError);
    } else if IsOld(results[i].tweet, cutoff) {
      stop := Some(AtOld);
    } else if !IsKept(results[i].tweet, cfg) {
      stop := None;
    } else if maxPosts > 0 && taken >= maxPosts {
      stop := Some(AtCap);
    } else {
      stop, taken := None, taken + 1;
      queue.QueueTweet(results[i].tweet, cfg);
    }
  }

  /** The verdict on a scrape: success only if the timeline ended cleanly, nothing was cancelled and none failed. */
  predicate Succeeds(stop: Stop, cancelled: bool, failed: nat) {
    stop != AtError && !cancelled && failed == 0
  }

  // ---------------------------------------------------------------- what a success covers

  predicate NewestFirst(results: seq<TweetResult>) {
    forall i, j | 0 <= i < j < |results| && results[i].Tweeted? && results[j].Tweeted?
      && TimeOf(results[i].tweet).Some? && TimeOf(results[j].tweet).Some?
      :: TimeOf(results[i].tweet).value >= TimeOf(results[j].tweet).value
  }

  /** A result the walk stops at or never reaches is older than the cutoff, unless the cap or an error stopped it. */
  lemma {:induction false} StoppedAtOld(
    results: seq<TweetResult>, cfg: Config, cutoff: Time, maxPosts: nat, taken: nat, i: nat)
    requires NewestFirst(results) && i < |results| && results[i].Tweeted? && TimeOf(results[i].tweet).Some?
    requires Walk(results, cfg, cutoff, maxPosts, taken).1 in {Drained, AtOld}
    requires i >= Walk(results, cfg, cutoff, maxPosts, taken).0
    ensures IsOld(results[i].tweet, cutoff)
  {
    if !IsOld(results[0].tweet, cutoff) {
      var next := if IsKept(results[0].tweet, cfg) then taken + 1 else taken;
      StoppedAtOld(results[1..], cfg, cutoff, maxPosts, next, i - 1);
    }
  }

  /** How many tweets of a stretch of timeline are kept. */
  function Kept(results: seq<TweetResult>, cfg: Config): nat {
    if results == [] then 0
    else Kept(results[1..], cfg) + if results[0].Tweeted? && IsKept(results[0].tweet, cfg) then 1 else 0
  }

  /** A cap lets a scrape read so many kept tweets, and stops it only when it has. */
  lemma {:induction false} WalkKeepsToTheCap(
    results: seq<TweetResult>, cfg: Config, cutoff: Time, maxPosts: nat, taken: nat)
    requires maxPosts > 0 ==> taken <= maxPosts
    ensures
      var (n, stop) := Walk(results, cfg, cutoff, maxPosts, taken);
      && (maxPosts > 0 ==> taken + Kept(results[..n], cfg) <= maxPosts)
      && (stop == AtCap ==> maxPosts > 0 && taken + Kept(results[..n], cfg) == maxPosts)
  {
    if results != [] && Halt(results[0], cfg, cutoff, maxPosts, taken).None? {
      var next := if IsKept(results[0].tweet, cfg) then taken + 1 else taken;
      WalkKeepsToTheCap(results[1..], cfg, cutoff, maxPosts, next);
      KeptShifts(results, cfg, Walk(results[1..], cfg, cutoff, maxPosts, next).0);
      assert results[..1][1..] == [];
    } else {
      assert results[..0] == [];
    }
  }

  /** Otherwise it ends with the timeline, at a failure, or at a tweet dated before the cutoff. */
  lemma {:induction false} WalkStopsExactly(
    results: seq<TweetResult>, cfg: Config, cutoff: Time, maxPosts: nat, taken: nat)
    ensures
      var (n, stop) := Walk(results, cfg, cutoff, maxPosts, taken);
      if n == |results| then stop == Drained
      else
        var next := results[n];
        && stop != Drained && (stop == AtError <==> next.Broken?)
        && (stop == AtOld <==>
              next.Tweeted? && cutoff != 0 && TimeOf(next.tweet).Some? && TimeOf(next.tweet).value < cutoff)
  {
    if results != [] && Halt(results[0], cfg, cutoff, maxPosts, taken).None? {
      var next := if IsKept(results[0].tweet, cfg) then taken + 1 else taken;
      WalkStopsExactly(results[1..], cfg, cutoff, maxPosts, next);
    }
  }

  lemma KeptShifts(results: seq<TweetResult>, cfg: Config, n: nat)
    requires n < |results|
    ensures Kept(results[..n + 1], cfg) == Kept(results[1..][..n], cfg) + Kept(results[..1], cfg)
  {
    assert results[..n + 1][1..] == results[1..][..n];
    assert results[..1][1..] == [];
  }

  lemma {:induction false} MediaIsAsked(results: seq<TweetResult>, cfg: Config, i: nat, item: Item)
    requires i < |results| && results[i].Tweeted? && IsKept(results[i].tweet, cfg)
    requires item in Media(results[i].tweet, cfg)
    ensures item in AllMedia(results, cfg)
  {
    if i < |results| - 1 {
      MediaIsAsked(results[..|results| - 1], cfg, i, item);
    }
  }

  lemma {:induction false} FirstPerUrlIsExact(items: seq<Item>)
    ensures Urls(FirstPerUrl(items)) == Urls(items)
    ensures forall i, j | 0 <= i < j < |FirstPerUrl(items)| :: FirstPerUrl(items)[i].url != FirstPerUrl(items)[j].url
    ensures forall item | item in FirstPerUrl(items) :: item in items
  {
    if items != [] {
      var last := |items| - 1;
      FirstPerUrlIsExact(items[..last]);
      assert items == items[..last] + [items[last]];
      UrlsGrow(items[..last], items[last]);
      UrlsGrow(FirstPerUrl(items[..last]), items[last]);
      OneMoreUrl(FirstPerUrl(items[..last]), items[..last], items[last]);
    }
  }

  lemma OneMoreUrl(first: seq<Item>, items: seq<Item>, item: Item)
    requires Urls(first) == Urls(items)
    ensures item.url !in Urls(items) ==> forall i | 0 <= i < |first| :: first[i].url != item.url
  {
    forall i | 0 <= i < |first| ensures first[i].url in Urls(items) {
      assert first[i].url in Urls(first);
    }
  }

  /** And it is the first job asked for with its url. */
  lemma {:induction false} FirstIsKept(items: seq<Item>, i: nat)
    requires i < |items| && forall j | 0 <= j < i :: items[j].url != items[i].url
    ensures items[i] in FirstPerUrl(items)
  {
    var last := |items| - 1;
    if i < last {
      FirstIsKept(items[..last], i);
    } else {
      forall item | item in items[..last] ensures item.url != items[last].url {
        var j :| 0 <= j < last && items[..last][j] == item;
      }
    }
  }

  /** Just the sends that gave way are missing from the channel. */
  lemma {:induction false} SurvivorsAre(items: seq<Item>, lost: set<nat>, item: Item)
    ensures item in Survivors(items, lost) <==> exists i | 0 <= i < |items| :: i !in lost && items[i] == item
  {
    if items != [] {
      var init, last := items[..|items| - 1], |items| - 1;
      SurvivorsAre(init, lost, item);
      assert forall i | 0 <= i < last :: init[i] == items[i];
    }
  }

  lemma {:induction false} NoneLostAllSurvive(items: seq<Item>)
    ensures Survivors(items, {}) == items
  {
    if items != [] {
      NoneLostAllSurvive(items[..|items| - 1]);
    }
  }

  /**
   A clean scrape of a newest-first timeline queues a job for every media url of every kept tweet dated at or after
   the cutoff, and each url once.
   */
  lemma CleanScrapeQueuesTheRange(
    results: seq<TweetResult>, cfg: Config, cutoff: Time, maxPosts: nat, i: nat, item: Item)
    requires NewestFirst(results) && i < |results| && results[i].Tweeted? && IsKept(results[i].tweet, cfg)
    requires TimeOf(results[i].tweet).Some? && cutoff <= TimeOf(results[i].tweet).value
    requires Walk(results, cfg, cutoff, maxPosts, 0).1 in {Drained, AtOld}
    requires item in Media(results[i].tweet, cfg)
    ensures item.url in Urls(FirstPerUrl(AllMedia(results[..Walk(results, cfg, cutoff, maxPosts, 0).0], cfg)))
  {
    var n := Walk(results, cfg, cutoff, maxPosts, 0).0;
    if i >= n {
      StoppedAtOld(results, cfg, cutoff, maxPosts, 0, i);
    }
    MediaIsAsked(results[..n], cfg, i, item);
    FirstPerUrlIsExact(AllMedia(results[..n], cfg));
  }

  lemma {:induction false} ReadIsNotOld(
    results: seq<TweetResult>, cfg: Config, cutoff: Time, maxPosts: nat, taken: nat, i: nat)
    requires i < Walk(results, cfg, cutoff, maxPosts, taken).0
    ensures results[i].Tweeted? && !IsOld(results[i].tweet, cutoff)
  {
    if i > 0 {
      var next := if IsKept(results[0].tweet, cfg) then taken + 1 else taken;
      ReadIsNotOld(results[1..], cfg, cutoff, maxPosts, next, i - 1);
    }
  }

  lemma {:induction false} AskedComesFrom(results: seq<TweetResult>, cfg: Config, item: Item) returns (i: nat)
    requires item in AllMedia(results, cfg)
    ensures i < |results| && results[i].Tweeted? && IsKept(results[i].tweet, cfg)
    ensures item in Media(results[i].tweet, cfg)
  {
    i := |results| - 1;
    if item in AllMedia(results[..i], cfg) {
      i := AskedComesFrom(results[..i], cfg, item);
    }
  }

  /** And nothing else: every queued job is media of a kept tweet that is not older than the cutoff. */
  lemma OnlyTheRangeIsQueued(results: seq<TweetResult>, cfg: Config, cutoff: Time, maxPosts: nat, item: Item)
    returns (i: nat)
    requires item in FirstPerUrl(AllMedia(results[..Walk(results, cfg, cutoff, maxPosts, 0).0], cfg))
    ensures i < |results| && results[i].Tweeted? && item in Media(results[i].tweet, cfg)
    ensures IsKept(results[i].tweet, cfg) && !IsOld(results[i].tweet, cutoff)
  {
    var n := Walk(results, cfg, cutoff, maxPosts, 0).0;
    FirstPerUrlIsExact(AllMedia(results[..n], cfg));
    i := AskedComesFrom(results[..n], cfg, item);
    ReadIsNotOld(results, cfg, cutoff, maxPosts, 0, i);
  }

  // ---------------------------------------------------------------- one scrape

  /** ScrapeTwitterUser up to the close of its channel; `drops` numbers the sends given up for a cancelled context. */
  method QueueScrape(results: seq<TweetResult>, cfg: Config, cutoff: Time, maxPosts: nat, drops: set<nat>)
    returns (jobs: seq<Item>, ended: Ended)
    ensures (ended.received, ended.stop) == Walk(results, cfg, cutoff, maxPosts, 0)
    ensures jobs == Survivors(FirstPerUrl(AllMedia(results[..ended.received], cfg)), drops)
  {
    var queue := new JobQueue(drops);
    ended := ReadTimeline(results, cfg, cutoff, maxPosts, queue);
    jobs := queue.jobs;
  }
}
