/**
 The guarantee the watermark exists for, over whole runs of the orchestrator: no tweet dated before a target's
 watermark was skipped. The protocol's steps run beside the feeds they scrape and a record of the media handled.
 */
module NoGap {
  import opened Basics
  import opened Protocol
  import opened Invariants
  import T = Twitter
  import Pool

  /** A target's fixed settings. */
  datatype Setup = Setup(cfg: T.Config, since: Time)

  /** `feed` is what each handle has posted so far; `done` the media urls the pool downloaded or skipped. */
  datatype World = World(
    s: State, h: History, feed: map<Key, set<T.Tweet>>, setup: map<Key, Setup>, done: map<Key, set<string>>)

  function Feed(w: World, k: Key): set<T.Tweet> {
    if k in w.feed then w.feed[k] else {}
  }

  function Done(w: World, k: Key): set<string> {
    if k in w.done then w.done[k] else {}
  }

  /** A tweet the settings ask for, no older than the account's Since bound. */
  predicate IsEligible(t: T.Tweet, setup: Setup) {
    T.IsKept(t, setup.cfg) && T.TimeOf(t).Some? && setup.since <= T.TimeOf(t).value
  }

  /** Every photo, video and gif that is wanted of the tweet was downloaded or skipped, photos in their large form. */
  predicate IsHandled(t: T.Tweet, setup: Setup, done: set<string>) {
    && (setup.cfg.downloadPhotos ==> forall p | p in t.photos :: LargeForm(p) in done)
    && (setup.cfg.downloadVideos ==> forall v | v in t.videos + t.gifs :: v == "" || v in done)
  }

  function LargeForm(photo: string): string {
    photo + if '?' in photo then "" else "?format=jpg&name=large"
  }

  /** The settings ask for something of the tweet. */
  predicate HasMedia(t: T.Tweet, setup: Setup) {
    || (setup.cfg.downloadPhotos && t.photos != [])
    || (setup.cfg.downloadVideos && exists v | v in t.videos + t.gifs :: v != "")
  }

  lemma HandledByMedia(t: T.Tweet, setup: Setup, done: set<string>)
    requires T.Urls(T.Media(t, setup.cfg)) <= done
    ensures IsHandled(t, setup, done)
  {
    if setup.cfg.downloadPhotos {
      forall p | p in t.photos ensures LargeForm(p) in done {
        var item := T.Item(LargeForm(p), T.TimeOf(t), t.id, false);
        assert T.IsLargeForm(item.url, p);
        assert LargeForm(p) != "";
        T.MediaIsExact(t, setup.cfg, item);
        assert item.url in T.Urls(T.Media(t, setup.cfg));
      }
    }
    if setup.cfg.downloadVideos {
      forall v | v in t.videos + t.gifs && v != "" ensures v in done {
        var item := T.Item(v, T.TimeOf(t), t.id, true);
        T.MediaIsExact(t, setup.cfg, item);
        assert item.url in T.Urls(T.Media(t, setup.cfg));
      }
    }
  }

  lemma MediaHasMedia(t: T.Tweet, setup: Setup)
    requires T.Media(t, setup.cfg) != []
    ensures HasMedia(t, setup)
  {
    var item := T.Media(t, setup.cfg)[0];
    T.MediaIsExact(t, setup.cfg, item);
    assert item.isVideo ==> item.url in t.videos + t.gifs;
  }

  /** Every eligible tweet dated before `until` had each of its media downloaded or skipped. */
  ghost predicate IsCovered(feed: set<T.Tweet>, setup: Setup, done: set<string>, until: Time) {
    forall t | t in feed && IsEligible(t, setup) && T.TimeOf(t).value < until :: IsHandled(t, setup, done)
  }

  ghost predicate Covers(w: World, k: Key, until: Time) {
    k in w.setup && IsCovered(Feed(w, k), w.setup[k], Done(w, k), until)
  }

  // ---------------------------------------------------------------- one scrape

  /** What a scrape read and what its pool did: the timeline shown and the pool's whole run. */
  datatype Scrape = Scrape(
    results: seq<T.TweetResult>, maxPosts: nat, pool: seq<Pool.State<T.Item>>, moves: seq<Pool.Action<T.Item>>,
    workers: nat)

  function Verdict(scrape: Scrape, setup: Setup, lastSync: Time): (nat, T.Stop) {
    T.Walk(scrape.results, setup.cfg, T.Cutoff(setup.since, lastSync), scrape.maxPosts, 0)
  }

  /**
   The timeline is newest first and, of the tweets posted by the time the scrape returns, lists those that ask for
   media and are dated from the watermark to the start of the scrape.
   */
  ghost predicate Shows(
    results: seq<T.TweetResult>, feed: set<T.Tweet>, setup: Setup, lastSync: Time, start: Time)
  {
    && T.NewestFirst(results)
    && forall t | t in feed && IsEligible(t, setup) && HasMedia(t, setup)
         && lastSync <= T.TimeOf(t).value < start :: T.Tweeted(t) in results
  }

  /**
   A scrape that returned success without meeting the post cap: its loop ended at the cutoff or the end of the
   timeline, every job it queued went to the pool, and Wait counted no failure.
   */
  ghost predicate IsCleanScrape(scrape: Scrape, setup: Setup, lastSync: Time, feed: set<T.Tweet>, start: Time) {
    var (n, stop) := Verdict(scrape, setup, lastSync);
    && Shows(scrape.results, feed, setup, lastSync, start)
    && stop in {T.Drained, T.AtOld}
    && Pool.IsRun(scrape.pool, scrape.moves, scrape.workers)
    && Pool.IsDone(scrape.pool[|scrape.moves|])
    && scrape.pool[|scrape.moves|].sent == T.FirstPerUrl(T.AllMedia(scrape.results[..n], setup.cfg))
    && T.Succeeds(stop, false, scrape.pool[|scrape.moves|].failed)
  }

  /**
   A scrape of the program that succeeds is a clean one: no send was given up, since that takes a cancelled context
   and a context stays cancelled, so the pool got every job the walk asked for.
   */
  lemma SuccessIsClean(scrape: Scrape, setup: Setup, lastSync: Time, feed: set<T.Tweet>, start: Time,
                       jobs: seq<T.Item>, ended: T.Ended, drops: set<nat>, cancelled: bool)
    requires (ended.received, ended.stop) == Verdict(scrape, setup, lastSync)
    requires jobs == T.Survivors(T.FirstPerUrl(T.AllMedia(scrape.results[..ended.received], setup.cfg)), drops)
    requires Pool.IsRun(scrape.pool, scrape.moves, scrape.workers) && Pool.IsDone(scrape.pool[|scrape.moves|])
    requires scrape.pool[|scrape.moves|].sent == jobs && (drops != {} ==> cancelled)
    requires T.Succeeds(ended.stop, cancelled, scrape.pool[|scrape.moves|].failed) && ended.stop != T.AtCap
    requires Shows(scrape.results, feed, setup, lastSync, start)
    ensures IsCleanScrape(scrape, setup, lastSync, feed, start)
  {
    T.NoneLostAllSurvive(T.FirstPerUrl(T.AllMedia(scrape.results[..ended.received], setup.cfg)));
  }

  /** The urls of the jobs a pool finished without failure. */
  function SettledUrls(log: seq<(T.Item, Pool.Result)>): set<string> {
    set entry | entry in log && entry.1 != Pool.Failed :: entry.0.url
  }

  lemma SettledByPool(scrape: Scrape, url: string)
    requires Pool.IsRun(scrape.pool, scrape.moves, scrape.workers) && Pool.IsDone(scrape.pool[|scrape.moves|])
    requires scrape.pool[|scrape.moves|].failed == 0
    requires url in T.Urls(scrape.pool[|scrape.moves|].sent)
    ensures url in SettledUrls(scrape.pool[|scrape.moves|].log)
  {
    var s := scrape.pool[|scrape.moves|];
    Pool.TalliesAreExact(scrape.pool, scrape.moves, scrape.workers);
    var item :| item in s.sent && item.url == url;
    assert Pool.Settled(s, item);
    var i :| 0 <= i < |s.log| && s.log[i].0 == item && s.log[i].1 != Pool.Failed;
    assert s.log[i] in s.log;
  }

  /** A clean scrape settles every media url of every eligible tweet between its cutoff and its start. */
  lemma CleanScrapeHandles(
    scrape: Scrape, setup: Setup, lastSync: Time, feed: set<T.Tweet>, start: Time, t: T.Tweet, url: string)
    requires IsCleanScrape(scrape, setup, lastSync, feed, start)
    requires t in feed && IsEligible(t, setup) && lastSync <= T.TimeOf(t).value < start
    requires url in T.Urls(T.Media(t, setup.cfg))
    ensures url in SettledUrls(scrape.pool[|scrape.moves|].log)
  {
    var cutoff := T.Cutoff(setup.since, lastSync);
    MediaHasMedia(t, setup);
    assert T.Tweeted(t) in scrape.results;
    var i :| 0 <= i < |scrape.results| && scrape.results[i] == T.Tweeted(t);
    var item :| item in T.Media(t, setup.cfg) && item.url == url;
    T.CleanScrapeQueuesTheRange(scrape.results, setup.cfg, cutoff, scrape.maxPosts, i, item);
    SettledByPool(scrape, url);
  }

  // ---------------------------------------------------------------- steps of the world

  datatype WorldAction = Post(key: Key, tweet: T.Tweet) | Step(a: Action, scrape: Scrape)

  predicate IsCleanReturn(s: State, a: Action) {
    a.Return? && a.outcome.Success? && a.id in s.flights && s.flights[a.id].job.key.platform == "twitter"
  }

  /**
   A tweet is dated by the millisecond in which it is posted. A Twitter scrape that returns success was a clean one
   and took a millisecond or more.
   */
  ghost predicate WorldEnabled(w: World, x: WorldAction) {
    match x
    case Post(_, tweet) => T.TimeOf(tweet).Some? ==> w.s.now < T.TimeOf(tweet).value + T.MILLISECOND
    case Step(a, scrape) =>
      && Enabled(w.s, a) && Permitted(w.s, w.h, a)
      && (IsCleanReturn(w.s, a) ==>
            var job := w.s.flights[a.id].job;
            && job.key in w.setup && w.s.flights[a.id].phase.start + T.MILLISECOND <= w.s.now
            && IsCleanScrape(scrape, w.setup[job.key], job.lastSync, Feed(w, job.key), w.s.flights[a.id].phase.start))
      && (a.Rename? && a.from.platform == "twitter" ==> a.from in w.setup)
  }

  function Moved<V>(m: map<Key, V>, from: Key, to: Key): map<Key, V> {
    if from in m then (m - {from})[to := m[from]] else m - {to}
  }

  function WorldApply(w: World, x: WorldAction): World
    requires x.Step? ==> Enabled(w.s, x.a) && (IsCleanReturn(w.s, x.a) ==> |x.scrape.pool| == |x.scrape.moves| + 1)
  {
    match x
    case Post(key, tweet) => w.(feed := w.feed[key := Feed(w, key) + {tweet}])
    case Step(a, scrape) =>
      var next := w.(s := Apply(w.s, a), h := Advance(w.s, w.h, a));
      if IsCleanReturn(w.s, a) then
        var key := w.s.flights[a.id].job.key;
        next.(done := w.done[key := Done(w, key) + SettledUrls(scrape.pool[|scrape.moves|].log)])
      else if a.Rename? then
        next.(feed := Moved(w.feed, a.from, a.to), setup := Moved(w.setup, a.from, a.to),
              done := Moved(w.done, a.from, a.to))
      else next
  }

  // ---------------------------------------------------------------- the invariant

  /** The start of a scrape that has succeeded is a millisecond past or more. */
  predicate StartedBy(flight: Flight, now: Time) {
    HasSucceeded(flight) ==> flight.phase.start + T.MILLISECOND <= now
  }

  /** No tweet to come will be dated before a watermark. */
  ghost predicate InThePast(s: State, h: History) {
    && (forall id | id in s.flights :: StartedBy(s.flights[id], s.now))
    && (forall k, t | k in h.starts && k.platform == "twitter" && t in h.starts[k] :: t + T.MILLISECOND <= s.now)
  }

  predicate HasSucceeded(flight: Flight) {
    && flight.job.key.platform == "twitter"
    && (flight.phase.Returned? || flight.phase.Settling?)
    && flight.phase.outcome.Success?
  }

  /** All tweets before the start of any successful run are handled, as soon as its scrape returns. */
  ghost predicate NothingSkipped(w: World) {
    && (forall k, t | k in w.h.starts && k.platform == "twitter" && t in w.h.starts[k] :: Covers(w, k, t))
    && (forall id | id in w.s.flights && HasSucceeded(w.s.flights[id]) ::
          Covers(w, w.s.flights[id].job.key, w.s.flights[id].phase.start))
  }

  ghost predicate WorldInv(w: World) {
    Inv(w.s, w.h) && InThePast(w.s, w.h) && NothingSkipped(w)
  }

  lemma StartIsPast(s: State, a: Action, id: JobId)
    requires Enabled(s, a) && id in NextFlights(s, a)
    requires id in s.flights ==> StartedBy(s.flights[id], s.now)
    requires IsCleanReturn(s, a) && a.id == id ==> s.flights[id].phase.start + T.MILLISECOND <= s.now
    ensures StartedBy(NextFlights(s, a)[id], NextNow(s, a))
  {
  }

  /** Where the start of a successful run comes from. */
  lemma StartComesFrom(s: State, h: History, a: Action, k: Key, t: Time)
    requires Enabled(s, a) && t in StartsOf(Advance(s, h, a), k)
    ensures
      || (t in StartsOf(h, k) && !(a.Rename? && (k == a.from || k == a.to)))
      || (a.Rename? && k == a.to && t in StartsOf(h, a.from))
      || (a.Finish? && s.flights[a.id].job.key == k && s.flights[a.id].phase.outcome.Success?
          && s.flights[a.id].phase.start == t)
  {
  }

  lemma TimePasses(s: State, a: Action)
    requires Enabled(s, a)
    ensures s.now <= NextNow(s, a)
  {
  }

  lemma KeepsPast(w: World, x: WorldAction)
    requires WorldInv(w) && WorldEnabled(w, x)
    ensures InThePast(WorldApply(w, x).s, WorldApply(w, x).h)
  {
    if x.Step? {
      var t, g := Apply(w.s, x.a), Advance(w.s, w.h, x.a);
      TimePasses(w.s, x.a);
      forall id | id in t.flights ensures StartedBy(t.flights[id], t.now) {
        StartIsPast(w.s, x.a, id);
      }
      forall k, start | k in g.starts && k.platform == "twitter" && start in g.starts[k]
        ensures start + T.MILLISECOND <= t.now
      {
        StartComesFrom(w.s, w.h, x.a, k, start);
      }
    }
  }

  /** Coverage carries over to a handle with the same posts and settings and no less handled. */
  lemma CoverageCarries(w: World, k: Key, v: World, l: Key, until: Time)
    requires Covers(w, k, until)
    requires l in v.setup && v.setup[l] == w.setup[k] && Feed(v, l) == Feed(w, k) && Done(w, k) <= Done(v, l)
    ensures Covers(v, l, until)
  {
  }

  /** A new tweet is not dated before the start of a scrape that has succeeded, so it takes no coverage away. */
  lemma PostKeepsCoverage(w: World, key: Key, tweet: T.Tweet, k: Key, until: Time)
    requires WorldEnabled(w, Post(key, tweet)) && Covers(w, k, until) && until + T.MILLISECOND <= w.s.now
    ensures Covers(WorldApply(w, Post(key, tweet)), k, until)
  {
  }

  lemma JobIsCovered(w: World, id: JobId)
    requires WorldInv(w) && id in w.s.flights && w.s.flights[id].phase.Scraping?
    requires w.s.flights[id].job.key.platform == "twitter" && w.s.flights[id].job.key in w.setup
    ensures Covers(w, w.s.flights[id].job.key, w.s.flights[id].job.lastSync)
  {
    assert FlightIsSafe(w.h, w.s.flights[id]);
  }

  lemma ReturnWrites(w: World, a: Action, scrape: Scrape)
    requires WorldEnabled(w, Step(a, scrape)) && IsCleanReturn(w.s, a)
    ensures
      var v, key := WorldApply(w, Step(a, scrape)), w.s.flights[a.id].job.key;
      && v.setup == w.setup && v.feed == w.feed
      && Done(v, key) == Done(w, key) + SettledUrls(scrape.pool[|scrape.moves|].log)
  {
  }

  /**
   The step the whole argument turns on: a clean scrape covers everything before its start, because its job's
   watermark was itself covered and the scrape handled the rest.
   */
  lemma ReturnCovers(w: World, a: Action, scrape: Scrape)
    requires WorldInv(w) && WorldEnabled(w, Step(a, scrape)) && IsCleanReturn(w.s, a)
    ensures Covers(WorldApply(w, Step(a, scrape)), w.s.flights[a.id].job.key, w.s.flights[a.id].phase.start)
  {
    var Flight(job, Scraping(_, start)) := w.s.flights[a.id];
    var v := WorldApply(w, Step(a, scrape));
    var setup := w.setup[job.key];
    JobIsCovered(w, a.id);
    ReturnWrites(w, a, scrape);
    forall t | t in Feed(w, job.key) && IsEligible(t, setup) && job.lastSync <= T.TimeOf(t).value < start
      ensures IsHandled(t, setup, Done(v, job.key))
    {
      ReturnHandles(scrape, setup, job.lastSync, Feed(w, job.key), start, t, Done(v, job.key));
    }
    CoverageExtends(w, v, job.key, job.lastSync, start);
  }

  /** Coverage up to one time, and what was handled from then on up to another. */
  lemma CoverageExtends(w: World, v: World, k: Key, from: Time, until: Time)
    requires Covers(w, k, from) && v.setup == w.setup && Feed(v, k) == Feed(w, k) && Done(w, k) <= Done(v, k)
    requires forall t | t in Feed(w, k) && IsEligible(t, w.setup[k]) && from <= T.TimeOf(t).value < until ::
               IsHandled(t, w.setup[k], Done(v, k))
    ensures Covers(v, k, until)
  {
  }

  lemma ReturnHandles(scrape: Scrape, setup: Setup, lastSync: Time, feed: set<T.Tweet>, start: Time, t: T.Tweet,
                      done: set<string>)
    requires IsCleanScrape(scrape, setup, lastSync, feed, start)
    requires SettledUrls(scrape.pool[|scrape.moves|].log) <= done
    requires t in feed && IsEligible(t, setup) && lastSync <= T.TimeOf(t).value < start
    ensures IsHandled(t, setup, done)
  {
    forall url | url in T.Urls(T.Media(t, setup.cfg)) ensures url in done {
      CleanScrapeHandles(scrape, setup, lastSync, feed, start, t, url);
    }
    HandledByMedia(t, setup, done);
  }

  /** A scrape queues nothing that is dated before the account's Since bound or its watermark. */
  lemma NothingOldIsQueued(results: seq<T.TweetResult>, setup: Setup, lastSync: Time, maxPosts: nat, item: T.Item)
    requires item in T.FirstPerUrl(T.AllMedia(
      results[..T.Walk(results, setup.cfg, T.Cutoff(setup.since, lastSync), maxPosts, 0).0], setup.cfg))
    ensures item.date.Some? ==> setup.since <= item.date.value && lastSync <= item.date.value
  {
    var i := T.OnlyTheRangeIsQueued(results, setup.cfg, T.Cutoff(setup.since, lastSync), maxPosts, item);
    T.MediaIsExact(results[i].tweet, setup.cfg, item);
  }

  lemma DoneGrows(w: World, x: WorldAction, k: Key)
    requires WorldEnabled(w, x) && !(x.Step? && x.a.Rename?)
    ensures Done(w, k) <= Done(WorldApply(w, x), k)
    ensures x.Step? ==> Feed(WorldApply(w, x), k) == Feed(w, k)
    ensures WorldApply(w, x).setup == w.setup
  {
  }

  lemma RenameCarries(w: World, from: Key, to: Key, scrape: Scrape, k: Key, until: Time)
    requires WorldEnabled(w, Step(Rename(from, to), scrape)) && Covers(w, k, until)
    ensures k == from ==> Covers(WorldApply(w, Step(Rename(from, to), scrape)), to, until)
    ensures k != from && k != to ==> Covers(WorldApply(w, Step(Rename(from, to), scrape)), k, until)
  {
    var v := WorldApply(w, Step(Rename(from, to), scrape));
    if k == from {
      CoverageCarries(w, from, v, to, until);
    } else if k != to {
      CoverageCarries(w, k, v, k, until);
    }
  }

  lemma KeepsRunsCovered(w: World, x: WorldAction, k: Key, t: Time)
    requires WorldInv(w) && WorldEnabled(w, x)
    requires k.platform == "twitter" && t in StartsOf(WorldApply(w, x).h, k)
    ensures Covers(WorldApply(w, x), k, t)
  {
    var v := WorldApply(w, x);
    match x
    case Post(key, tweet) =>
      assert Covers(w, k, t);
      PostKeepsCoverage(w, key, tweet, k, t);
    case Step(a, scrape) =>
      if a.Rename? {
        RunCoveredAfterRename(w, a, scrape, k, t);
      } else {
        WasCovered(w, a, k, t);
        DoneGrows(w, x, k);
        CoverageCarries(w, k, v, k, t);
      }
  }

  lemma WasCovered(w: World, a: Action, k: Key, t: Time)
    requires NothingSkipped(w) && Enabled(w.s, a) && !a.Rename?
    requires k.platform == "twitter" && t in StartsOf(Advance(w.s, w.h, a), k)
    ensures Covers(w, k, t)
  {
    StartComesFrom(w.s, w.h, a, k, t);
  }

  lemma RunCoveredAfterRename(w: World, a: Action, scrape: Scrape, k: Key, t: Time)
    requires WorldInv(w) && WorldEnabled(w, Step(a, scrape)) && a.Rename?
    requires k.platform == "twitter" && t in StartsOf(Advance(w.s, w.h, a), k)
    ensures Covers(WorldApply(w, Step(a, scrape)), k, t)
  {
    StartComesFrom(w.s, w.h, a, k, t);
    var former := if k == a.to then a.from else k;
    assert Covers(w, former, t);
    RenameCarries(w, a.from, a.to, scrape, former, t);
  }

  lemma SuccessComesFrom(s: State, a: Action, id: JobId)
    requires Enabled(s, a) && id in NextFlights(s, a) && HasSucceeded(NextFlights(s, a)[id])
    ensures
      || (IsCleanReturn(s, a) && a.id == id && NextFlights(s, a)[id].phase.start == s.flights[id].phase.start
          && NextFlights(s, a)[id].job == s.flights[id].job)
      || (id in s.flights && HasSucceeded(s.flights[id])
          && NextFlights(s, a)[id].phase.start == s.flights[id].phase.start
          && NextFlights(s, a)[id].job == s.flights[id].job)
  {
  }

  /** A job past its scrape keeps its handle: no rename touches a running target. */
  lemma RunIsNotRenamed(w: World, a: Action, id: JobId)
    requires Inv(w.s, w.h) && Enabled(w.s, a) && a.Rename? && id in w.s.flights && HasSucceeded(w.s.flights[id])
    ensures w.s.flights[id].job.key != a.from && w.s.flights[id].job.key != a.to
  {
    assert StatusFits(w.s, w.h, w.s.flights[id]);
  }

  lemma SuccessStaysCovered(w: World, x: WorldAction, id: JobId)
    requires WorldInv(w) && WorldEnabled(w, x) && id in w.s.flights && HasSucceeded(w.s.flights[id])
    ensures Covers(WorldApply(w, x), w.s.flights[id].job.key, w.s.flights[id].phase.start)
  {
    var key, start := w.s.flights[id].job.key, w.s.flights[id].phase.start;
    match x
    case Post(k, tweet) =>
      assert StartedBy(w.s.flights[id], w.s.now);
      PostKeepsCoverage(w, k, tweet, key, start);
    case Step(a, scrape) =>
      if a.Rename? {
        RunIsNotRenamed(w, a, id);
        RenameCarries(w, a.from, a.to, scrape, key, start);
      } else {
        DoneGrows(w, x, key);
        CoverageCarries(w, key, WorldApply(w, x), key, start);
      }
  }

  lemma KeepsReturnsCovered(w: World, x: WorldAction, id: JobId)
    requires WorldInv(w) && WorldEnabled(w, x)
    requires id in WorldApply(w, x).s.flights && HasSucceeded(WorldApply(w, x).s.flights[id])
    ensures Covers(WorldApply(w, x), WorldApply(w, x).s.flights[id].job.key,
                   WorldApply(w, x).s.flights[id].phase.start)
  {
    if x.Step? { SuccessComesFrom(w.s, x.a, id); }
    if x.Step? && IsCleanReturn(w.s, x.a) && x.a.id == id {
      ReturnCovers(w, x.a, x.scrape);
    } else {
      SuccessStaysCovered(w, x, id);
    }
  }

  lemma WorldPreserved(w: World, x: WorldAction)
    requires WorldInv(w) && WorldEnabled(w, x)
    ensures WorldInv(WorldApply(w, x))
  {
    var v := WorldApply(w, x);
    if x.Step? { Preserved(w.s, w.h, x.a); }
    KeepsPast(w, x);
    forall k, t | k in v.h.starts && k.platform == "twitter" && t in v.h.starts[k] ensures Covers(v, k, t) {
      KeepsRunsCovered(w, x, k, t);
    }
    forall id | id in v.s.flights && HasSucceeded(v.s.flights[id])
      ensures Covers(v, v.s.flights[id].job.key, v.s.flights[id].phase.start)
    {
      KeepsReturnsCovered(w, x, id);
    }
  }

  // ---------------------------------------------------------------- whole runs

  /** A run of the world from a fresh process whose record of successful runs is true. */
  ghost predicate IsWorldRun(worlds: seq<World>, actions: seq<WorldAction>) {
    && |worlds| == |actions| + 1
    && Init(worlds[0].s, worlds[0].h)
    && InThePast(worlds[0].s, worlds[0].h) && NothingSkipped(worlds[0])
    && forall i | 0 <= i < |actions| ::
         WorldEnabled(worlds[i], actions[i]) && worlds[i + 1] == WorldApply(worlds[i], actions[i])
  }

  lemma {:induction false} WorldRunKeepsInv(worlds: seq<World>, actions: seq<WorldAction>, i: nat)
    requires IsWorldRun(worlds, actions) && i <= |actions|
    ensures WorldInv(worlds[i])
  {
    if i == 0 {
      InitHolds(worlds[0].s, worlds[0].h);
    } else {
      WorldRunKeepsInv(worlds, actions, i - 1);
      WorldPreserved(worlds[i - 1], actions[i - 1]);
      assert worlds[(i - 1) + 1] == WorldApply(worlds[i - 1], actions[i - 1]);
    }
  }

  /**
   Across any mix of successes, failures, cancels, crashes and restarts: every eligible tweet dated before a Twitter
   target's stored watermark, or before the in-memory watermark of one that is not running, had every media url
   downloaded or skipped in some run.
   */
  lemma NoTweetIsSkipped(worlds: seq<World>, actions: seq<WorldAction>, i: nat, k: Key, t: T.Tweet)
    requires IsWorldRun(worlds, actions) && i <= |actions| && k.platform == "twitter"
    requires k in worlds[i].setup && t in Feed(worlds[i], k) && IsEligible(t, worlds[i].setup[k])
    requires
      || (k in worlds[i].s.rows && T.TimeOf(t).value < worlds[i].s.rows[k].at)
      || (k in worlds[i].s.progress && worlds[i].s.progress[k].status != Running
          && T.TimeOf(t).value < worlds[i].s.progress[k].updatedAt)
    ensures worlds[i].setup[k].cfg.downloadPhotos ==> forall p | p in t.photos :: LargeForm(p) in Done(worlds[i], k)
    ensures worlds[i].setup[k].cfg.downloadVideos ==>
      forall v | v in t.videos + t.gifs && v != "" :: v in Done(worlds[i], k)
  {
    WorldRunKeepsInv(worlds, actions, i);
    var w := worlds[i];
    var until :=
      if k in w.s.rows && T.TimeOf(t).value < w.s.rows[k].at then w.s.rows[k].at else w.s.progress[k].updatedAt;
    assert IsSafe(w.h, k, until);
    assert Covers(w, k, until);
    assert IsHandled(t, w.setup[k], Done(w, k));
  }
}
