/** Reading an x.com timeline: the retries behind one page, and the stream that pages make. */
module Timeline {
  import opened Basics

  // ---------------------------------------------------------------- one page

  datatype Error = AuthExpired | TooManyRequests | Unparsed | Other | Cancelled

  /** What one request brings, once its body is parsed. */
  datatype Reply<T> =
    | Fetched(tweets: seq<T>, next: string)
    | BadBody
    | RateLimited(retryAfter: int)
    | NotLoggedIn
    | Trouble

  datatype PageResult<T> = Page(tweets: seq<T>, next: string) | Failed(error: Error)

  const MAX_RETRIES := 5
  const SECOND: nat := 1_000_000_000
  const FIRST_BACKOFF: nat := 15 * SECOND

  /** Fifteen seconds, doubled `n` times. */
  function Backoff(n: nat): nat {
    if n == 0 then 15 * SECOND else 2 * Backoff(n - 1)
  }

  function Sum(ns: seq<nat>): nat {
    if ns == [] then 0 else Sum(ns[..|ns| - 1]) + ns[|ns| - 1]
  }

  /** The replies among the first `n` that name no time to come back. */
  function Unhinted<T>(reply: nat -> Reply<T>, n: nat): set<nat> {
    set k | 0 <= k < n && !(reply(k).RateLimited? && reply(k).retryAfter > 0)
  }

  lemma UnhintedGrows<T>(reply: nat -> Reply<T>, n: nat)
    ensures |Unhinted(reply, n + 1)| ==
      |Unhinted(reply, n)| + if reply(n).RateLimited? && reply(n).retryAfter > 0 then 0 else 1
  {
    var before, here := Unhinted(reply, n), if reply(n).RateLimited? && reply(n).retryAfter > 0 then {} else {n};
    assert Unhinted(reply, n + 1) == before + here;
  }

  /** Pauses of 15 seconds, then twice that, and so on, each up to half as long again. */
  predicate AreBackoffs(pauses: seq<nat>) {
    forall c | 0 <= c < |pauses| :: Backoff(c) <= pauses[c] && 2 * pauses[c] < 3 * Backoff(c)
  }

  /** Attempts that were followed by another. */
  predicate AreRetried<T>(reply: nat -> Reply<T>, n: nat) {
    forall k | 0 <= k < n :: reply(k).RateLimited? || (reply(k).Trouble? && k < 2)
  }

  /**
   doTimelinePage. `reply(k)` answers attempt `k`; `jitter(k)` is the random number behind its pause, and a pause
   numbered in `cancelled` is cut short. `pauses` are those the client chose itself, where the reply named no time.
   */
  method FetchPage<T>(reply: nat -> Reply<T>, jitter: nat -> nat, cancelled: set<nat>)
    returns (r: PageResult<T>, attempts: nat, pauses: seq<nat>)
    ensures 1 <= attempts <= 6 && AreRetried(reply, attempts - 1)
    ensures r == Failed(Cancelled) ==> attempts - 1 in cancelled
    ensures r != Failed(Cancelled) ==> IsSettledBy(reply(attempts - 1), attempts, r)
    ensures AreBackoffs(pauses) && 2 * Sum(pauses) < 1395 * SECOND
    ensures |pauses| == |Unhinted(reply, if r == Failed(Cancelled) then attempts else attempts - 1)|
  {
    var backoff, done := FIRST_BACKOFF, false;
    attempts, pauses, r := 0, [], Failed(Other);
    assert Unhinted(reply, 0) == {};
    while !done
      invariant if done then IsFetched(reply, cancelled, r, attempts, pauses)
                else IsTrying(reply, attempts, pauses, backoff)
      decreases !done, MAX_RETRIES - attempts
    {
      done, r, pauses, backoff := TryOnce(reply, attempts, jitter(attempts), cancelled, pauses, backoff);
      attempts := attempts + 1;
    }
    SumIsBounded(pauses);
  }

  /** `n` attempts have been made, and the next is to come. */
  ghost predicate IsTrying<T>(reply: nat -> Reply<T>, n: nat, pauses: seq<nat>, backoff: nat) {
    && n <= MAX_RETRIES && AreRetried(reply, n) && |pauses| == |Unhinted(reply, n)| <= n
    && AreBackoffs(pauses) && backoff == Backoff(|pauses|)
  }

  ghost predicate IsFetched<T>(reply: nat -> Reply<T>, cancelled: set<nat>, r: PageResult<T>, attempts: nat,
                                     pauses: seq<nat>)
  {
    && 1 <= attempts <= 6 && AreRetried(reply, attempts - 1) && AreBackoffs(pauses) && |pauses| <= 5
    && (if r == Failed(Cancelled) then attempts - 1 in cancelled else IsSettledBy(reply(attempts - 1), attempts, r))
    && |pauses| == |Unhinted(reply, if r == Failed(Cancelled) then attempts else attempts - 1)|
  }

  /** One turn of its loop. */
  method TryOnce<T>(reply: nat -> Reply<T>, attempt: nat, jitter: nat, cancelled: set<nat>, before: seq<nat>,
                    backoff0: nat)
    returns (done: bool, r: PageResult<T>, pauses: seq<nat>, backoff: nat)
    requires IsTrying(reply, attempt, before, backoff0)
    ensures if done then IsFetched(reply, cancelled, r, attempt + 1, pauses)
            else IsTrying(reply, attempt + 1, pauses, backoff)
  {
    var got := reply(attempt);
    pauses, backoff := before, backoff0;
    if got.Fetched? || got.BadBody? || got.NotLoggedIn? {
      done := true;
      r := if got.Fetched? then Page(got.tweets, got.next) else Failed(if got.BadBody? then Unparsed else AuthExpired);
      return;
    }
    done, r := true, Failed(if got.RateLimited? then TooManyRequests else Other);
    var isTransient := !got.RateLimited? && attempt < 2;
    if (!got.RateLimited? && !isTransient) || attempt >= MAX_RETRIES {
      return;
    }
    UnhintedGrows(reply, attempt);
    if !(got.RateLimited? && got.retryAfter > 0) {
      BackoffIsEven(|pauses|);
      PauseIsBackoff(pauses, backoff, jitter);
      pauses, backoff := pauses + [backoff + jitter % (backoff / 2)], backoff * 2;
    }
    done := attempt in cancelled;
    if done {
      r := Failed(Cancelled);
    }
  }

  /** What the deciding reply comes to, as the reply to attempt number `attempts`, counted from one. */
  predicate IsSettledBy<T(==)>(last: Reply<T>, attempts: nat, r: PageResult<T>) {
    match last
    case Fetched(tweets, next) => r == Page(tweets, next)
    case BadBody => r == Failed(Unparsed)
    case NotLoggedIn => r == Failed(AuthExpired)
    case RateLimited(_) => r == Failed(TooManyRequests) && attempts == 6
    case Trouble => r == Failed(Other) && attempts >= 3
  }

  lemma PauseIsBackoff(pauses: seq<nat>, backoff: nat, jitter: nat)
    requires AreBackoffs(pauses) && backoff == Backoff(|pauses|) && backoff == 2 * (backoff / 2) > 0
    ensures AreBackoffs(pauses + [backoff + jitter % (backoff / 2)]) && backoff * 2 == Backoff(|pauses| + 1)
  {
    var pause := backoff + jitter % (backoff / 2);
    assert backoff <= pause && 2 * pause < 3 * backoff;
    assert forall c | 0 <= c < |pauses| :: (pauses + [pause])[c] == pauses[c];
  }

  lemma {:induction false} BackoffIsEven(n: nat)
    ensures Backoff(n) == 2 * (Backoff(n) / 2) >= 15 * SECOND
  {
    if n > 0 {
      BackoffIsEven(n - 1);
    }
  }

  lemma {:induction false} BackoffGrows(m: nat, n: nat)
    requires m <= n
    ensures Backoff(m) <= Backoff(n)
  {
    if m < n {
      BackoffGrows(m, n - 1);
    }
  }

  lemma {:induction false} SumOfBackoffs(pauses: seq<nat>)
    requires AreBackoffs(pauses)
    ensures 2 * Sum(pauses) <= 3 * (Backoff(|pauses|) - 15 * SECOND)
    ensures pauses != [] ==> 2 * Sum(pauses) < 3 * (Backoff(|pauses|) - 15 * SECOND)
  {
    if pauses != [] {
      SumOfBackoffs(pauses[..|pauses| - 1]);
    }
  }

  /** Five pauses at most: under 697.5 seconds in all. */
  lemma SumIsBounded(pauses: seq<nat>)
    requires AreBackoffs(pauses) && |pauses| <= MAX_RETRIES
    ensures 2 * Sum(pauses) < 1395 * SECOND
  {
    SumOfBackoffs(pauses);
    BackoffGrows(|pauses|, 5);
    assert Backoff(2) == 60 * SECOND && Backoff(4) == 4 * Backoff(2) && Backoff(5) == 480 * SECOND;
  }

  // ---------------------------------------------------------------- the stream

  /** A page another one follows. */
  predicate IsOpen<T>(p: PageResult<T>) {
    p.Page? && p.tweets != [] && p.next != ""
  }

  /** The tweets of the first `n` pages. */
  function Concat<T>(page: nat -> PageResult<T>, n: nat): seq<T> {
    if n == 0 then []
    else Concat(page, n - 1) + if page(n - 1).Page? then page(n - 1).tweets else []
  }

  function Take<T>(s: seq<T>, n: nat): seq<T> {
    if |s| <= n then s else s[..n]
  }

  /**
   The goroutine of timeline: the tweets it sends, then at most one error. `page(k)` is the k-th page fetched;
   a check numbered in `notices` finds the context cancelled.
   */
  method Stream<T>(page: nat -> PageResult<T>, max: nat, notices: set<nat>)
    returns (tweets: seq<T>, error: Option<Error>, n: nat)
    ensures forall k | 0 <= k < n - 1 :: IsOpen(page(k))
    ensures n > 0 ==> |Concat(page, n - 1)| < max
    ensures error == Some(Cancelled) || tweets == Take(Concat(page, n), max)
    ensures tweets <= Take(Concat(page, n), max)
    ensures error.Some? ==> error == Some(Cancelled) || (n > 0 && page(n - 1) == Failed(error.value))
    ensures error.None? ==> |tweets| == max || (n > 0 && page(n - 1).Page? && !IsOpen(page(n - 1)))
  {
    tweets, n := [], 0;
    var checks := 0;
    while |tweets| < max
      invariant |tweets| <= max && tweets == Concat(page, n)
      invariant forall k | 0 <= k < n :: IsOpen(page(k))
      invariant n > 0 ==> |Concat(page, n - 1)| < max
      decreases max - |tweets|
    {
      if checks in notices {
        return tweets, Some(Cancelled), n;
      }
      checks := checks + 1;
      var p := page(n);
      ConcatStep(page, n, max);
      n := n + 1;
      if p.Failed? {
        return tweets, Some(p.error), n;
      }
      if |p.tweets| == 0 {
        return tweets, None, n;
      }
      var done;
      tweets, checks, done, error := Send(p.tweets, tweets, max, checks, notices);
      if done {
        return tweets, error, n;
      }
      if p.next == "" {
        return tweets, None, n;
      }
    }
    error := None;
  }

  lemma ConcatStep<T>(page: nat -> PageResult<T>, n: nat, max: nat)
    ensures Concat(page, n + 1) == Concat(page, n) + if page(n).Page? then page(n).tweets else []
    ensures |Concat(page, n)| <= max ==> Take(Concat(page, n), max) == Concat(page, n) <= Take(Concat(page, n + 1), max)
  {
  }

  /** One page's tweets, as long as there is room for them. */
  method Send<T>(page: seq<T>, before: seq<T>, max: nat, checks0: nat, notices: set<nat>)
    returns (tweets: seq<T>, checks: nat, done: bool, error: Option<Error>)
    requires |before| < max
    ensures tweets <= Take(before + page, max)
    ensures !done ==> tweets == before + page && |tweets| <= max && error.None?
    ensures done && error.None? ==> tweets == Take(before + page, max) && |tweets| == max
    ensures error.Some? ==> error == Some(Cancelled)
  {
    tweets, checks, done, error := before, checks0, false, None;
    var i := 0;
    while i < |page|
      invariant i <= |page| && tweets == before + page[..i] && |tweets| <= max
    {
      if |tweets| >= max {
        done := true;
        return;
      }
      if checks in notices {
        done, error := true, Some(Cancelled);
        return;
      }
      tweets, checks := tweets + [page[i]], checks + 1;
      i := i + 1;
    }
  }

  lemma {:induction false} ConcatGrows<T>(page: nat -> PageResult<T>, m: nat, n: nat)
    requires m <= n
    ensures Concat(page, m) <= Concat(page, n)
  {
    if m < n {
      ConcatGrows(page, m, n - 1);
    }
  }

  /** Where the stream of a source without failures or cancellation ends: the whole feed, or the first `max` of it. */
  lemma StreamIsTheFeed<T>(page: nat -> PageResult<T>, max: nat, tweets: seq<T>, n: nat, last: nat)
    requires forall k | 0 <= k < last :: IsOpen(page(k))
    requires page(last).Page? && !IsOpen(page(last))
    requires (forall k | 0 <= k < n - 1 :: IsOpen(page(k))) && tweets == Take(Concat(page, n), max)
    requires |tweets| == max || (n > 0 && page(n - 1).Page? && !IsOpen(page(n - 1)))
    ensures tweets == Take(Concat(page, last + 1), max)
  {
    if n > 0 && page(n - 1).Page? && !IsOpen(page(n - 1)) {
      assert n - 1 == last;
    } else if n <= last + 1 {
      ConcatGrows(page, n, last + 1);
    }
  }
}
