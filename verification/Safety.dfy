/** What the invariant says about whole runs, and what happens without the restart hypothesis. */
module Safety {
  import opened Basics
  import opened Protocol
  import opened Invariants

  lemma {:induction false} RunKeepsInv(states: seq<State>, histories: seq<History>, actions: seq<Action>, i: nat)
    requires IsRun(states, histories, actions) && i <= |actions|
    ensures Inv(states[i], histories[i])
  {
    if i == 0 {
      InitHolds(states[0], histories[0]);
    } else {
      RunKeepsInv(states, histories, actions, i - 1);
      assert IsStep(states[i - 1], histories[i - 1], actions[i - 1], states[i], histories[i]);
      Preserved(states[i - 1], histories[i - 1], actions[i - 1]);
    }
  }

  /** The step publishes a successful run of target `k` that began at `start`. */
  predicate Succeeds(s: State, a: Action, k: Key, start: Time) {
    && a.Finish? && a.id in s.flights && s.flights[a.id].job.key == k
    && s.flights[a.id].phase.Settling?
    && s.flights[a.id].phase.outcome.Success?
    && s.flights[a.id].phase.start == start
  }

  /** What the target called `k` after `i` steps was called after `j`; None when the handle was given up since. */
  function NameAt(actions: seq<Action>, j: nat, i: nat, k: Key): Option<Key>
    requires j <= i <= |actions|
    decreases i
  {
    if i == j then Some(k)
    else
      var a := actions[i - 1];
      if a.Rename? && a.from == k then None
      else NameAt(actions, j, i - 1, if a.Rename? && a.to == k then a.from else k)
  }

  /** `t` is zero, was in the target's own record at first, or is the start of a run of it that succeeded since. */
  ghost predicate IsRunStart(
    states: seq<State>, histories: seq<History>, actions: seq<Action>, i: nat, k: Key, t: Time)
    requires |states| == |histories| == |actions| + 1 && i <= |actions|
  {
    || t == 0
    || (NameAt(actions, 0, i, k).Some? && t in StartsOf(histories[0], NameAt(actions, 0, i, k).value))
    || (exists j | 0 <= j < i :: SucceedsAs(states, actions, j, i, k, t))
  }

  /** Step `j` publishes a successful run of the target called `k` after `i` steps. */
  predicate SucceedsAs(states: seq<State>, actions: seq<Action>, j: nat, i: nat, k: Key, t: Time)
    requires j < i <= |actions| == |states| - 1
  {
    NameAt(actions, j + 1, i, k).Some? && Succeeds(states[j], actions[j], NameAt(actions, j + 1, i, k).value, t)
  }

  lemma {:induction false} StartsAreRunStarts(
    states: seq<State>, histories: seq<History>, actions: seq<Action>, i: nat, k: Key, t: Time)
    requires IsRun(states, histories, actions) && i <= |actions|
    requires t in StartsOf(histories[i], k)
    ensures IsRunStart(states, histories, actions, i, k, t)
  {
    if i > 0 {
      var s, h, a := states[i - 1], histories[i - 1], actions[i - 1];
      assert IsStep(s, h, a, states[i], histories[i]);
      StartComesFromStep(s, h, a, k, t);
      var former := if a.Rename? && a.to == k then a.from else k;
      if t in StartsOf(h, former) {
        StartsAreRunStarts(states, histories, actions, i - 1, former, t);
        assert NameAt(actions, 0, i, k) == NameAt(actions, 0, i - 1, former);
        var prev := i - 1;
        if j :| 0 <= j < prev && SucceedsAs(states, actions, j, prev, former, t) {
          assert NameAt(actions, j + 1, i, k) == NameAt(actions, j + 1, i - 1, former);
          assert SucceedsAs(states, actions, j, i, k, t);
        }
      } else {
        assert NameAt(actions, i, i, k) == Some(k);
        assert SucceedsAs(states, actions, i - 1, i, k, t);
      }
    }
  }

  lemma StartComesFromStep(s: State, h: History, a: Action, k: Key, t: Time)
    requires Enabled(s, a) && t in StartsOf(Advance(s, h, a), k)
    ensures !(a.Rename? && a.from == k)
    ensures t in StartsOf(h, if a.Rename? && a.to == k then a.from else k) || Succeeds(s, a, k, t)
  {
  }

  lemma SafeIsRunStart(
    states: seq<State>, histories: seq<History>, actions: seq<Action>, i: nat, k: Key, t: Time)
    requires IsRun(states, histories, actions) && i <= |actions| && IsSafe(histories[i], k, t)
    ensures IsRunStart(states, histories, actions, i, k, t)
  {
    if t != 0 {
      StartsAreRunStarts(states, histories, actions, i, k, t);
    }
  }

  /**
   Whatever the interleaving, and wherever the process dies: the watermark of a target that is not running, the
   watermark a waiting or running job carries, and every stored watermark are starts of successful runs of that very
   target, under whatever handles it had.
   */
  lemma WatermarksNeverLeak(states: seq<State>, histories: seq<History>, actions: seq<Action>, i: nat)
    requires IsRun(states, histories, actions) && i <= |actions|
    ensures forall k | k in states[i].progress && states[i].progress[k].status != Running ::
              IsRunStart(states, histories, actions, i, k, states[i].progress[k].updatedAt)
    ensures forall id | id in states[i].flights && IsLive(states[i].flights[id].phase) ::
              IsRunStart(states, histories, actions, i, states[i].flights[id].job.key, states[i].flights[id].job.lastSync)
    ensures forall k | k in states[i].rows :: IsRunStart(states, histories, actions, i, k, states[i].rows[k].at)
  {
    RunKeepsInv(states, histories, actions, i);
    var s, h := states[i], histories[i];
    forall k | k in s.progress && s.progress[k].status != Running
      ensures IsRunStart(states, histories, actions, i, k, s.progress[k].updatedAt)
    {
      SafeIsRunStart(states, histories, actions, i, k, s.progress[k].updatedAt);
    }
    forall id | id in s.flights && IsLive(s.flights[id].phase)
      ensures IsRunStart(states, histories, actions, i, s.flights[id].job.key, s.flights[id].job.lastSync)
    {
      assert FlightIsSafe(h, s.flights[id]);
      SafeIsRunStart(states, histories, actions, i, s.flights[id].job.key, s.flights[id].job.lastSync);
    }
    forall k | k in s.rows ensures IsRunStart(states, histories, actions, i, k, s.rows[k].at) {
      SafeIsRunStart(states, histories, actions, i, k, s.rows[k].at);
    }
  }

  /** At most one worker is inside runScrape for a target, and "running" and "queued" say exactly where its job is. */
  lemma StatusIsExact(states: seq<State>, histories: seq<History>, actions: seq<Action>, i: nat, k: Key)
    requires IsRun(states, histories, actions) && i <= |actions| && k in states[i].progress
    ensures forall a, b | Runs(states[i].flights, a, k) && Runs(states[i].flights, b, k) :: a == b
    ensures states[i].progress[k].status == Running <==> exists id :: Runs(states[i].flights, id, k)
    ensures states[i].progress[k].status == Queued <==>
      k !in histories[i].dropped && exists id :: Waits(states[i].flights, id, k)
  {
    RunKeepsInv(states, histories, actions, i);
    var s, h := states[i], histories[i];
    forall id | Runs(s.flights, id, k) || Waits(s.flights, id, k) ensures StatusFits(s, h, s.flights[id]) {
    }
  }

  /** The slot counter is exact, never passes eight or the largest limit so far, and one Twitter run has the lock. */
  lemma SlotsAreExact(states: seq<State>, histories: seq<History>, actions: seq<Action>, i: nat)
    requires IsRun(states, histories, actions) && i <= |actions|
    ensures states[i].active == |SlotHolders(states[i])|
    ensures states[i].active <= MAX_SCRAPE_WORKERS && states[i].active <= histories[i].peak
    ensures forall a, b | a in states[i].flights && b in states[i].flights
              && HoldsTwitter(states[i].flights[a]) && HoldsTwitter(states[i].flights[b]) :: a == b
  {
    RunKeepsInv(states, histories, actions, i);
    SubsetSize(SlotHolders(states[i]), WorkerHeld(states[i]));
  }

  lemma {:induction false} SubsetSize<T>(a: set<T>, b: set<T>)
    requires a <= b
    ensures |a| <= |b|
  {
    if x :| x in a {
      SubsetSize(a - {x}, b - {x});
    }
  }

  // ---------------------------------------------------------------- full resync marks

  /** A mark goes only by a forced run that succeeds, or along with its target's new handle; a crash keeps it. */
  lemma MarkLeavesOnlyBySuccess(s: State, a: Action, k: Key)
    requires Enabled(s, a) && s.fullResync == s.savedResync
    requires k in s.fullResync && k !in NextResync(s, a)
    ensures
      || (a.Rename? && a.from == k && a.to in NextResync(s, a))
      || (a.Finish? && s.flights[a.id].job.key == k && s.flights[a.id].job.forced
          && s.flights[a.id].phase.outcome.Success?)
  {
  }

  /** Over whole runs: the stored marks are the marks, and one that is gone was honoured or moved. */
  lemma MarksAreKept(states: seq<State>, histories: seq<History>, actions: seq<Action>, i: nat, k: Key)
    requires IsRun(states, histories, actions) && i < |actions|
    ensures states[i].fullResync == states[i].savedResync
    ensures k in states[i].fullResync && k !in states[i + 1].fullResync ==>
      || (actions[i].Rename? && actions[i].from == k && actions[i].to in states[i + 1].fullResync)
      || (actions[i].Finish? && states[i].flights[actions[i].id].job.key == k
          && states[i].flights[actions[i].id].job.forced && states[i].flights[actions[i].id].phase.outcome.Success?)
  {
    RunKeepsInv(states, histories, actions, i);
    assert IsStep(states[i], histories[i], actions[i], states[i + 1], histories[i + 1]);
    if k in states[i].fullResync && k !in states[i + 1].fullResync {
      MarkLeavesOnlyBySuccess(states[i], actions[i], k);
    }
  }

  lemma MarkedJobIsForced(s: State, a: Action, k: Key, id: JobId)
    requires Enabled(s, a) && k in s.fullResync
    requires id in NextFlights(s, a) && NextFlights(s, a)[id].job.key == k
    ensures
      || (id in s.flights && NextFlights(s, a)[id].job == s.flights[id].job)
      || (NextFlights(s, a)[id].job.forced && NextFlights(s, a)[id].job.lastSync == 0)
  {
    FlightComesFrom(s, a, id);
  }

  /** While a mark is pending, every job made for the target is forced and starts from no watermark. */
  lemma {:induction false} LaterJobsAreForced(
    states: seq<State>, histories: seq<History>, actions: seq<Action>, i: nat, j: nat, k: Key, id: JobId)
    requires IsRun(states, histories, actions) && i <= j <= |actions|
    requires forall n | i <= n <= j :: k in states[n].fullResync
    requires id in states[j].flights && states[j].flights[id].job.key == k && id >= states[i].nextId
    ensures states[j].flights[id].job.forced && states[j].flights[id].job.lastSync == 0
    decreases j
  {
    if i == j {
      IdsStayFresh(states, histories, actions, i, id);
    } else {
      var s, a := states[j - 1], actions[j - 1];
      assert IsStep(s, histories[j - 1], a, states[j], histories[j]);
      MarkedJobIsForced(s, a, k, id);
      if !(states[j].flights[id].job.forced && states[j].flights[id].job.lastSync == 0) {
        LaterJobsAreForced(states, histories, actions, i, j - 1, k, id);
      }
    }
  }

  lemma IdsStayFresh(states: seq<State>, histories: seq<History>, actions: seq<Action>, i: nat, id: JobId)
    requires IsRun(states, histories, actions) && i <= |actions|
    requires id in states[i].flights
    ensures id < states[i].nextId
  {
    RunKeepsInv(states, histories, actions, i);
  }

  /** A forced run of the target whose scrape has begun and may still clear a mark: it has not failed. */
  predicate IsMidScrape(s: State, k: Key, id: JobId) {
    id in s.flights && MayClearMark(s.flights[id], k)
  }

  predicate MayClearMark(flight: Flight, k: Key) {
    && flight.job.key == k && flight.job.forced
    && var phase := flight.phase;
       phase.Scraping? || ((phase.Returned? || phase.Settling?) && phase.outcome.Success?)
  }

  lemma MidScrapeComesFrom(s: State, a: Action, k: Key, id: JobId)
    requires Enabled(s, a) && a != Begin(id) && id in NextFlights(s, a) && MayClearMark(NextFlights(s, a)[id], k)
    ensures IsMidScrape(s, k, id)
  {
    if a.Send? || (IsWorkerStep(a) && !a.Release?) {
      OwnStep(s, a);
    } else {
      OtherStep(s, a);
    }
  }

  lemma MidScrapeStep(s: State, h: History, a: Action, t: State, g: History, k: Key, id: JobId)
    requires IsStep(s, h, a, t, g) && a != Begin(id) && IsMidScrape(t, k, id)
    ensures IsMidScrape(s, k, id)
  {
    MidScrapeComesFrom(s, a, k, id);
  }

  lemma {:induction false} WasMidScrape(
    states: seq<State>, histories: seq<History>, actions: seq<Action>, i: nat, j: nat, k: Key, id: JobId)
    requires IsRun(states, histories, actions) && i <= j <= |actions|
    requires IsMidScrape(states[j], k, id) && forall m | i <= m < j :: actions[m] != Begin(id)
    ensures IsMidScrape(states[i], k, id)
    decreases j
  {
    if i < j {
      MidScrapeStep(states[j - 1], histories[j - 1], actions[j - 1], states[j], histories[j], k, id);
      WasMidScrape(states, histories, actions, i, j - 1, k, id);
    }
  }

  /** A mark set while no forced run is mid-scrape is cleared only by a run whose scrape began after the mark. */
  lemma QuietMarkIsHonoured(
    states: seq<State>, histories: seq<History>, actions: seq<Action>, i: nat, j: nat, k: Key)
    requires IsRun(states, histories, actions) && i <= j < |actions|
    requires !exists id :: IsMidScrape(states[i], k, id)
    requires k in states[j].fullResync && k !in states[j + 1].fullResync && !actions[j].Rename?
    ensures actions[j].Finish? && exists m | i <= m < j :: actions[m] == Begin(actions[j].id)
  {
    MarksAreKept(states, histories, actions, j, k);
    var id := actions[j].id;
    assert IsStep(states[j], histories[j], actions[j], states[j + 1], histories[j + 1]);
    assert IsMidScrape(states[j], k, id);
    if forall m | i <= m < j :: actions[m] != Begin(id) {
      WasMidScrape(states, histories, actions, i, j, k, id);
    }
  }

  /** These steps end with run `id` clearing a pending mark of `k`, and its scrape does not begin among them. */
  predicate LosesMark(s: State, steps: seq<Action>, k: Key, id: JobId)
    decreases |steps|
  {
    && steps != [] && Enabled(s, steps[0]) && steps[0] != Begin(id)
    && if |steps| == 1 then
         steps[0].Finish? && steps[0].id == id && k in s.fullResync && k !in NextResync(s, steps[0])
       else LosesMark(Apply(s, steps[0]), steps[1..], k, id)
  }

  lemma {:induction false} LossComesFromMidScrape(s: State, steps: seq<Action>, k: Key, id: JobId)
    requires LosesMark(s, steps, k, id)
    ensures IsMidScrape(s, k, id)
    decreases |steps|
  {
    if |steps| > 1 {
      LossComesFromMidScrape(Apply(s, steps[0]), steps[1..], k, id);
      MidScrapeComesFrom(s, steps[0], k, id);
    }
  }

  lemma SettlingLosesMark(s: State, k: Key, id: JobId)
    requires IsMidScrape(s, k, id) && k in s.fullResync && s.flights[id].phase.Settling?
    ensures LosesMark(s, [Finish(id, true)], k, id)
  {
  }

  lemma ReturnedLosesMark(s: State, k: Key, id: JobId)
    requires IsMidScrape(s, k, id) && k in s.fullResync && s.flights[id].phase.Returned?
    ensures LosesMark(s, [Trip(id), Finish(id, true)], k, id)
  {
    SettlingLosesMark(Apply(s, Trip(id)), k, id);
    assert [Trip(id), Finish(id, true)][1..] == [Finish(id, true)];
  }

  /** A run that is mid-scrape clears the mark with its own remaining steps. */
  lemma MidScrapeLosesMark(s: State, k: Key, id: JobId) returns (steps: seq<Action>)
    requires IsMidScrape(s, k, id) && k in s.fullResync
    ensures LosesMark(s, steps, k, id)
  {
    if s.flights[id].phase.Settling? {
      steps := [Finish(id, true)];
      SettlingLosesMark(s, k, id);
    } else if s.flights[id].phase.Returned? {
      steps := [Trip(id), Finish(id, true)];
      ReturnedLosesMark(s, k, id);
    } else {
      steps := [Return(id, Success), Trip(id), Finish(id, true)];
      ReturnedLosesMark(Apply(s, Return(id, Success)), k, id);
      assert steps[1..] == [Trip(id), Finish(id, true)];
    }
  }

  /**
   Exactly when a mark can be lost: some continuation has it cleared by a scrape that began before it was set if and
   only if a forced run of the target is mid-scrape at that moment.
   */
  lemma MarkCanBeLostExactly(s: State, k: Key)
    requires k in s.fullResync
    ensures (exists id :: CanLoseMark(s, k, id)) <==> exists id :: IsMidScrape(s, k, id)
  {
    forall id ensures CanLoseMark(s, k, id) <==> IsMidScrape(s, k, id) {
      if CanLoseMark(s, k, id) {
        var steps :| LosesMark(s, steps, k, id);
        LossComesFromMidScrape(s, steps, k, id);
      }
      if IsMidScrape(s, k, id) {
        var steps := MidScrapeLosesMark(s, k, id);
      }
    }
  }

  /** Some continuation has the mark cleared by run `id` without its scrape beginning on the way. */
  ghost predicate CanLoseMark(s: State, k: Key, id: JobId) {
    exists steps :: LosesMark(s, steps, k, id)
  }
}
