/**
 What every run of the orchestrator keeps: watermarks that are starts of successful runs, one job a target,
 statuses that say where that job is, and exact slot and lock accounting.
 */
module Invariants {
  import opened Basics
  import opened Protocol

  /**
   History the program does not store. `starts` holds, for each target, the start times of its successful runs
   (and the watermark its row had when the record began); `dropped` the targets cancelled while queued whose job
   is still on its way to a worker; `peak` the largest concurrency limit configured so far.
   */
  datatype History = History(starts: map<Key, set<Time>>, dropped: set<Key>, peak: nat)

  function StartsOf(h: History, key: Key): set<Time> {
    if key in h.starts then h.starts[key] else {}
  }

  /** `t` is the zero time or the start of a successful run of the target. */
  predicate IsSafe(h: History, key: Key, t: Time) {
    t == 0 || t in StartsOf(h, key)
  }

  function DroppedBy(s: State, platform: string, user: string): set<Key> {
    set k | k in s.progress.Keys && IsNamed(k, platform, user) && s.progress[k].status == Queued
  }

  function Advance(s: State, h: History, a: Action): History
    requires Enabled(s, a)
  {
    match a
    case Check(id) =>
      var key := s.flights[id].job.key;
      if EntryOf(s, key).status == Queued then h else h.(dropped := h.dropped - {key})
    case Enter(id) => h.(dropped := h.dropped - {s.flights[id].job.key})
    case Finish(id, _) =>
      var Flight(job, Settling(_, start, outcome)) := s.flights[id];
      if outcome.Success? then h.(starts := h.starts[job.key := StartsOf(h, job.key) + {start}]) else h
    case Cancel(platform, user, _) => h.(dropped := h.dropped + DroppedBy(s, platform, user))
    case CancelAll => h.(dropped := h.dropped - ChannelKeys(s))
    case Rename(from, to) => h.(starts := (h.starts - {from})[to := StartsOf(h, from)])
    case SetLimit(limit) => h.(peak := if limit > h.peak then limit else h.peak)
    case Crash => h.(dropped := {})
    case _ => h
  }

  /**
   The restart hypothesis: a target cancelled while queued is neither restarted nor renamed before its old job
   is discarded; nor is a target renamed while a StartScrape call for either handle still owes its row write.
   */
  predicate Permitted(s: State, h: History, a: Action) {
    match a
    case Start(key, _, _) => key !in h.dropped
    case Rename(from, to) =>
      && from !in h.dropped
      && forall id | id in s.late :: s.late[id].key != from && s.late[id].key != to
    case _ => true
  }

  // ---------------------------------------------------------------- the invariant

  predicate FlightIsSafe(h: History, flight: Flight) {
    IsLive(flight.phase) ==>
      && IsSafe(h, flight.job.key, flight.job.lastSync)
      && (flight.phase.Sending? ==> IsSafe(h, flight.job.key, flight.phase.queuedAt))
      && (InRun(flight.phase) ==> IsSafe(h, flight.job.key, flight.phase.prev))
  }

  /** Every watermark the program holds, queues or stores is zero or the start of a successful run. */
  ghost predicate WatermarksAreSafe(s: State, h: History) {
    && (forall k | k in s.progress && s.progress[k].status != Running :: IsSafe(h, k, s.progress[k].updatedAt))
    && (forall id | id in s.flights :: FlightIsSafe(h, s.flights[id]))
    && (forall id | id in s.late :: IsSafe(h, s.late[id].key, s.late[id].at))
    && (forall k | k in s.rows :: IsSafe(h, k, s.rows[k].at))
  }

  predicate Waits(flights: map<JobId, Flight>, id: JobId, key: Key) {
    id in flights && flights[id].job.key == key && BeforeRun(flights[id].phase)
  }

  predicate Runs(flights: map<JobId, Flight>, id: JobId, key: Key) {
    id in flights && flights[id].job.key == key && InRun(flights[id].phase)
  }

  /** No target has two jobs between StartScrape and the publication of a result. */
  ghost predicate OneJobEach(s: State) {
    forall i, j | i in s.flights && j in s.flights
      && IsLive(s.flights[i].phase) && IsLive(s.flights[j].phase) && s.flights[i].job.key == s.flights[j].job.key
      :: i == j
  }

  predicate StatusFits(s: State, h: History, flight: Flight) {
    EntryFits(s.progress, h.dropped, flight)
  }

  predicate EntryFits(progress: map<Key, Entry>, dropped: set<Key>, flight: Flight) {
    var key := flight.job.key;
    && (InRun(flight.phase) ==>
          key in progress && progress[key].status == Running && key !in dropped)
    && (BeforeRun(flight.phase) ==>
          && key in progress
          && if key in dropped then !IsActive(progress[key].status) else progress[key].status == Queued)
  }

  ghost predicate StatusesFit(s: State, h: History) {
    forall id | id in s.flights :: StatusFits(s, h, s.flights[id])
  }

  ghost predicate RunningIsRun(s: State) {
    forall k | k in s.progress && s.progress[k].status == Running :: exists id :: Runs(s.flights, id, k)
  }

  /** "queued" and "running" mean exactly that the target's job waits or runs; "dropped" that it waits cancelled. */
  ghost predicate StatusesMatch(s: State, h: History) {
    && StatusesFit(s, h)
    && (forall k | k in s.progress && s.progress[k].status == Queued :: exists id :: Waits(s.flights, id, k))
    && RunningIsRun(s)
    && (forall k | k in h.dropped :: exists id :: Waits(s.flights, id, k))
  }

  predicate CancelFits(flights: map<JobId, Flight>, key: Key, id: JobId) {
    Runs(flights, id, key) && !flights[id].phase.Entered? && !flights[id].phase.Marked?
  }

  /** A registered cancel function belongs to a run of its own target. */
  ghost predicate CancelsFit(s: State) {
    forall k | k in s.cancels :: CancelFits(s.flights, k, s.cancels[k])
  }

  ghost predicate IdsAreFresh(s: State) {
    forall id | id in s.flights :: id < s.nextId
  }

  ghost predicate SlotsAdd(s: State, h: History) {
    && s.active == |SlotHolders(s)|
    && |WorkerHeld(s)| <= MAX_SCRAPE_WORKERS
    && s.active <= h.peak
    && s.limit <= h.peak
  }

  /** twitterMu is held exactly by the one Twitter run between Begin and Unlock. */
  ghost predicate LockFits(s: State) {
    && (s.twitterLock.Some? ==> s.twitterLock.value in s.flights && HoldsTwitter(s.flights[s.twitterLock.value]))
    && (forall id | id in s.flights && HoldsTwitter(s.flights[id]) :: s.twitterLock == Some(id))
  }

  ghost predicate Inv(s: State, h: History) {
    && WatermarksAreSafe(s, h)
    && OneJobEach(s)
    && StatusesMatch(s, h)
    && CancelsFit(s)
    && IdsAreFresh(s)
    && SlotsAdd(s, h)
    && LockFits(s)
    && s.fullResync == s.savedResync
  }

  /** A fresh process over a store whose rows open the record. */
  ghost predicate Init(s: State, h: History) {
    && s.progress == map[] && s.cancels == map[] && s.flights == map[] && s.late == map[]
    && s.active == 0 && s.limit <= h.peak && s.twitterLock.None?
    && s.fullResync == s.savedResync
    && h.dropped == {}
    && (forall k | k in s.rows :: IsSafe(h, k, s.rows[k].at))
  }

  lemma InitHolds(s: State, h: History)
    requires Init(s, h)
    ensures Inv(s, h)
  {
    assert SlotHolders(s) == {} && WorkerHeld(s) == {};
  }

  // ---------------------------------------------------------------- where a step's watermarks come from

  /** The entry of `k` after a step, when it is not running, holds one of five times. */
  lemma EntryComesFrom(s: State, a: Action, k: Key)
    requires Enabled(s, a)
    requires k in NextProgress(s, a) && NextProgress(s, a)[k].status != Running
    ensures
      var at := NextProgress(s, a)[k].updatedAt;
      || at == 0
      || (k in s.progress && s.progress[k].status != Running && at == s.progress[k].updatedAt)
      || (a.SyncTargets? && k in s.rows && at == s.rows[k].at)
      || (a.Finish? && s.flights[a.id].job.key == k
          && at == if s.flights[a.id].phase.outcome.Success? then s.flights[a.id].phase.start
                   else s.flights[a.id].phase.prev)
      || (a.Rename? && k == a.to && at == s.progress[a.from].updatedAt)
  {
  }

  lemma RowComesFrom(s: State, a: Action, k: Key)
    requires Enabled(s, a)
    requires k in NextRows(s, a)
    ensures
      var at := NextRows(s, a)[k].at;
      || at == 0
      || (k in s.rows && at == s.rows[k].at)
      || (a.WriteQueued? && k == s.late[a.id].key && at == s.late[a.id].at)
      || (a.Mark? && k == s.flights[a.id].job.key && at == s.flights[a.id].phase.prev)
      || (a.Finish? && k == s.flights[a.id].job.key && at == FinalEntry(s, a.id).updatedAt)
      || (a.Cancel? && k in s.progress && s.progress[k].status == Queued && at == s.progress[k].updatedAt)
      || (a.Rename? && k == a.to && a.from in s.rows && at == s.rows[a.from].at)
  {
  }

  lemma LateComesFrom(s: State, a: Action, id: JobId)
    requires Enabled(s, a)
    requires id in NextLate(s, a)
    ensures
      || (id in s.late && NextLate(s, a)[id] == s.late[id])
      || (a.Send? && id == a.id
          && NextLate(s, a)[id] == LateWrite(s.flights[id].job.key, s.flights[id].phase.queuedAt))
  {
  }

  /** What a step can make of flight `id`: a new job, the same program point class, a run begun, or an end. */
  predicate FlightMove(s: State, a: Action, id: JobId, flight: Flight) {
    if a.Start? && WillQueue(s, a.key) && id == s.nextId then
      flight == Flight(QueuedJob(s, a.key, a.force, a.backfill), Sending(EntryOf(s, a.key).updatedAt))
    else
      && id in s.flights && flight.job == s.flights[id].job
      && PhaseMove(s, a, id, flight)
  }

  /** The steps that take a job out of its stretch of the program leave it there no longer. */
  predicate FlightExit(s: State, a: Action, id: JobId, flight: Flight)
    requires id in s.flights
  {
      && (a == Finish(id, true) || a == Finish(id, false) ==> !IsLive(flight.phase))
      && (a == Enter(id) ==> !BeforeRun(flight.phase))
      && (a == Check(id) && EntryOf(s, flight.job.key).status != Queued ==> !BeforeRun(flight.phase))
      && (a.CancelAll? ==> !s.flights[id].phase.InChannel?)
  }

  predicate PhaseMove(s: State, a: Action, id: JobId, flight: Flight)
    requires id in s.flights
  {
    || flight == s.flights[id]
    || (BeforeRun(flight.phase) && BeforeRun(s.flights[id].phase) && !flight.phase.Sending?)
    || (InRun(flight.phase) && InRun(s.flights[id].phase) && flight.phase.prev == s.flights[id].phase.prev)
    || (a == Enter(id) && s.flights[id].phase.Checked?
        && flight.job.key in s.progress
        && flight.phase == Entered(s.progress[flight.job.key].updatedAt))
    || !IsLive(flight.phase)
  }

  lemma FlightComesFrom(s: State, a: Action, id: JobId)
    requires Enabled(s, a)
    requires id in NextFlights(s, a)
    ensures FlightMove(s, a, id, NextFlights(s, a)[id]) && !a.Crash?
  {
    if a.Send? || (IsWorkerStep(a) && !a.Release?) {
      OwnStep(s, a);
    } else {
      OtherStep(s, a);
    }
  }

  lemma FlightExits(s: State, a: Action, id: JobId)
    requires Enabled(s, a)
    requires id in NextFlights(s, a) && id in s.flights
    ensures FlightExit(s, a, id, NextFlights(s, a)[id])
  {
  }

  lemma NewEntryIsInactive(s: State, a: Action, k: Key)
    requires Enabled(s, a)
    requires k in NextProgress(s, a) && k !in s.progress
    ensures IsActive(NextProgress(s, a)[k].status) ==>
      a.Start? && a.key == k && WillQueue(s, k) && NextProgress(s, a)[k].status == Queued
  {
  }

  lemma SafeStays(s: State, h: History, a: Action, k: Key, t: Time)
    requires Enabled(s, a) && IsSafe(h, k, t)
    requires a.Rename? ==> k != a.from && k != a.to
    ensures IsSafe(Advance(s, h, a), k, t)
  {
  }

  lemma FinishIsSafe(s: State, h: History, id: JobId, saved: bool)
    requires Enabled(s, Finish(id, saved)) && FlightIsSafe(h, s.flights[id])
    ensures
      IsSafe(Advance(s, h, Finish(id, saved)), s.flights[id].job.key, FinalEntry(s, id).updatedAt)
  {
  }

  lemma RenameIsSafe(s: State, h: History, from: Key, to: Key, t: Time)
    requires Enabled(s, Rename(from, to)) && IsSafe(h, from, t)
    ensures IsSafe(Advance(s, h, Rename(from, to)), to, t)
  {
  }

  lemma KeepsEntrySafe(s: State, h: History, a: Action, k: Key)
    requires WatermarksAreSafe(s, h) && Enabled(s, a)
    requires k in NextProgress(s, a) && NextProgress(s, a)[k].status != Running
    ensures IsSafe(Advance(s, h, a), k, NextProgress(s, a)[k].updatedAt)
  {
    EntryComesFrom(s, a, k);
    var at := NextProgress(s, a)[k].updatedAt;
    if a.Finish? && s.flights[a.id].job.key == k {
      FinishIsSafe(s, h, a.id, a.saved);
    } else if a.Rename? && k == a.to {
      RenameIsSafe(s, h, a.from, a.to, at);
    } else {
      SafeStays(s, h, a, k, at);
    }
  }

  lemma KeepsRowSafe(s: State, h: History, a: Action, k: Key)
    requires WatermarksAreSafe(s, h) && Enabled(s, a)
    requires k in NextRows(s, a)
    ensures IsSafe(Advance(s, h, a), k, NextRows(s, a)[k].at)
  {
    RowComesFrom(s, a, k);
    var at := NextRows(s, a)[k].at;
    if a.Finish? && s.flights[a.id].job.key == k && at == FinalEntry(s, a.id).updatedAt {
      FinishIsSafe(s, h, a.id, a.saved);
    } else if a.Rename? && k == a.to && at != 0 {
      RenameIsSafe(s, h, a.from, a.to, at);
    } else if !(a.Rename? && at == 0) {
      SafeStays(s, h, a, k, at);
    }
  }

  lemma KeepsLateSafe(s: State, h: History, a: Action, id: JobId)
    requires WatermarksAreSafe(s, h) && Enabled(s, a)
    requires a.Rename? ==> forall x | x in s.late :: s.late[x].key != a.from && s.late[x].key != a.to
    requires id in NextLate(s, a)
    ensures IsSafe(Advance(s, h, a), NextLate(s, a)[id].key, NextLate(s, a)[id].at)
  {
    LateComesFrom(s, a, id);
    if a.Send? && id == a.id {
      assert FlightIsSafe(h, s.flights[id]);
    }
    SafeStays(s, h, a, NextLate(s, a)[id].key, NextLate(s, a)[id].at);
  }

  lemma NewJobIsSafe(s: State, h: History, a: Action)
    requires WatermarksAreSafe(s, h) && a.Start? && WillQueue(s, a.key)
    ensures FlightIsSafe(h, Flight(QueuedJob(s, a.key, a.force, a.backfill), Sending(EntryOf(s, a.key).updatedAt)))
  {
  }

  /** A job enters a run of a target that is not running, and no handle it is about is renamed. */
  predicate IsClear(s: State, a: Action, id: JobId)
    requires Enabled(s, a) && id in s.flights
  {
    var key := s.flights[id].job.key;
    && (a == Enter(id) && key in s.progress ==> s.progress[key].status != Running)
    && (a.Rename? && IsLive(s.flights[id].phase) ==> key != a.from && key != a.to)
  }

  lemma StepIsClear(s: State, h: History, a: Action, id: JobId)
    requires StatusesFit(s, h) && Enabled(s, a) && Permitted(s, h, a) && id in s.flights
    ensures IsClear(s, a, id)
  {
    assert StatusFits(s, h, s.flights[id]);
  }

  lemma KeepsFlightSafe(s: State, h: History, a: Action, id: JobId)
    requires WatermarksAreSafe(s, h) && Enabled(s, a) && (id in s.flights ==> IsClear(s, a, id))
    requires id in NextFlights(s, a)
    ensures FlightIsSafe(Advance(s, h, a), NextFlights(s, a)[id])
  {
    FlightComesFrom(s, a, id);
    var flight := NextFlights(s, a)[id];
    if a.Start? && WillQueue(s, a.key) && id == s.nextId {
      NewJobIsSafe(s, h, a);
    } else if IsLive(flight.phase) {
      assert FlightIsSafe(h, s.flights[id]);
      SafeStays(s, h, a, flight.job.key, flight.job.lastSync);
      if flight.phase.Sending? { SafeStays(s, h, a, flight.job.key, flight.phase.queuedAt); }
      if InRun(flight.phase) { SafeStays(s, h, a, flight.job.key, flight.phase.prev); }
    }
  }

  lemma KeepsWatermarks(s: State, h: History, a: Action)
    requires Inv(s, h) && Enabled(s, a) && Permitted(s, h, a)
    ensures WatermarksAreSafe(Apply(s, a), Advance(s, h, a))
  {
    var t, g := Apply(s, a), Advance(s, h, a);
    forall k | k in t.progress && t.progress[k].status != Running ensures IsSafe(g, k, t.progress[k].updatedAt) {
      KeepsEntrySafe(s, h, a, k);
    }
    forall id | id in t.flights ensures FlightIsSafe(g, t.flights[id]) {
      if id in s.flights { StepIsClear(s, h, a, id); }
      KeepsFlightSafe(s, h, a, id);
    }
    forall id | id in t.late ensures IsSafe(g, t.late[id].key, t.late[id].at) {
      KeepsLateSafe(s, h, a, id);
    }
    forall k | k in t.rows ensures IsSafe(g, k, t.rows[k].at) {
      KeepsRowSafe(s, h, a, k);
    }
  }

  // ---------------------------------------------------------------- one job a target

  lemma KeepsOneJob(s: State, h: History, a: Action)
    requires OneJobEach(s) && StatusesFit(s, h) && IdsAreFresh(s) && Enabled(s, a) && Permitted(s, h, a)
    ensures OneJobEach(Apply(s, a))
  {
    var flights := NextFlights(s, a);
    forall i, j | i in flights && j in flights && IsLive(flights[i].phase) && IsLive(flights[j].phase)
      && flights[i].job.key == flights[j].job.key
      ensures i == j
    {
      NotBoth(s, h, a, i, j);
    }
  }

  lemma NotBoth(s: State, h: History, a: Action, i: JobId, j: JobId)
    requires OneJobEach(s) && StatusesFit(s, h) && IdsAreFresh(s) && Enabled(s, a) && Permitted(s, h, a)
    requires i in NextFlights(s, a) && j in NextFlights(s, a)
    requires IsLive(NextFlights(s, a)[i].phase) && IsLive(NextFlights(s, a)[j].phase)
    requires NextFlights(s, a)[i].job.key == NextFlights(s, a)[j].job.key
    ensures i == j
  {
    FlightComesFrom(s, a, i);
    FlightComesFrom(s, a, j);
    if i in s.flights { assert StatusFits(s, h, s.flights[i]); }
    if j in s.flights { assert StatusFits(s, h, s.flights[j]); }
  }

  // ---------------------------------------------------------------- statuses say where the job is

  predicate IsDroppedAfter(s: State, h: History, a: Action, k: Key)
    requires Enabled(s, a)
  {
    && !a.Crash?
    && (k in h.dropped || (a.Cancel? && k in DroppedBy(s, a.platform, a.user)))
    && !(a.Check? && s.flights[a.id].job.key == k && EntryOf(s, k).status != Queued)
    && !(a.Enter? && s.flights[a.id].job.key == k)
    && !(a.CancelAll? && k in ChannelKeys(s))
  }

  lemma DroppedComesFrom(s: State, h: History, a: Action, k: Key)
    requires Enabled(s, a)
    ensures k in Advance(s, h, a).dropped <==> IsDroppedAfter(s, h, a, k)
  {
  }

  /** The status of a target after a step: six kinds of step change it. */
  function StatusAfter(s: State, a: Action, k: Key): Status
    requires Enabled(s, a) && k in s.progress
  {
    if a.Start? && a.key == k && WillQueue(s, k) then Queued
    else if a.Enter? && s.flights[a.id].job.key == k then Running
    else if a.Finish? && s.flights[a.id].job.key == k then FinalEntry(s, a.id).status
    else if a.Cancel? && k in DroppedBy(s, a.platform, a.user) then Idle
    else if a.CancelAll? && k in ChannelKeys(s) && s.progress[k].status == Queued then Idle
    else s.progress[k].status
  }

  lemma StatusOf(s: State, a: Action, k: Key)
    requires Enabled(s, a) && !a.Crash?
    requires k in s.progress && !(a.Rename? && a.from == k)
    ensures k in NextProgress(s, a) && NextProgress(s, a)[k].status == StatusAfter(s, a, k)
  {
  }

  /** Where a job that waits goes. */
  lemma WaiterMoves(s: State, a: Action, id: JobId, k: Key)
    requires Enabled(s, a) && Waits(s.flights, id, k) && id < s.nextId
    ensures
      || Waits(NextFlights(s, a), id, k)
      || (a == Enter(id) && (k in s.progress ==> Runs(NextFlights(s, a), id, k)))
      || (a == Check(id) && EntryOf(s, k).status != Queued)
      || (a.CancelAll? && k in ChannelKeys(s))
      || a.Crash?
  {
  }

  lemma RunnerMoves(s: State, a: Action, id: JobId, k: Key)
    requires Enabled(s, a) && Runs(s.flights, id, k) && id < s.nextId
    ensures Runs(NextFlights(s, a), id, k) || (a.Finish? && a.id == id) || a.Crash?
  {
  }

  lemma NewJobFits(s: State, h: History, a: Action)
    requires a.Start? && WillQueue(s, a.key) && Permitted(s, h, a) && a.key in s.progress
    ensures StatusAfter(s, a, a.key) == Queued && !IsDroppedAfter(s, h, a, a.key)
  {
  }

  /** A step inside the run of a target is a step of its one live job. */
  lemma SameJob(s: State, a: Action, id: JobId)
    requires OneJobEach(s) && Enabled(s, a) && (a.Check? || a.Enter? || a.Finish?)
    requires id in s.flights && IsLive(s.flights[id].phase) && s.flights[a.id].job.key == s.flights[id].job.key
    ensures a.id == id
  {
  }

  /** Of the target of a live job: the steps of other jobs do not set its status. */
  lemma StatusIsItsOwn(s: State, a: Action, id: JobId)
    requires OneJobEach(s) && Enabled(s, a) && id in s.flights && IsLive(s.flights[id].phase)
    requires s.flights[id].job.key in s.progress
    ensures
      var key := s.flights[id].job.key;
      StatusAfter(s, a, key) ==
        if a.Start? && a.key == key && WillQueue(s, key) then Queued
        else if a == Enter(id) then Running
        else if a.Finish? && a.id == id then FinalEntry(s, id).status
        else if a.Cancel? && key in DroppedBy(s, a.platform, a.user) then Idle
        else if a.CancelAll? && key in ChannelKeys(s) && s.progress[key].status == Queued then Idle
        else s.progress[key].status
  {
    if (a.Enter? || a.Finish?) && s.flights[a.id].job.key == s.flights[id].job.key {
      SameJob(s, a, id);
    }
  }

  lemma ChannelIsItsOwn(s: State, id: JobId)
    requires OneJobEach(s) && id in s.flights && IsLive(s.flights[id].phase)
    ensures s.flights[id].job.key in ChannelKeys(s) <==> s.flights[id].phase.InChannel?
  {
    var key := s.flights[id].job.key;
    if key in ChannelKeys(s) {
      var other :| other in InChannelIds(s) && other in s.flights && s.flights[other].job.key == key;
    }
    if s.flights[id].phase.InChannel? {
      assert id in InChannelIds(s);
    }
  }

  lemma DropIsItsOwn(s: State, h: History, a: Action, id: JobId)
    requires OneJobEach(s) && Enabled(s, a) && id in s.flights && IsLive(s.flights[id].phase)
    ensures
      var key := s.flights[id].job.key;
      IsDroppedAfter(s, h, a, key) <==>
        && !a.Crash? && (key in h.dropped || (a.Cancel? && key in DroppedBy(s, a.platform, a.user)))
        && !(a == Check(id) && EntryOf(s, key).status != Queued) && a != Enter(id)
        && !(a.CancelAll? && key in ChannelKeys(s))
  {
    if (a.Check? || a.Enter?) && s.flights[a.id].job.key == s.flights[id].job.key {
      SameJob(s, a, id);
    }
  }

  /** The target of a job that still waits is queued, or inactive while it counts as dropped. */
  lemma WaitingJobFits(s: State, h: History, a: Action, id: JobId, flight: Flight)
    requires OneJobEach(s) && Enabled(s, a) && Permitted(s, h, a) && !a.Crash?
    requires id in s.flights && StatusFits(s, h, s.flights[id]) && BeforeRun(s.flights[id].phase)
    requires FlightExit(s, a, id, flight) && flight.job == s.flights[id].job && BeforeRun(flight.phase)
    ensures flight.job.key in s.progress && !(a.Rename? && a.from == flight.job.key)
    ensures
      if IsDroppedAfter(s, h, a, flight.job.key) then !IsActive(StatusAfter(s, a, flight.job.key))
      else StatusAfter(s, a, flight.job.key) == Queued
  {
    StatusIsItsOwn(s, a, id);
    DropIsItsOwn(s, h, a, id);
    ChannelIsItsOwn(s, id);
  }

  lemma RunningJobFits(s: State, h: History, a: Action, id: JobId, flight: Flight)
    requires OneJobEach(s) && Enabled(s, a) && Permitted(s, h, a) && !a.Crash?
    requires id in s.flights && StatusFits(s, h, s.flights[id]) && IsLive(s.flights[id].phase)
    requires FlightMove(s, a, id, flight) && InRun(flight.phase) && FlightExit(s, a, id, flight)
    ensures flight.job.key in s.progress && !(a.Rename? && a.from == flight.job.key)
    ensures StatusAfter(s, a, flight.job.key) == Running && !IsDroppedAfter(s, h, a, flight.job.key)
  {
    StatusIsItsOwn(s, a, id);
    ChannelIsItsOwn(s, id);
  }

  lemma KeepsStatusFit(s: State, h: History, a: Action, id: JobId)
    requires OneJobEach(s) && StatusesFit(s, h) && Enabled(s, a) && Permitted(s, h, a)
    requires id in NextFlights(s, a)
    ensures EntryFits(NextProgress(s, a), Advance(s, h, a).dropped, NextFlights(s, a)[id])
  {
    var flight := NextFlights(s, a)[id];
    FlightComesFrom(s, a, id);
    if IsLive(flight.phase) {
      LiveJobFits(s, h, a, id, flight);
      DroppedComesFrom(s, h, a, flight.job.key);
      if flight.job.key in s.progress { StatusOf(s, a, flight.job.key); }
    }
  }

  /** The status of a live job's target, new job or old. */
  lemma LiveJobFits(s: State, h: History, a: Action, id: JobId, flight: Flight)
    requires OneJobEach(s) && StatusesFit(s, h) && Enabled(s, a) && Permitted(s, h, a)
    requires id in NextFlights(s, a) && flight == NextFlights(s, a)[id] && IsLive(flight.phase)
    ensures
      var key := flight.job.key;
      if key !in s.progress then a.Start? && WillQueue(s, a.key) && a.key == key && BeforeRun(flight.phase)
      else
        && !(a.Rename? && a.from == key) && !a.Crash?
        && if InRun(flight.phase) then StatusAfter(s, a, key) == Running && !IsDroppedAfter(s, h, a, key)
           else if IsDroppedAfter(s, h, a, key) then !IsActive(StatusAfter(s, a, key))
           else StatusAfter(s, a, key) == Queued
  {
    FlightComesFrom(s, a, id);
    if a.Start? && WillQueue(s, a.key) && id == s.nextId {
      if a.key in s.progress { NewJobFits(s, h, a); }
    } else {
      FlightExits(s, a, id);
      assert StatusFits(s, h, s.flights[id]);
      if InRun(flight.phase) {
        RunningJobFits(s, h, a, id, flight);
      } else {
        WaitingJobFits(s, h, a, id, flight);
      }
    }
  }

  lemma KeepsWaiter(s: State, h: History, a: Action, k: Key) returns (id: JobId)
    requires StatusesMatch(s, h) && IdsAreFresh(s) && Enabled(s, a) && Permitted(s, h, a)
    requires
      || (k in NextProgress(s, a) && NextProgress(s, a)[k].status == Queued)
      || k in Advance(s, h, a).dropped
    ensures Waits(NextFlights(s, a), id, k)
  {
    DroppedComesFrom(s, h, a, k);
    if a.Start? && a.key == k && WillQueue(s, k) {
      id := s.nextId;
    } else {
      WasWaiting(s, h, a, k);
      id :| Waits(s.flights, id, k);
      assert StatusFits(s, h, s.flights[id]);
      WaiterMoves(s, a, id, k);
      WaiterIsNotTaken(s, h, a, id, k);
    }
  }

  /** Unless its job is new, the target had one waiting before. */
  lemma WasWaiting(s: State, h: History, a: Action, k: Key)
    requires StatusesMatch(s, h) && Enabled(s, a) && !(a.Start? && a.key == k && WillQueue(s, k))
    requires (k in NextProgress(s, a) && NextProgress(s, a)[k].status == Queued) || IsDroppedAfter(s, h, a, k)
    ensures (k in s.progress && s.progress[k].status == Queued) || k in h.dropped
  {
    if k in s.progress && !a.Crash? && !(a.Rename? && a.from == k) {
      StatusOf(s, a, k);
    } else if k in NextProgress(s, a) {
      NewEntryIsInactive(s, a, k);
    }
  }

  /** The steps that take a waiting job away leave its target neither queued nor dropped. */
  lemma WaiterIsNotTaken(s: State, h: History, a: Action, id: JobId, k: Key)
    requires StatusesFit(s, h) && Enabled(s, a) && Permitted(s, h, a) && Waits(s.flights, id, k)
    requires (k in NextProgress(s, a) && NextProgress(s, a)[k].status == Queued) || IsDroppedAfter(s, h, a, k)
    ensures !a.Crash? && a != Enter(id) && !(a.CancelAll? && k in ChannelKeys(s))
    ensures !(a == Check(id) && EntryOf(s, k).status != Queued)
  {
    assert StatusFits(s, h, s.flights[id]);
    if !a.Crash? && !(a.Rename? && a.from == k) {
      StatusOf(s, a, k);
    }
  }

  lemma KeepsRunner(s: State, a: Action, k: Key) returns (id: JobId)
    requires RunningIsRun(s) && IdsAreFresh(s) && Enabled(s, a)
    requires k in NextProgress(s, a) && NextProgress(s, a)[k].status == Running
    ensures Runs(NextFlights(s, a), id, k)
  {
    if k in s.progress && !a.Crash? && !(a.Rename? && a.from == k) { StatusOf(s, a, k); }
    else { NewEntryIsInactive(s, a, k); }
    if a.Enter? && s.flights[a.id].job.key == k {
      id := a.id;
    } else {
      id :| Runs(s.flights, id, k);
      RunnerMoves(s, a, id, k);
    }
  }

  lemma KeepsStatuses(s: State, h: History, a: Action)
    requires Inv(s, h) && Enabled(s, a) && Permitted(s, h, a)
    ensures StatusesMatch(Apply(s, a), Advance(s, h, a))
  {
    var t, g := Apply(s, a), Advance(s, h, a);
    forall id | id in t.flights ensures StatusFits(t, g, t.flights[id]) {
      KeepsStatusFit(s, h, a, id);
    }
    forall k | k in t.progress && t.progress[k].status == Queued ensures exists id :: Waits(t.flights, id, k) {
      var id := KeepsWaiter(s, h, a, k);
    }
    forall k | k in t.progress && t.progress[k].status == Running ensures exists id :: Runs(t.flights, id, k) {
      var id := KeepsRunner(s, a, k);
    }
    forall k | k in g.dropped ensures exists id :: Waits(t.flights, id, k) {
      var id := KeepsWaiter(s, h, a, k);
    }
  }

  // ---------------------------------------------------------------- cancels, ids, slots and the lock

  lemma ArmedStays(s: State, a: Action, k: Key, id: JobId)
    requires Enabled(s, a) && CancelFits(s.flights, k, id) && id < s.nextId
    ensures CancelFits(NextFlights(s, a), k, id) || (a.Finish? && a.id == id) || a.Crash?
  {
  }

  lemma KeepsCancelFit(s: State, a: Action, k: Key)
    requires CancelsFit(s) && IdsAreFresh(s) && Enabled(s, a)
    requires k in NextCancels(s, a)
    ensures CancelFits(NextFlights(s, a), k, NextCancels(s, a)[k])
  {
    if k in s.cancels && NextCancels(s, a)[k] == s.cancels[k] {
      ArmedStays(s, a, k, s.cancels[k]);
    }
  }

  lemma KeepsIdFresh(s: State, a: Action, id: JobId)
    requires IdsAreFresh(s) && Enabled(s, a)
    requires id in NextFlights(s, a)
    ensures id < NextNextId(s, a)
  {
  }

  /** A flight keeps the Twitter lock from Begin to Unlock. */
  lemma LockIsKept(s: State, a: Action, id: JobId)
    requires Enabled(s, a) && id in s.flights && HoldsTwitter(s.flights[id]) && id < s.nextId
    requires a != Unlock(id) && !a.Crash?
    ensures id in NextFlights(s, a) && HoldsTwitter(NextFlights(s, a)[id])
  {
    if a.Send? || (IsWorkerStep(a) && !a.Release?) {
      OwnStep(s, a);
    } else {
      OtherStep(s, a);
    }
  }

  lemma LockIsTaken(s: State, a: Action, id: JobId)
    requires Enabled(s, a) && id in NextFlights(s, a) && HoldsTwitter(NextFlights(s, a)[id])
    ensures a == Begin(id) || (id in s.flights && HoldsTwitter(s.flights[id]) && a != Unlock(id) && !a.Crash?)
  {
  }

  lemma LockMoves(s: State, a: Action)
    requires Enabled(s, a)
    ensures NextLock(s, a) ==
      if a.Crash? then None
      else if a.Begin? && s.flights[a.id].job.key.platform == "twitter" then Some(a.id)
      else if a.Unlock? && s.flights[a.id].job.key.platform == "twitter" then None
      else s.twitterLock
  {
  }

  lemma KeepsLockFit(s: State, a: Action, id: JobId)
    requires LockFits(s) && IdsAreFresh(s) && Enabled(s, a)
    requires id in NextFlights(s, a) && HoldsTwitter(NextFlights(s, a)[id])
    ensures NextLock(s, a) == Some(id)
  {
    LockIsTaken(s, a, id);
    LockMoves(s, a);
    if a == Begin(id) {
      BegunHoldsLock(s, id);
    }
  }

  lemma BegunHoldsLock(s: State, id: JobId)
    requires Enabled(s, Begin(id))
    ensures id in NextFlights(s, Begin(id))
    ensures HoldsTwitter(NextFlights(s, Begin(id))[id]) <==> s.flights[id].job.key.platform == "twitter"
  {
  }

  lemma KeepsLockHolder(s: State, a: Action)
    requires LockFits(s) && IdsAreFresh(s) && Enabled(s, a) && NextLock(s, a).Some?
    ensures NextLock(s, a).value in NextFlights(s, a) && HoldsTwitter(NextFlights(s, a)[NextLock(s, a).value])
  {
    LockMoves(s, a);
    if a.Begin? && s.flights[a.id].job.key.platform == "twitter" {
      BegunHoldsLock(s, a.id);
    } else {
      LockIsKept(s, a, s.twitterLock.value);
    }
  }

  lemma KeepsResyncSaved(s: State, a: Action)
    requires s.fullResync == s.savedResync && Enabled(s, a)
    ensures NextResync(s, a) == NextSavedResync(s, a)
  {
  }

  /** A step of a job's own goroutine: what it does to the job's slot and worker. */
  lemma OwnStep(s: State, a: Action)
    requires Enabled(s, a) && (a.Send? || (IsWorkerStep(a) && !a.Release?))
    ensures NextFlights(s, a) == s.flights[a.id := Flight(s.flights[a.id].job, NextPhase(s, a))]
    ensures HoldsSlot(NextPhase(s, a)) <==> HoldsSlot(s.flights[a.id].phase) || a.Acquire?
    ensures HeldByWorker(NextPhase(s, a)) <==> HeldByWorker(s.flights[a.id].phase) || a.Receive?
  {
  }

  lemma OtherStep(s: State, a: Action)
    requires Enabled(s, a) && !a.Send? && !(IsWorkerStep(a) && !a.Release?)
    ensures a.Crash? ==> NextFlights(s, a) == map[]
    ensures a.Release? ==> NextFlights(s, a) == s.flights - {a.id}
    ensures a.CancelAll? ==> NextFlights(s, a) == s.flights - InChannelIds(s)
    ensures a.Start? && WillQueue(s, a.key) ==>
      exists job, at :: NextFlights(s, a) == s.flights[s.nextId := Flight(job, Sending(at))]
    ensures !a.Crash? && !a.Release? && !a.CancelAll? && !(a.Start? && WillQueue(s, a.key)) ==>
      NextFlights(s, a) == s.flights
  {
    if a.Start? && WillQueue(s, a.key) {
      var job, at := QueuedJob(s, a.key, a.force, a.backfill), EntryOf(s, a.key).updatedAt;
      assert NextFlights(s, a) == s.flights[s.nextId := Flight(job, Sending(at))];
    }
  }

  lemma ActiveMoves(s: State, h: History, a: Action)
    requires Enabled(s, a)
    ensures NextActive(s, a) ==
      if a.Crash? then 0 else s.active + (if a.Acquire? then 1 else 0) - (if a.Release? then 1 else 0)
    ensures NextLimit(s, a) == if a.SetLimit? then a.limit else s.limit
    ensures a.SetLimit? ==> Advance(s, h, a).peak >= a.limit
    ensures Advance(s, h, a).peak >= h.peak
  {
  }

  lemma HoldersMove(s: State, a: Action)
    requires IdsAreFresh(s) && Enabled(s, a)
    ensures SlottedIn(NextFlights(s, a)) ==
      if a.Crash? then {} else if a.Acquire? then SlotHolders(s) + {a.id}
      else if a.Release? then SlotHolders(s) - {a.id} else SlotHolders(s)
  {
    if a.Send? || (IsWorkerStep(a) && !a.Release?) {
      OwnStep(s, a);
      SlotOf(s.flights, a.id, Flight(s.flights[a.id].job, NextPhase(s, a)));
    } else {
      OtherStep(s, a);
      if a.Start? && WillQueue(s, a.key) {
        assert s.nextId !in s.flights;
      }
    }
  }

  lemma SlotOf(flights: map<JobId, Flight>, id: JobId, flight: Flight)
    ensures SlottedIn(flights[id := flight]) ==
      if HoldsSlot(flight.phase) then SlottedIn(flights) + {id} else SlottedIn(flights) - {id}
    ensures HeldIn(flights[id := flight]) ==
      if HeldByWorker(flight.phase) then HeldIn(flights) + {id} else HeldIn(flights) - {id}
  {
  }

  lemma WorkersMove(s: State, a: Action)
    requires IdsAreFresh(s) && Enabled(s, a)
    ensures HeldIn(NextFlights(s, a)) ==
      if a.Crash? then {} else if a.Receive? then WorkerHeld(s) + {a.id}
      else if a.Release? then WorkerHeld(s) - {a.id} else WorkerHeld(s)
  {
    if a.Send? || (IsWorkerStep(a) && !a.Release?) {
      OwnStep(s, a);
      SlotOf(s.flights, a.id, Flight(s.flights[a.id].job, NextPhase(s, a)));
    } else {
      OtherStep(s, a);
      if a.Start? && WillQueue(s, a.key) {
        assert s.nextId !in s.flights;
      }
    }
  }

  lemma KeepsSlots(s: State, h: History, a: Action)
    requires SlotsAdd(s, h) && IdsAreFresh(s) && Enabled(s, a)
    ensures SlotsAdd(Apply(s, a), Advance(s, h, a))
  {
    HoldersMove(s, a);
    WorkersMove(s, a);
    ActiveMoves(s, h, a);
  }

  // ---------------------------------------------------------------- whole runs

  predicate IsStep(s: State, h: History, a: Action, t: State, g: History) {
    Enabled(s, a) && Permitted(s, h, a) && t == Apply(s, a) && g == Advance(s, h, a)
  }

  /** A run from a fresh process: each action is a step the hypothesis permits, crashes included. */
  ghost predicate IsRun(states: seq<State>, histories: seq<History>, actions: seq<Action>) {
    && |states| == |histories| == |actions| + 1
    && Init(states[0], histories[0])
    && forall i | 0 <= i < |actions| ::
         IsStep(states[i], histories[i], actions[i], states[i + 1], histories[i + 1])
  }

  lemma Preserved(s: State, h: History, a: Action)
    requires Inv(s, h) && Enabled(s, a) && Permitted(s, h, a)
    ensures Inv(Apply(s, a), Advance(s, h, a))
  {
    KeepsWatermarks(s, h, a);
    KeepsOneJob(s, h, a);
    KeepsStatuses(s, h, a);
    KeepsSlots(s, h, a);
    if NextLock(s, a).Some? { KeepsLockHolder(s, a); }
    KeepsResyncSaved(s, a);
    var t := Apply(s, a);
    forall k | k in t.cancels ensures CancelFits(t.flights, k, t.cancels[k]) { KeepsCancelFit(s, a, k); }
    forall id | id in t.flights ensures id < t.nextId { KeepsIdFresh(s, a, id); }
    forall id | id in t.flights && HoldsTwitter(t.flights[id]) ensures t.twitterLock == Some(id) {
      KeepsLockFit(s, a, id);
    }
  }
}
