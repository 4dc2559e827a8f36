/**
 The state the orchestrator shares between its goroutines, as a step system.

 One step is one stretch of code that no other goroutine can split: a section under `mu`, one channel
 operation, one row write, one scrape returning. A `Flight` is a scrapeJob from the StartScrape section that
 made it to the releaseSlot that ends it, and its `Phase` is the program point of the goroutine that holds it.
 The channel hands out its jobs in any order, which covers every interleaving of workers with the drain loop of
 CancelAll.
 */
module Protocol {
  import opened Basics

  /** An instant; 0 is Go's zero time, and the clock only moves forward. */
  type Time = nat
  type JobId = nat

  /** A scrape target. The user part is already lower-cased, as taskKey does. */
  datatype Key = Key(platform: string, user: string)

  datatype Status = Idle | Queued | Running | Completed | Failed

  predicate IsActive(status: Status) {
    status == Queued || status == Running
  }

  /** The in-memory watermark of a target, with its status. */
  datatype Entry = Entry(status: Status, updatedAt: Time)

  /** The stored sync columns of an account row. */
  datatype Row = Row(status: Status, at: Time)

  datatype Job = Job(key: Key, lastSync: Time, forced: bool)

  /** What a scrape function returned; `auth` marks an expired session. */
  datatype Outcome = Success | Failure(auth: bool)

  datatype Phase =
    | Sending(queuedAt: Time)                            // StartScrape is blocked on the channel send
    | InChannel
    | Waiting                                            // a worker received it and wants a slot
    | Slotted                                            // slot taken, status not re-checked yet
    | Checked                                            // the re-check saw "queued"
    | Entered(prev: Time)                                // runScrape set "running"
    | Marked(prev: Time)                                 // the row write of "running" was attempted
    | Armed(prev: Time)                                  // its cancel function is registered
    | Stamped(prev: Time, start: Time)                   // scrapeStart was read
    | Scraping(prev: Time, start: Time)                  // inside the scrape function
    | Returned(prev: Time, start: Time, outcome: Outcome)
    | Settling(prev: Time, start: Time, outcome: Outcome) // past the circuit breaker
    | Finished                                           // result published, runScrape not returned yet
    | Leaving                                            // runScrape returned or was skipped, slot still held

  datatype Flight = Flight(job: Job, phase: Phase)

  /** A StartScrape call that sent its job and has yet to write the "queued" row. */
  datatype LateWrite = LateWrite(key: Key, at: Time)

  datatype State = State(
    now: Time,
    progress: map<Key, Entry>,
    cancels: map<Key, JobId>,
    blockUntil: map<string, Time>,
    fullResync: set<Key>,
    flights: map<JobId, Flight>,
    late: map<JobId, LateWrite>,
    firing: set<JobId>,          // cancel functions CancelScrape collected and has yet to call
    cancelled: set<JobId>,       // runs whose context is cancelled
    nextId: JobId,
    active: int,
    limit: nat,
    twitterLock: Option<JobId>,
    rows: map<Key, Row>,
    savedResync: set<Key>)

  const MAX_SCRAPE_WORKERS := 8
  const JOB_CHANNEL_SIZE := 100
  const BREAKER_PAUSE: Time := 6 * 60 * 60 * 1_000_000_000

  predicate BeforeRun(phase: Phase) {
    phase.Sending? || phase.InChannel? || phase.Waiting? || phase.Slotted? || phase.Checked?
  }

  /** Until the job's result is published, or it is skipped. */
  predicate IsLive(phase: Phase) {
    !phase.Finished? && !phase.Leaving?
  }

  /** Between runScrape's first and last section under `mu`. */
  predicate InRun(phase: Phase) {
    IsLive(phase) && !BeforeRun(phase)
  }

  predicate HeldByWorker(phase: Phase) {
    !phase.Sending? && !phase.InChannel?
  }

  predicate HoldsSlot(phase: Phase) {
    HeldByWorker(phase) && !phase.Waiting?
  }

  /** The program points between twitterMu.Lock and the deferred Unlock. */
  predicate HoldsTwitter(flight: Flight) {
    && flight.job.key.platform == "twitter"
    && (flight.phase.Scraping? || flight.phase.Returned? || flight.phase.Settling? || flight.phase.Finished?)
  }

  function InChannelIds(s: State): set<JobId> {
    set id | id in s.flights && s.flights[id].phase.InChannel?
  }

  function HeldIn(flights: map<JobId, Flight>): set<JobId> {
    set id | id in flights && HeldByWorker(flights[id].phase)
  }

  function SlottedIn(flights: map<JobId, Flight>): set<JobId> {
    set id | id in flights && HoldsSlot(flights[id].phase)
  }

  function WorkerHeld(s: State): set<JobId> {
    HeldIn(s.flights)
  }

  function SlotHolders(s: State): set<JobId> {
    SlottedIn(s.flights)
  }

  // ---------------------------------------------------------------- steps

  datatype Action =
    | Tick(t: Time)
    | AddAccount(key: Key)
    | SyncTargets(accounts: set<Key>, unreadable: set<Key>, unwritable: set<Key>)
    | Start(key: Key, force: bool, backfill: bool)
    | Send(id: JobId)
    | WriteQueued(id: JobId, saved: bool)
    | Receive(id: JobId)
    | Acquire(id: JobId)
    | Check(id: JobId)
    | Enter(id: JobId)
    | Mark(id: JobId, saved: bool)
    | Arm(id: JobId)
    | Stamp(id: JobId)
    | Begin(id: JobId)
    | Return(id: JobId, outcome: Outcome)
    | Trip(id: JobId)
    | Finish(id: JobId, saved: bool)
    | Unlock(id: JobId)
    | Release(id: JobId)
    | Log(platform: string, user: string)
    | Cancel(platform: string, user: string, unwritable: set<Key>)
    | Fire(id: JobId)
    | CancelAll
    | RequestResync(key: Key)
    | Rename(from: Key, to: Key)
    | ResetBlocks
    | SetLimit(limit: nat)
    | ClearTarget(key: Key, saved: bool)
    | Crash

  /** The steps of the worker that holds a job. */
  predicate IsWorkerStep(a: Action) {
    a.Receive? || a.Acquire? || a.Check? || a.Enter? || a.Mark? || a.Arm? || a.Stamp? || a.Begin? || a.Return?
    || a.Trip? || a.Finish? || a.Unlock? || a.Release?
  }

  /** When the goroutine that would take the step can take it. */
  predicate Enabled(s: State, a: Action) {
    match a
    case Tick(t) => s.now <= t
    case AddAccount(key) => key !in s.rows
    case SyncTargets(accounts, _, _) => s.progress.Keys <= accounts
    case Start(_, _, _) => true
    case Send(id) => id in s.flights && s.flights[id].phase.Sending? && |InChannelIds(s)| < JOB_CHANNEL_SIZE
    case WriteQueued(id, _) => id in s.late
    case Receive(id) => id in s.flights && s.flights[id].phase.InChannel? && |WorkerHeld(s)| < MAX_SCRAPE_WORKERS
    case Acquire(id) => id in s.flights && s.flights[id].phase.Waiting? && s.active < s.limit
    case Check(id) => id in s.flights && s.flights[id].phase.Slotted?
    case Enter(id) => id in s.flights && s.flights[id].phase.Checked?
    case Mark(id, _) => id in s.flights && s.flights[id].phase.Entered?
    case Arm(id) => id in s.flights && s.flights[id].phase.Marked?
    case Stamp(id) => id in s.flights && s.flights[id].phase.Armed?
    case Begin(id) =>
      && id in s.flights && s.flights[id].phase.Stamped?
      && (s.flights[id].job.key.platform == "twitter" ==> s.twitterLock.None?)
    case Return(id, _) => id in s.flights && s.flights[id].phase.Scraping?
    case Trip(id) => id in s.flights && s.flights[id].phase.Returned?
    case Finish(id, _) => id in s.flights && s.flights[id].phase.Settling?
    case Unlock(id) => id in s.flights && s.flights[id].phase.Finished?
    case Release(id) => id in s.flights && s.flights[id].phase.Leaving?
    case Log(_, _) => true
    case Cancel(_, _, _) => true
    case Fire(id) => id in s.firing
    case CancelAll => true
    case RequestResync(_) => true
    case Rename(from, to) =>
      && from != to && from.platform == to.platform
      && from in s.progress && !IsActive(s.progress[from].status)
      && to !in s.progress && to !in s.rows
    case ResetBlocks => true
    case SetLimit(limit) => 0 < limit
    case ClearTarget(_, _) => true
    case Crash => true
  }

  // Each field, with the steps that change it.

  /** SetSyncInfo: updates an existing row, never inserts; `saved` is false when the statement failed. */
  function Save(rows: map<Key, Row>, key: Key, status: Status, at: Time, saved: bool): map<Key, Row> {
    if saved && key in rows then rows[key := Row(status, at)] else rows
  }

  function EntryOf(s: State, key: Key): Entry {
    if key in s.progress then s.progress[key] else Entry(Idle, 0)
  }

  function LoadEntry(s: State, key: Key, unreadable: set<Key>): Entry {
    if key in unreadable || key !in s.rows then Entry(Idle, 0)
    else Entry(if IsActive(s.rows[key].status) then Idle else s.rows[key].status, s.rows[key].at)
  }

  function LoadAll(s: State, accounts: set<Key>, unreadable: set<Key>): map<Key, Entry> {
    map k | k in accounts ::
      if k in s.progress then s.progress[k] else LoadEntry(s, k, unreadable)
  }

  /** A row left "running" or "queued" by an earlier process. */
  predicate IsStale(s: State, key: Key, accounts: set<Key>, unreadable: set<Key>, unwritable: set<Key>) {
    && key in accounts && key !in s.progress
    && key !in unreadable && key !in unwritable
    && key in s.rows && IsActive(s.rows[key].status)
  }

  function ResetStale(s: State, accounts: set<Key>, unreadable: set<Key>, unwritable: set<Key>): map<Key, Row> {
    map k | k in s.rows.Keys ::
      if IsStale(s, k, accounts, unreadable, unwritable) then s.rows[k].(status := Idle) else s.rows[k]
  }

  function BlockedUntil(s: State, platform: string): Time {
    if platform in s.blockUntil then s.blockUntil[platform] else 0
  }

  /** Whether StartScrape gets past its two early returns. */
  predicate WillQueue(s: State, key: Key) {
    !IsActive(EntryOf(s, key).status) && BlockedUntil(s, key.platform) <= s.now
  }

  function QueuedJob(s: State, key: Key, force: bool, backfill: bool): Job {
    var forced := force || key in s.fullResync || backfill;
    Job(key, if forced then 0 else EntryOf(s, key).updatedAt, forced)
  }

  predicate TripsBreaker(platform: string, outcome: Outcome) {
    (platform == "instagram" || platform == "twitter") && outcome.Failure? && outcome.auth
  }

  /** The entry runScrape publishes: the start on success, the old watermark otherwise. */
  function FinalEntry(s: State, id: JobId): Entry
    requires id in s.flights && s.flights[id].phase.Settling?
  {
    var Settling(prev, start, outcome) := s.flights[id].phase;
    if outcome.Success? then Entry(Completed, start)
    else if id in s.cancelled then Entry(Idle, prev)
    else Entry(Failed, prev)
  }

  /** A forced run that succeeded takes its target's full-resync mark along. */
  predicate ClearsMark(s: State, id: JobId)
    requires id in s.flights && s.flights[id].phase.Settling?
  {
    && s.flights[id].phase.outcome.Success? && s.flights[id].job.forced
    && s.flights[id].job.key in s.fullResync
  }

  predicate IsNamed(key: Key, platform: string, user: string) {
    key.user == user && (platform == "" || key.platform == platform)
  }

  /** AppendTaskLog overwrites the time of every running target it names. */
  function Logged(s: State, platform: string, user: string): map<Key, Entry> {
    map k | k in s.progress.Keys ::
      if IsNamed(k, platform, user) && s.progress[k].status == Running then s.progress[k].(updatedAt := s.now)
      else s.progress[k]
  }

  function Named(s: State, among: set<Key>, platform: string, user: string): set<Key> {
    set k | k in among && k in s.progress.Keys && IsNamed(k, platform, user)
  }

  function Dequeue(s: State, keys: set<Key>): map<Key, Entry> {
    map k | k in s.progress.Keys ::
      if k in keys && s.progress[k].status == Queued then s.progress[k].(status := Idle) else s.progress[k]
  }

  function DequeueRows(s: State, keys: set<Key>): map<Key, Row> {
    map k | k in s.rows.Keys ::
      if k in keys && k in s.progress && s.progress[k].status == Queued then Row(Idle, s.progress[k].updatedAt)
      else s.rows[k]
  }

  function CancelsOf(s: State, keys: set<Key>): set<JobId> {
    set k | k in s.cancels.Keys && k in keys :: s.cancels[k]
  }

  function KeysOf(s: State, ids: set<JobId>): set<Key> {
    set id | id in ids && id in s.flights :: s.flights[id].job.key
  }

  function ChannelKeys(s: State): set<Key> {
    KeysOf(s, InChannelIds(s))
  }

  function Rekey<V>(m: map<Key, V>, from: Key, to: Key): map<Key, V> {
    if from in m then (m - {from})[to := m[from]] else m
  }

  function NextProgress(s: State, a: Action): map<Key, Entry>
    requires Enabled(s, a)
  {
    match a
    case SyncTargets(accounts, unreadable, _) => LoadAll(s, accounts, unreadable)
    case Start(key, _, _) =>
      s.progress[key := if WillQueue(s, key) then EntryOf(s, key).(status := Queued) else EntryOf(s, key)]
    case Enter(id) =>
      var key := s.flights[id].job.key;
      if key in s.progress then s.progress[key := s.progress[key].(status := Running)] else s.progress
    case Finish(id, _) => s.progress[s.flights[id].job.key := FinalEntry(s, id)]
    case Log(platform, user) => Logged(s, platform, user)
    case Cancel(platform, user, _) => Dequeue(s, Named(s, s.progress.Keys, platform, user))
    case CancelAll => Dequeue(s, ChannelKeys(s))
    case Rename(from, to) => Rekey(s.progress, from, to)
    case Crash => map[]
    case _ => s.progress
  }

  function NextCancels(s: State, a: Action): map<Key, JobId>
    requires Enabled(s, a)
  {
    match a
    case Arm(id) => s.cancels[s.flights[id].job.key := id]
    case Finish(id, _) => s.cancels - {s.flights[id].job.key}
    case Cancel(platform, user, _) => s.cancels - Named(s, s.progress.Keys, platform, user)
    case CancelAll => map[]
    case Crash => map[]
    case _ => s.cancels
  }

  function NextBlocks(s: State, a: Action): map<string, Time>
    requires Enabled(s, a)
  {
    match a
    case Trip(id) =>
      var platform := s.flights[id].job.key.platform;
      if TripsBreaker(platform, s.flights[id].phase.outcome) then s.blockUntil[platform := s.now + BREAKER_PAUSE]
      else s.blockUntil
    case ResetBlocks => map[]
    case Crash => map[]
    case _ => s.blockUntil
  }

  function NextResync(s: State, a: Action): set<Key>
    requires Enabled(s, a)
  {
    match a
    case Finish(id, _) => if ClearsMark(s, id) then s.fullResync - {s.flights[id].job.key} else s.fullResync
    case RequestResync(key) => s.fullResync + {key}
    case Rename(from, to) => if from in s.fullResync then s.fullResync - {from} + {to} else s.fullResync
    case Crash => s.savedResync // loadFullResync
    case _ => s.fullResync
  }

  /** saveFullResyncLocked runs exactly where the marks change. */
  function NextSavedResync(s: State, a: Action): set<Key>
    requires Enabled(s, a)
  {
    match a
    case Finish(id, _) => if ClearsMark(s, id) then NextResync(s, a) else s.savedResync
    case RequestResync(_) => NextResync(s, a)
    case Rename(from, _) => if from in s.fullResync then NextResync(s, a) else s.savedResync
    case _ => s.savedResync
  }

  /** Where a step leaves the job it is about. */
  function NextPhase(s: State, a: Action): Phase
    requires Enabled(s, a) && (a.Send? || (IsWorkerStep(a) && !a.Release?))
  {
    var Flight(job, phase) := s.flights[a.id];
    match a
    case Send(_) => InChannel
    case Receive(_) => Waiting
    case Acquire(_) => Slotted
    case Check(_) => if EntryOf(s, job.key).status == Queued then Checked else Leaving
    case Enter(_) => if job.key in s.progress then Entered(s.progress[job.key].updatedAt) else Leaving
    case Mark(_, _) => Marked(phase.prev)
    case Arm(_) => Armed(phase.prev)
    case Stamp(_) => Stamped(phase.prev, s.now)
    case Begin(_) => Scraping(phase.prev, phase.start)
    case Return(_, outcome) => Returned(phase.prev, phase.start, outcome)
    case Trip(_) => Settling(phase.prev, phase.start, phase.outcome)
    case Finish(_, _) => Finished
    case _ => Leaving // Unlock
  }

  function NextFlights(s: State, a: Action): map<JobId, Flight>
    requires Enabled(s, a)
  {
    if a.Send? || (IsWorkerStep(a) && !a.Release?) then
      s.flights[a.id := Flight(s.flights[a.id].job, NextPhase(s, a))]
    else
      match a
      case Start(key, force, backfill) =>
        if WillQueue(s, key) then
          s.flights[s.nextId := Flight(QueuedJob(s, key, force, backfill), Sending(EntryOf(s, key).updatedAt))]
        else s.flights
      case Release(id) => s.flights - {id}
      case CancelAll => s.flights - InChannelIds(s)
      case Crash => map[]
      case _ => s.flights
  }

  function NextLate(s: State, a: Action): map<JobId, LateWrite>
    requires Enabled(s, a)
  {
    match a
    case Send(id) => s.late[id := LateWrite(s.flights[id].job.key, s.flights[id].phase.queuedAt)]
    case WriteQueued(id, _) => s.late - {id}
    case Crash => map[]
    case _ => s.late
  }

  function NextFiring(s: State, a: Action): set<JobId>
    requires Enabled(s, a)
  {
    match a
    case Cancel(platform, user, _) => s.firing + CancelsOf(s, Named(s, s.progress.Keys, platform, user))
    case Fire(id) => s.firing - {id}
    case Crash => {}
    case _ => s.firing
  }

  function NextCancelled(s: State, a: Action): set<JobId>
    requires Enabled(s, a)
  {
    match a
    case Fire(id) => s.cancelled + {id}
    case CancelAll => s.cancelled + s.cancels.Values
    case Crash => {}
    case _ => s.cancelled
  }

  function NextLock(s: State, a: Action): Option<JobId>
    requires Enabled(s, a)
  {
    match a
    case Begin(id) => if s.flights[id].job.key.platform == "twitter" then Some(id) else s.twitterLock
    case Unlock(id) => if s.flights[id].job.key.platform == "twitter" then None else s.twitterLock
    case Crash => None
    case _ => s.twitterLock
  }

  function NextRows(s: State, a: Action): map<Key, Row>
    requires Enabled(s, a)
  {
    match a
    case AddAccount(key) => s.rows[key := Row(Idle, 0)]
    case SyncTargets(accounts, unreadable, unwritable) => ResetStale(s, accounts, unreadable, unwritable)
    case WriteQueued(id, saved) => Save(s.rows, s.late[id].key, Queued, s.late[id].at, saved)
    case Mark(id, saved) => Save(s.rows, s.flights[id].job.key, Running, s.flights[id].phase.prev, saved)
    case Finish(id, saved) =>
      Save(s.rows, s.flights[id].job.key, FinalEntry(s, id).status, FinalEntry(s, id).updatedAt, saved)
    case Cancel(platform, user, unwritable) =>
      DequeueRows(s, Named(s, s.progress.Keys, platform, user) - unwritable)
    case Rename(from, to) => Rekey(s.rows, from, to)
    case ClearTarget(key, saved) => Save(s.rows, key, Idle, 0, saved)
    case _ => s.rows
  }

  function NextNow(s: State, a: Action): Time {
    if a.Tick? then a.t else s.now
  }

  function NextNextId(s: State, a: Action): JobId {
    if a.Start? && WillQueue(s, a.key) then s.nextId + 1 else s.nextId
  }

  function NextActive(s: State, a: Action): int {
    if a.Acquire? then s.active + 1 else if a.Release? then s.active - 1 else if a.Crash? then 0 else s.active
  }

  function NextLimit(s: State, a: Action): nat {
    if a.SetLimit? then a.limit else s.limit
  }

  function Apply(s: State, a: Action): State
    requires Enabled(s, a)
  {
    State(NextNow(s, a), NextProgress(s, a), NextCancels(s, a), NextBlocks(s, a), NextResync(s, a),
          NextFlights(s, a), NextLate(s, a), NextFiring(s, a), NextCancelled(s, a), NextNextId(s, a),
          NextActive(s, a), NextLimit(s, a), NextLock(s, a), NextRows(s, a), NextSavedResync(s, a))
  }
}
