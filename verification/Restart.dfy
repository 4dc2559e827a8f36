/**
 Why the runs of `Safety` do not restart a target whose cancelled job still waits: such a restart can leak a watermark,
 although no scrape of the target succeeds, and no other start can. With a limit of one no start can.
 */
module Restart {
  import opened Basics
  import opened Protocol
  import opened Invariants
  import opened Drain

  function Play(s: State, actions: seq<Action>): Option<State>
    decreases |actions|
  {
    if actions == [] then Some(s)
    else if !Enabled(s, actions[0]) then None
    else Play(Apply(s, actions[0]), actions[1..])
  }

  lemma {:induction false} PlayBoth(s: State, a: seq<Action>, b: seq<Action>)
    requires Play(s, a).Some?
    ensures Play(s, a + b) == Play(Play(s, a).value, b)
    decreases |a|
  {
    if a == [] {
      assert a + b == b;
    } else {
      assert (a + b)[1..] == a[1..] + b;
      PlayBoth(Apply(s, a[0]), a[1..], b);
    }
  }

  lemma PlayFirst(s: State, a: Action, rest: seq<Action>)
    requires Enabled(s, a)
    ensures Play(s, [a] + rest) == Play(Apply(s, a), rest)
  {
    assert ([a] + rest)[1..] == rest;
  }

  /** Steps of jobs up to the row write of "running", log lines and time: no scrape begins or ends. */
  predicate IsQuiet(a: Action) {
    a.Tick? || a.Log? || a.Send? || a.Receive? || a.Acquire? || a.Check? || a.Enter? || a.Mark?
  }

  predicate AreQuiet(actions: seq<Action>) {
    forall a | a in actions :: IsQuiet(a)
  }

  // ---------------------------------------------------------------- a waiting job gets past the re-check

  /** The same state but for one job at another point, the late writes and the slots taken. */
  predicate IsMoved(s: State, id: JobId, t: State, phase: Phase)
    requires id in s.flights
  {
    && t == s.(flights := s.flights[id := Flight(s.flights[id].job, phase)], late := t.late, active := t.active)
    && t.active == s.active + (if HoldsSlot(phase) then 1 else 0) - (if HoldsSlot(s.flights[id].phase) then 1 else 0)
  }

  lemma NearerToCheck(s: State, k: Key, id: JobId)
    requires Waits(s.flights, id, k) && !s.flights[id].phase.Checked?
    requires k in s.progress && s.progress[k].status == Queued && CanRun(s, id)
    ensures
      var a := NextOf(s.flights[id].phase, id);
      && Enabled(s, a) && NextPhase(s, a) == Apply(s, a).flights[id].phase
      && IsMoved(s, id, Apply(s, a), NextPhase(s, a))
      && BeforeRun(NextPhase(s, a)) && StepsLeft(NextPhase(s, a)) == StepsLeft(s.flights[id].phase) - 1
  {
  }

  lemma StillProceeds(s: State, id: JobId, t: State, phase: Phase)
    requires id in s.flights && BeforeRun(s.flights[id].phase) && BeforeRun(phase) && IsMoved(s, id, t, phase)
    requires StepsLeft(phase) < StepsLeft(s.flights[id].phase) && CanRun(s, id)
    requires HeldByWorker(s.flights[id].phase) ==> HeldByWorker(phase)
    ensures CanRun(t, id)
  {
    SlotOf(s.flights, id, Flight(s.flights[id].job, phase));
  }

  lemma {:induction false} GetsReady(s: State, k: Key, id: JobId) returns (steps: seq<Action>, t: State)
    requires Waits(s.flights, id, k) && k in s.progress && s.progress[k].status == Queued && CanRun(s, id)
    ensures AreQuiet(steps) && Play(s, steps) == Some(t) && IsMoved(s, id, t, Checked)
    decreases StepsLeft(s.flights[id].phase)
  {
    if s.flights[id].phase.Checked? {
      steps, t := [], s;
      assert s.flights[id := Flight(s.flights[id].job, Checked)] == s.flights;
    } else {
      var a := NextOf(s.flights[id].phase, id);
      var u := Apply(s, a);
      NearerToCheck(s, k, id);
      StillProceeds(s, id, u, NextPhase(s, a));
      var rest;
      rest, t := GetsReady(u, k, id);
      steps := [a] + rest;
      PlayFirst(s, a, rest);
      assert s.flights[id := u.flights[id]][id := Flight(s.flights[id].job, Checked)]
          == s.flights[id := Flight(s.flights[id].job, Checked)];
    }
  }

  // ---------------------------------------------------------------- two jobs past the re-check

  /** There is room for `n` more jobs. */
  predicate HasRoom(s: State, n: nat) {
    && |InChannelIds(s)| < JOB_CHANNEL_SIZE && |WorkerHeld(s)| + n <= MAX_SCRAPE_WORKERS && s.active + n <= s.limit
    && s.twitterLock.None?
  }

  lemma RoomLeft(s: State, id: JobId, t: State, n: nat)
    requires id in s.flights && BeforeRun(s.flights[id].phase) && IsMoved(s, id, t, Checked) && HasRoom(s, n + 1)
    ensures HasRoom(t, n)
  {
    SlotOf(s.flights, id, Flight(s.flights[id].job, Checked));
    assert InChannelIds(t) == InChannelIds(s) - {id};
  }

  predicate IsReady(s: State, k: Key, i: JobId, j: JobId) {
    && i != j && i in s.flights && j in s.flights
    && s.flights[i].phase.Checked? && s.flights[j].phase.Checked?
    && s.flights[i].job.key == s.flights[j].job.key == k
  }

  lemma EnteredAndLogged(s: State, k: Key, i: JobId, j: JobId)
    requires IsReady(s, k, i, j) && k in s.progress && k in s.rows
    ensures Enabled(s, Enter(i))
    ensures
      var t := Apply(Apply(s, Enter(i)), Log(k.platform, k.user));
      && j in t.flights && t.flights[j] == s.flights[j] && k in t.progress && t.progress[k].updatedAt == s.now
      && t.rows == s.rows
  {
    assert Apply(s, Enter(i)).progress[k].status == Running;
  }

  lemma EnteredAndMarked(s: State, k: Key, j: JobId)
    requires j in s.flights && s.flights[j].phase.Checked? && s.flights[j].job.key == k
    requires k in s.progress && k in s.rows
    ensures StoresTime(s, [Enter(j), Mark(j, true)], k, s.progress[k].updatedAt)
  {
    var t := Apply(s, Enter(j));
    assert t.flights[j].phase == Entered(s.progress[k].updatedAt) && t.rows == s.rows;
    var u := Apply(t, Mark(j, true));
    assert u.rows == s.rows[k := Row(Running, s.progress[k].updatedAt)];
    assert Play(u, []) == Some(u);
    StoresBefore(s, Enter(j), Mark(j, true), [], k, s.progress[k].updatedAt);
    assert [Enter(j), Mark(j, true)] + [] == [Enter(j), Mark(j, true)];
  }

  /** The first job sets "running", a log line moves the time, and the second job takes that time for the watermark. */
  lemma SecondWritesTheLogTime(s: State, k: Key, i: JobId, j: JobId) returns (steps: seq<Action>)
    requires IsReady(s, k, i, j) && k in s.progress && k in s.rows
    ensures AreQuiet(steps) && StoresTime(s, steps, k, s.now)
  {
    EnteredAndLogged(s, k, i, j);
    var t := Apply(Apply(s, Enter(i)), Log(k.platform, k.user));
    EnteredAndMarked(t, k, j);
    steps := [Enter(i), Log(k.platform, k.user)] + [Enter(j), Mark(j, true)];
    StoresBefore(s, Enter(i), Log(k.platform, k.user), [Enter(j), Mark(j, true)], k, s.now);
  }

  predicate StoresTime(s: State, steps: seq<Action>, k: Key, t: Time) {
    && Play(s, steps).Some? && k in Play(s, steps).value.rows
    && Play(s, steps).value.rows[k].at == t
  }

  lemma StoresBefore(s: State, a: Action, b: Action, steps: seq<Action>, k: Key, t: Time)
    requires Enabled(s, a) && Enabled(Apply(s, a), b) && StoresTime(Apply(Apply(s, a), b), steps, k, t)
    ensures StoresTime(s, [a, b] + steps, k, t)
  {
    PlayFirst(Apply(s, a), b, steps);
    PlayFirst(s, a, [b] + steps);
    assert [a, b] + steps == [a] + ([b] + steps);
  }

  lemma TwoWaitingLeak(s: State, k: Key, i: JobId, j: JobId) returns (steps: seq<Action>)
    requires i != j && Waits(s.flights, i, k) && Waits(s.flights, j, k) && HasRoom(s, 2)
    requires k in s.progress && s.progress[k].status == Queued && k in s.rows
    ensures AreQuiet(steps) && StoresTime(s, steps, k, s.now)
  {
    var first, t := GetsReady(s, k, i);
    RoomLeft(s, i, t, 1);
    var second, u := GetsReady(t, k, j);
    var last := SecondWritesTheLogTime(u, k, i, j);
    PlayBoth(t, second, last);
    PlayBoth(s, first, second + last);
    steps := first + (second + last);
  }

  // ---------------------------------------------------------------- the restart

  /** A target that is not active but has a job waiting: it was cancelled while queued. */
  predicate IsDropped(s: State, k: Key, id: JobId) {
    Waits(s.flights, id, k) && k in s.progress && !IsActive(s.progress[k].status)
  }

  lemma StartQueues(s: State, k: Key, force: bool, backfill: bool)
    requires WillQueue(s, k) && s.nextId !in s.flights
    ensures
      var t := Apply(s, Start(k, force, backfill));
      && t.flights == s.flights[s.nextId := t.flights[s.nextId]] && Waits(t.flights, s.nextId, k)
      && k in t.progress && t.progress[k].status == Queued
      && t == s.(progress := t.progress, flights := t.flights, nextId := s.nextId + 1)
  {
  }

  /** The restarted target has two jobs on their way, and no other live one. */
  lemma RestartIsApart(s: State, h: History, k: Key, id: JobId, t: State)
    requires Inv(s, h) && IsDropped(s, k, id) && s.nextId in t.flights && Waits(t.flights, s.nextId, k)
    requires t.flights == s.flights[s.nextId := t.flights[s.nextId]]
    ensures IsApart(t, k, {id, s.nextId}) && id != s.nextId
  {
    assert s.nextId !in s.flights;
    forall x | x in t.flights && x !in {id, s.nextId} ensures t.flights[x].job.key != k || !IsLive(t.flights[x].phase) {
      assert x in s.flights && IsLive(s.flights[id].phase);
    }
  }

  /** The limit raised, the account there, and all jobs at their ends but the kept ones. */
  lemma RoomIsMade(s: State, h: History, k: Key, kept: set<JobId>) returns (steps: seq<Action>, t: State, g: History)
    requires Loose(s, h) && IsApart(s, k, kept) && k in s.progress
    ensures Reaches(s, h, steps, t, g) && IsApart(t, k, kept) && HasRoom(t, 2)
    ensures k in t.progress && t.progress[k] == s.progress[k] && k in t.rows && t.now == s.now
    ensures StartsOf(g, k) == StartsOf(h, k)
  {
    var u, f := LimitIsRaised(s, h, k, kept);
    var v, e, added := AccountIsThere(u, f, k, kept);
    var rest;
    rest, t, g := DrainedHasRoom(v, e, k, kept);
    ReachesBoth(u, f, added, v, e, rest, t, g);
    steps := [SetLimit(MAX_SCRAPE_WORKERS)] + (added + rest);
    ReachesFirst(s, h, SetLimit(MAX_SCRAPE_WORKERS), u, f, added + rest, t, g);
  }

  lemma LimitIsRaised(s: State, h: History, k: Key, kept: set<JobId>) returns (t: State, g: History)
    requires Loose(s, h) && IsApart(s, k, kept)
    ensures IsStep(s, h, SetLimit(MAX_SCRAPE_WORKERS), t, g) && Loose(t, g) && IsApart(t, k, kept)
    ensures t == s.(limit := MAX_SCRAPE_WORKERS) && g.starts == h.starts
  {
    var a := SetLimit(MAX_SCRAPE_WORKERS);
    t, g := Apply(s, a), Advance(s, h, a);
    KeepsLoose(s, h, a);
  }

  lemma AccountIsThere(s: State, h: History, k: Key, kept: set<JobId>)
    returns (t: State, g: History, steps: seq<Action>)
    requires Loose(s, h) && IsApart(s, k, kept)
    ensures Reaches(s, h, steps, t, g) && Loose(t, g) && IsApart(t, k, kept)
    ensures t == s.(rows := t.rows) && k in t.rows && g == h
  {
    if k in s.rows {
      t, g, steps := s, h, [];
    } else {
      var a := AddAccount(k);
      t, g, steps := Apply(s, a), Advance(s, h, a), [a];
      KeepsLoose(s, h, a);
      assert [a] == [a] + [];
      ReachesFirst(s, h, a, t, g, [], t, g);
    }
  }

  lemma DrainedHasRoom(s: State, h: History, k: Key, kept: set<JobId>)
    returns (steps: seq<Action>, t: State, g: History)
    requires Loose(s, h) && IsApart(s, k, kept) && s.limit >= MAX_SCRAPE_WORKERS
    ensures Reaches(s, h, steps, t, g) && IsLeft(s, h, t, g, k) && IsApart(t, k, kept) && HasRoom(t, 2)
  {
    steps, t, g := DrainOthers(s, h, k, kept);
    FewHeld(t, g, kept);
    FewInChannel(t, kept);
    assert forall id | id in t.flights :: !HoldsTwitter(t.flights[id]);
  }

  lemma TickKeepsRoom(s: State, t: Time)
    requires s.now <= t
    ensures Apply(s, Tick(t)) == s.(now := t) && (HasRoom(s, 2) ==> HasRoom(s.(now := t), 2))
  {
    assert InChannelIds(s.(now := t)) == InChannelIds(s);
  }

  /** Quiet steps are permitted, and no run succeeds by them. */
  lemma {:induction false} QuietReaches(s: State, h: History, steps: seq<Action>) returns (g: History)
    requires AreQuiet(steps) && Play(s, steps).Some?
    ensures Reaches(s, h, steps, Play(s, steps).value, g) && g.starts == h.starts
    decreases |steps|
  {
    g := h;
    if steps != [] {
      QuietStep(s, h, steps[0]);
      g := QuietReaches(Apply(s, steps[0]), Advance(s, h, steps[0]), steps[1..]);
    }
  }

  lemma QuietStep(s: State, h: History, a: Action)
    requires Enabled(s, a) && IsQuiet(a)
    ensures Permitted(s, h, a) && Advance(s, h, a).starts == h.starts
  {
  }

  /** With room for its two jobs the target's row can come to hold any time from now on. */
  lemma TwoJobsLeak(s: State, h: History, k: Key, i: JobId, j: JobId, at: Time)
    returns (steps: seq<Action>, t: State, g: History)
    requires i != j && Waits(s.flights, i, k) && Waits(s.flights, j, k) && HasRoom(s, 2) && s.now <= at
    requires k in s.progress && s.progress[k].status == Queued && k in s.rows
    ensures Reaches(s, h, steps, t, g) && k in t.rows && t.rows[k].at == at && StartsOf(g, k) == StartsOf(h, k)
  {
    TickKeepsRoom(s, at);
    var rest := TwoWaitingLeak(s.(now := at), k, i, j);
    steps := [Tick(at)] + rest;
    PlayFirst(s, Tick(at), rest);
    t := Play(s, steps).value;
    g := QuietReaches(s, h, steps);
  }

  /** Once a dropped target is restarted, its row can come to hold any time from now on, by no scrape of it. */
  lemma RestartLeaks(s: State, h: History, k: Key, id: JobId, force: bool, backfill: bool, at: Time)
    returns (steps: seq<Action>, t: State, g: History)
    requires Inv(s, h) && IsDropped(s, k, id) && WillQueue(s, k) && s.now <= at
    ensures
      var a := Start(k, force, backfill);
      && Reaches(Apply(s, a), Advance(s, h, a), steps, t, g)
      && k in t.rows && t.rows[k].at == at && StartsOf(g, k) == StartsOf(h, k)
  {
    var a := Start(k, force, backfill);
    assert s.nextId !in s.flights;
    StartQueues(s, k, force, backfill);
    KeepsLoose(s, h, a);
    var u, f := Apply(s, a), Advance(s, h, a);
    RestartIsApart(s, h, k, id, u);
    var first, v, e := RoomIsMade(u, f, k, {id, s.nextId});
    var last;
    last, t, g := TwoJobsLeak(v, e, k, id, s.nextId, at);
    steps := first + last;
    ReachesBoth(u, f, first, v, e, last, t, g);
  }

  // ---------------------------------------------------------------- exactly which starts leak

  ghost predicate RowsAreSafe(s: State, h: History) {
    forall k | k in s.rows :: IsSafe(h, k, s.rows[k].at)
  }

  /** Some permitted steps store a watermark that is no start of a successful run. */
  ghost predicate CanLeak(s: State, h: History) {
    exists steps, t, g :: Reaches(s, h, steps, t, g) && !RowsAreSafe(t, g)
  }

  lemma {:induction false} InvIsReached(s: State, h: History, steps: seq<Action>, t: State, g: History)
    requires Inv(s, h) && Reaches(s, h, steps, t, g)
    ensures Inv(t, g)
    decreases |steps|
  {
    if steps != [] {
      Preserved(s, h, steps[0]);
      InvIsReached(Apply(s, steps[0]), Advance(s, h, steps[0]), steps[1..], t, g);
    }
  }

  lemma InvNeverLeaks(s: State, h: History)
    requires Inv(s, h)
    ensures !CanLeak(s, h)
  {
    forall steps, t, g | Reaches(s, h, steps, t, g) ensures RowsAreSafe(t, g) {
      InvIsReached(s, h, steps, t, g);
    }
  }

  lemma {:induction false} LaterThanAll(times: set<Time>, now: Time) returns (t: Time)
    ensures now < t && forall x | x in times :: x < t
    decreases |times|
  {
    t := now + 1;
    if times != {} {
      var first :| first in times;
      t := LaterThanAll(times - {first}, now);
      forall x | x in times ensures x < t || x == first { assert x == first || x in times - {first}; }
      if t <= first { t := first + 1; }
    }
  }

  lemma DroppedLeaks(s: State, h: History, k: Key, force: bool, backfill: bool)
    requires Inv(s, h) && WillQueue(s, k) && k in h.dropped
    ensures CanLeak(Apply(s, Start(k, force, backfill)), Advance(s, h, Start(k, force, backfill)))
  {
    var id :| Waits(s.flights, id, k);
    assert StatusFits(s, h, s.flights[id]);
    var at := LaterThanAll(StartsOf(h, k), s.now);
    var steps, t, g := RestartLeaks(s, h, k, id, force, backfill, at);
    assert !RowsAreSafe(t, g);
  }

  /** A start that is refused changes nothing of a dropped target. */
  lemma RefusedStart(s: State, h: History, k: Key, force: bool, backfill: bool)
    requires Inv(s, h) && k in h.dropped && !WillQueue(s, k)
    ensures Apply(s, Start(k, force, backfill)) == s && Advance(s, h, Start(k, force, backfill)) == h
  {
    var id :| Waits(s.flights, id, k);
    assert StatusFits(s, h, s.flights[id]);
    assert s.progress[k := s.progress[k]] == s.progress;
  }

  /**
   Exactly which starts leak: in any state of a run, a start can be followed by a leak if and only if it is not refused
   and its target is dropped, that is, cancelled while queued with its old job still on its way.
   */
  lemma RestartLeaksExactly(s: State, h: History, k: Key, force: bool, backfill: bool)
    requires Inv(s, h)
    ensures
      var a := Start(k, force, backfill);
      CanLeak(Apply(s, a), Advance(s, h, a)) <==> k in h.dropped && WillQueue(s, k)
  {
    if k !in h.dropped {
      Preserved(s, h, Start(k, force, backfill));
      InvNeverLeaks(Apply(s, Start(k, force, backfill)), Advance(s, h, Start(k, force, backfill)));
    } else if WillQueue(s, k) {
      DroppedLeaks(s, h, k, force, backfill);
    } else {
      RefusedStart(s, h, k, force, backfill);
      InvNeverLeaks(s, h);
    }
  }

  /** Any target that can be started can be brought there: a start and a cancel before a worker takes the job. */
  lemma CancelledWhileQueued(s: State, h: History, k: Key)
    requires Inv(s, h) && WillQueue(s, k) && k !in h.dropped
    ensures
      var a, b := Start(k, false, false), Cancel(k.platform, k.user, {});
      var t, g := Apply(s, a), Advance(s, h, a);
      var u, f := Apply(t, b), Advance(t, g, b);
      Permitted(s, h, a) && Inv(u, f) && k in f.dropped && WillQueue(u, k)
  {
    var a := Start(k, false, false);
    Preserved(s, h, a);
    assert s.nextId !in s.flights;
    StartQueues(s, k, false, false);
    var t, g := Apply(s, a), Advance(s, h, a);
    Preserved(t, g, Cancel(k.platform, k.user, {}));
    CancelDrops(t, g, k);
  }

  lemma CancelDrops(s: State, h: History, k: Key)
    requires k in s.progress && s.progress[k].status == Queued && BlockedUntil(s, k.platform) <= s.now
    ensures
      var b := Cancel(k.platform, k.user, {});
      k in Advance(s, h, b).dropped && WillQueue(Apply(s, b), k)
  {
    assert k in Named(s, s.progress.Keys, k.platform, k.user);
  }

  const TARGET := Key("twitter", "idol")

  /** A process at time 9 over the row of one target that never synced. */
  const FRESH := State(9, map[], map[], map[], {}, map[], map[], {}, {}, 0, 0, 2, None,
                       map[TARGET := Row(Idle, 0)], {})
  const NO_HISTORY := History(map[], {}, 2)

  /** Such a process, for one: start, cancel while queued, start again. */
  lemma FreshProcessLeaks()
    ensures Init(FRESH, NO_HISTORY)
    ensures
      var a, b := Start(TARGET, false, false), Cancel("twitter", "idol", {});
      var s, h := Apply(FRESH, a), Advance(FRESH, NO_HISTORY, a);
      var t, g := Apply(s, b), Advance(s, h, b);
      Permitted(FRESH, NO_HISTORY, a) && !Permitted(t, g, a) && CanLeak(Apply(t, a), Advance(t, g, a))
  {
    InitHolds(FRESH, NO_HISTORY);
    CancelledWhileQueued(FRESH, NO_HISTORY, TARGET);
    var a, b := Start(TARGET, false, false), Cancel("twitter", "idol", {});
    var s, h := Apply(FRESH, a), Advance(FRESH, NO_HISTORY, a);
    RestartLeaksExactly(Apply(s, b), Advance(s, h, b), TARGET, false, false);
  }

  // ---------------------------------------------------------------- with one slot no start leaks

  /** Any step, restarts of dropped targets included, that leaves the limit at one and renames no handle with a job. */
  predicate IsTame(s: State, a: Action) {
    match a
    case SetLimit(limit) => limit <= 1
    case Rename(from, to) =>
      && (forall id | id in s.flights && IsLive(s.flights[id].phase) ::
            s.flights[id].job.key != from && s.flights[id].job.key != to)
      && forall id | id in s.late :: s.late[id].key != from && s.late[id].key != to
    case _ => true
  }

  ghost predicate OneSlotInv(s: State, h: History) {
    WatermarksAreSafe(s, h) && RunningIsRun(s) && IdsAreFresh(s) && SlotsAdd(s, h) && h.peak <= 1
  }

  lemma {:induction false} OnlyOne(ids: set<JobId>, i: JobId, j: JobId)
    requires i in ids && j in ids && |ids| <= 1
    ensures i == j
  {
    assert |ids - {i}| == 0;
    assert j !in ids - {i};
  }

  /** The one slot is held by the job that enters, so no other job of its target is inside a run. */
  lemma OneSlotIsClear(s: State, h: History, a: Action, id: JobId)
    requires OneSlotInv(s, h) && Enabled(s, a) && IsTame(s, a) && id in s.flights
    ensures IsClear(s, a, id)
  {
    var key := s.flights[id].job.key;
    if a == Enter(id) && key in s.progress && s.progress[key].status == Running {
      var other :| Runs(s.flights, other, key);
      assert id in SlotHolders(s) && other in SlotHolders(s);
      OnlyOne(SlotHolders(s), id, other);
      assert false;
    }
  }

  lemma KeepsOneSlot(s: State, h: History, a: Action)
    requires OneSlotInv(s, h) && Enabled(s, a) && IsTame(s, a)
    ensures OneSlotInv(Apply(s, a), Advance(s, h, a))
  {
    var t, g := Apply(s, a), Advance(s, h, a);
    KeepsSlots(s, h, a);
    OneSlotWatermarks(s, h, a);
    forall id | id in t.flights ensures id < t.nextId { KeepsIdFresh(s, a, id); }
    forall k | k in t.progress && t.progress[k].status == Running ensures exists id :: Runs(t.flights, id, k) {
      var id := KeepsRunner(s, a, k);
    }
  }

  lemma OneSlotWatermarks(s: State, h: History, a: Action)
    requires OneSlotInv(s, h) && Enabled(s, a) && IsTame(s, a)
    ensures WatermarksAreSafe(Apply(s, a), Advance(s, h, a))
  {
    var t, g := Apply(s, a), Advance(s, h, a);
    forall k | k in t.progress && t.progress[k].status != Running ensures IsSafe(g, k, t.progress[k].updatedAt) {
      KeepsEntrySafe(s, h, a, k);
    }
    forall id | id in t.flights ensures FlightIsSafe(g, t.flights[id]) {
      if id in s.flights { OneSlotIsClear(s, h, a, id); }
      KeepsFlightSafe(s, h, a, id);
    }
    forall id | id in t.late ensures IsSafe(g, t.late[id].key, t.late[id].at) {
      KeepsLateSafe(s, h, a, id);
    }
    forall k | k in t.rows ensures IsSafe(g, k, t.rows[k].at) {
      KeepsRowSafe(s, h, a, k);
    }
  }

  /** A run with restarts of dropped targets, whose limit is never above one. */
  ghost predicate IsOneSlotRun(states: seq<State>, histories: seq<History>, actions: seq<Action>) {
    && |states| == |histories| == |actions| + 1
    && Init(states[0], histories[0]) && histories[0].peak <= 1
    && forall i | 0 <= i < |actions| ::
         && Enabled(states[i], actions[i]) && IsTame(states[i], actions[i])
         && states[i + 1] == Apply(states[i], actions[i])
         && histories[i + 1] == Advance(states[i], histories[i], actions[i])
  }

  /** With a limit of one no watermark leaks, whatever is restarted. */
  lemma {:induction false} OneSlotNeverLeaks(states: seq<State>, histories: seq<History>, actions: seq<Action>, i: nat)
    requires IsOneSlotRun(states, histories, actions) && i <= |actions|
    ensures WatermarksAreSafe(states[i], histories[i]) && OneSlotInv(states[i], histories[i])
  {
    if i == 0 {
      InitHolds(states[0], histories[0]);
    } else {
      OneSlotNeverLeaks(states, histories, actions, i - 1);
      KeepsOneSlot(states[i - 1], histories[i - 1], actions[i - 1]);
    }
  }
}
