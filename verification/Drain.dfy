/**
 Why the orchestrator cannot get stuck: from every state it reaches, and also after a restart it does not expect, the
 jobs on their way can be run to their ends one after the other, while those of one chosen target wait.
 */
module Drain {
  import opened Basics
  import opened Protocol
  import opened Invariants

  /** Permitted steps lead from one state to the other. */
  ghost predicate Reaches(s: State, h: History, steps: seq<Action>, t: State, g: History)
    decreases |steps|
  {
    if steps == [] then t == s && g == h
    else
      && Enabled(s, steps[0]) && Permitted(s, h, steps[0])
      && Reaches(Apply(s, steps[0]), Advance(s, h, steps[0]), steps[1..], t, g)
  }

  lemma {:induction false} ReachesBoth(s: State, h: History, a: seq<Action>, t: State, g: History, b: seq<Action>,
                                       u: State, f: History)
    requires Reaches(s, h, a, t, g) && Reaches(t, g, b, u, f)
    ensures Reaches(s, h, a + b, u, f)
    decreases |a|
  {
    if a == [] {
      assert a + b == b;
    } else {
      assert (a + b)[1..] == a[1..] + b;
      ReachesBoth(Apply(s, a[0]), Advance(s, h, a[0]), a[1..], t, g, b, u, f);
    }
  }

  lemma ReachesFirst(s: State, h: History, a: Action, t: State, g: History, rest: seq<Action>, u: State, f: History)
    requires IsStep(s, h, a, t, g) && Reaches(t, g, rest, u, f)
    ensures Reaches(s, h, [a] + rest, u, f)
  {
    assert ([a] + rest)[1..] == rest;
  }

  /** What every step keeps, also the restart of a dropped target. */
  ghost predicate Loose(s: State, h: History) {
    IdsAreFresh(s) && SlotsAdd(s, h) && LockFits(s)
  }

  lemma KeepsLoose(s: State, h: History, a: Action)
    requires Loose(s, h) && Enabled(s, a)
    ensures Loose(Apply(s, a), Advance(s, h, a))
  {
    KeepsSlots(s, h, a);
    var t := Apply(s, a);
    if NextLock(s, a).Some? { KeepsLockHolder(s, a); }
    forall id | id in t.flights ensures id < t.nextId { KeepsIdFresh(s, a, id); }
    forall id | id in t.flights && HoldsTwitter(t.flights[id]) ensures t.twitterLock == Some(id) {
      KeepsLockFit(s, a, id);
    }
  }

  // ---------------------------------------------------------------- one job

  /** The step that brings a job nearer to its end. */
  function NextOf(phase: Phase, id: JobId): Action {
    match phase
    case Sending(_) => Send(id)
    case InChannel => Receive(id)
    case Waiting => Acquire(id)
    case Slotted => Check(id)
    case Checked => Enter(id)
    case Entered(_) => Mark(id, false)
    case Marked(_) => Arm(id)
    case Armed(_) => Stamp(id)
    case Stamped(_, _) => Begin(id)
    case Scraping(_, _) => Return(id, Success)
    case Returned(_, _, _) => Trip(id)
    case Settling(_, _, _) => Finish(id, false)
    case Finished => Unlock(id)
    case Leaving => Release(id)
  }

  function StepsLeft(phase: Phase): nat {
    match phase
    case Sending(_) => 13
    case InChannel => 12
    case Waiting => 11
    case Slotted => 10
    case Checked => 9
    case Entered(_) => 8
    case Marked(_) => 7
    case Armed(_) => 6
    case Stamped(_, _) => 5
    case Scraping(_, _) => 4
    case Returned(_, _, _) => 3
    case Settling(_, _, _) => 2
    case Finished => 1
    case Leaving => 0
  }

  /** The channel, the workers, the slots and the Twitter lock let the job go on to its end. */
  predicate CanRun(s: State, id: JobId)
    requires id in s.flights
  {
    var phase := s.flights[id].phase;
    && (phase.Sending? ==> |InChannelIds(s)| < JOB_CHANNEL_SIZE)
    && (HeldByWorker(phase) || |WorkerHeld(s)| < MAX_SCRAPE_WORKERS)
    && (HoldsSlot(phase) || s.active < s.limit)
    && (s.twitterLock.None? || HoldsTwitter(s.flights[id]))
  }

  /** The flights `kept` wait for the target, and no other flight is a live job of it. */
  predicate IsApart(s: State, k: Key, kept: set<JobId>) {
    && |kept| <= 2 && (forall id | id in kept :: Waits(s.flights, id, k))
    && forall id | id in s.flights && id !in kept :: s.flights[id].job.key != k || !IsLive(s.flights[id].phase)
  }

  /** What the steps of other jobs leave of a target. */
  predicate IsLeft(s: State, h: History, t: State, g: History, k: Key) {
    && t.now == s.now && t.limit == s.limit && t.nextId == s.nextId && StartsOf(g, k) == StartsOf(h, k)
    && (k in t.progress <==> k in s.progress) && (k in s.progress ==> t.progress[k] == s.progress[k])
    && (k in t.rows <==> k in s.rows)
  }

  lemma NextIsEnabled(s: State, id: JobId)
    requires id in s.flights && CanRun(s, id)
    ensures Enabled(s, NextOf(s.flights[id].phase, id))
  {
  }

  lemma NextLeaves(s: State, h: History, k: Key, kept: set<JobId>, id: JobId)
    requires IsApart(s, k, kept) && id in s.flights && id !in kept && CanRun(s, id)
    ensures
      var a := NextOf(s.flights[id].phase, id);
      IsLeft(s, h, Apply(s, a), Advance(s, h, a), k)
  {
    EntryIsLeft(s, h, k, kept, id);
    var a := NextOf(s.flights[id].phase, id);
    var t := Apply(s, a);
    assert t.progress == NextProgress(s, a) && t.rows == NextRows(s, a);
  }

  lemma EntryIsLeft(s: State, h: History, k: Key, kept: set<JobId>, id: JobId)
    requires IsApart(s, k, kept) && id in s.flights && id !in kept && CanRun(s, id)
    ensures
      var a := NextOf(s.flights[id].phase, id);
      && (k in NextProgress(s, a) <==> k in s.progress)
      && (k in s.progress ==> NextProgress(s, a)[k] == s.progress[k])
      && StartsOf(Advance(s, h, a), k) == StartsOf(h, k)
  {
  }

  lemma NextGoesOn(s: State, id: JobId)
    requires id in s.flights && CanRun(s, id) && !s.flights[id].phase.Leaving?
    ensures
      var a := NextOf(s.flights[id].phase, id);
      && Apply(s, a).flights == s.flights[id := Flight(s.flights[id].job, NextPhase(s, a))]
      && StepsLeft(NextPhase(s, a)) < StepsLeft(s.flights[id].phase)
      && (IsLive(NextPhase(s, a)) ==> IsLive(s.flights[id].phase))
  {
  }

  lemma StillRuns(s: State, id: JobId)
    requires id in s.flights && CanRun(s, id) && !s.flights[id].phase.Leaving?
    ensures CanRun(Apply(s, NextOf(s.flights[id].phase, id)), id)
  {
    var a := NextOf(s.flights[id].phase, id);
    NextGoesOn(s, id);
    SlotOf(s.flights, id, Flight(s.flights[id].job, NextPhase(s, a)));
  }

  /** A job can be run to its end: its flight is over, the others are where they were, and the lock is free. */
  lemma {:induction false} RunOut(s: State, h: History, k: Key, kept: set<JobId>, id: JobId)
    returns (steps: seq<Action>, t: State, g: History)
    requires Loose(s, h) && IsApart(s, k, kept) && id in s.flights && id !in kept && CanRun(s, id)
    ensures Reaches(s, h, steps, t, g) && Loose(t, g) && IsLeft(s, h, t, g, k) && IsApart(t, k, kept)
    ensures t.flights == s.flights - {id} && t.twitterLock.None?
    decreases StepsLeft(s.flights[id].phase)
  {
    var a, u, f := OneStep(s, h, k, kept, id);
    var rest := [];
    if id in u.flights {
      rest, t, g := RunOut(u, f, k, kept, id);
      LeftOnward(s, h, u, f, t, g, k);
      assert t.flights == s.flights - {id};
    } else {
      t, g := u, f;
      assert t.flights == s.flights - {id};
    }
    steps := [a] + rest;
    ReachesFirst(s, h, a, u, f, rest, t, g);
  }

  lemma LeftOnward(s: State, h: History, t: State, g: History, u: State, f: History, k: Key)
    requires IsLeft(s, h, t, g, k) && IsLeft(t, g, u, f, k)
    ensures IsLeft(s, h, u, f, k)
  {
  }

  lemma OneStep(s: State, h: History, k: Key, kept: set<JobId>, id: JobId) returns (a: Action, t: State, g: History)
    requires Loose(s, h) && IsApart(s, k, kept) && id in s.flights && id !in kept && CanRun(s, id)
    ensures IsStep(s, h, a, t, g) && Loose(t, g) && IsLeft(s, h, t, g, k) && IsApart(t, k, kept)
    ensures t.flights - {id} == s.flights - {id}
    ensures if id in t.flights then CanRun(t, id) && StepsLeft(t.flights[id].phase) < StepsLeft(s.flights[id].phase)
            else t.twitterLock.None?
  {
    a := NextOf(s.flights[id].phase, id);
    NextIsEnabled(s, id);
    t, g := Apply(s, a), Advance(s, h, a);
    NextLeaves(s, h, k, kept, id);
    KeepsLoose(s, h, a);
    JobMoves(s, id);
    StaysApart(s, k, kept, id, t);
  }

  /** What the step does to the job itself. */
  lemma JobMoves(s: State, id: JobId)
    requires id in s.flights && CanRun(s, id)
    ensures
      var a := NextOf(s.flights[id].phase, id);
      var t := Apply(s, a);
      && MovesOnly(s, t, id)
      && if id in t.flights then CanRun(t, id) && StepsLeft(t.flights[id].phase) < StepsLeft(s.flights[id].phase)
         else t.twitterLock.None?
  {
    if s.flights[id].phase.Leaving? {
      LastStep(s, id);
    } else {
      NextGoesOn(s, id);
      StillRuns(s, id);
    }
  }

  /** Flight `id` is over or further on, all others are where they were. */
  predicate MovesOnly(s: State, t: State, id: JobId)
    requires id in s.flights
  {
    if id in t.flights then
      && t.flights == s.flights[id := t.flights[id]] && t.flights[id].job == s.flights[id].job
      && (IsLive(t.flights[id].phase) ==> IsLive(s.flights[id].phase))
    else t.flights == s.flights - {id}
  }

  lemma StaysApart(s: State, k: Key, kept: set<JobId>, id: JobId, t: State)
    requires IsApart(s, k, kept) && id in s.flights && id !in kept && MovesOnly(s, t, id)
    ensures IsApart(t, k, kept) && t.flights - {id} == s.flights - {id}
  {
  }

  lemma LastStep(s: State, id: JobId)
    requires id in s.flights && CanRun(s, id) && s.flights[id].phase.Leaving?
    ensures Apply(s, Release(id)).flights == s.flights - {id} && Apply(s, Release(id)).twitterLock.None?
  {
  }

  // ---------------------------------------------------------------- all jobs

  function Others(s: State, kept: set<JobId>): set<JobId> {
    s.flights.Keys - kept
  }

  /** Which job can go next: the one in the Twitter lock, else one a worker has, else one in the channel. */
  lemma SomeCanRun(s: State, h: History, k: Key, kept: set<JobId>) returns (id: JobId)
    requires Loose(s, h) && IsApart(s, k, kept) && s.limit >= MAX_SCRAPE_WORKERS && Others(s, kept) != {}
    ensures id in Others(s, kept) && CanRun(s, id)
  {
    if s.twitterLock.Some? {
      id := s.twitterLock.value;
    } else if x :| x in Others(s, kept) && HeldByWorker(s.flights[x].phase) {
      id := x;
      if !HoldsSlot(s.flights[id].phase) { SlotIsLeft(s, h, id); }
    } else {
      FewHeld(s, h, kept);
      if x :| x in Others(s, kept) && s.flights[x].phase.InChannel? {
        id := x;
      } else {
        id :| id in Others(s, kept);
        FewInChannel(s, kept);
      }
    }
  }

  lemma SlotIsLeft(s: State, h: History, id: JobId)
    requires SlotsAdd(s, h) && id in s.flights && s.flights[id].phase.Waiting? && s.limit >= MAX_SCRAPE_WORKERS
    ensures s.active < s.limit
  {
    assert SlotHolders(s) <= WorkerHeld(s) - {id};
    Within(SlotHolders(s), WorkerHeld(s) - {id});
  }

  lemma {:induction false} Within(a: set<JobId>, b: set<JobId>)
    requires a <= b
    ensures |a| <= |b|
  {
    if x :| x in a {
      Within(a - {x}, b - {x});
    }
  }

  lemma FewHeld(s: State, h: History, kept: set<JobId>)
    requires SlotsAdd(s, h) && |kept| <= 2
    requires forall x | x in Others(s, kept) :: !HeldByWorker(s.flights[x].phase)
    ensures |WorkerHeld(s)| <= 2 && s.active <= 2
  {
    Within(WorkerHeld(s), kept);
    Within(SlotHolders(s), kept);
  }

  lemma FewInChannel(s: State, kept: set<JobId>)
    requires |kept| <= 2 && forall x | x in Others(s, kept) :: !s.flights[x].phase.InChannel?
    ensures |InChannelIds(s)| <= 2
  {
    Within(InChannelIds(s), kept);
  }

  /** All jobs but the kept ones can be run to their ends. */
  lemma {:induction false} DrainOthers(s: State, h: History, k: Key, kept: set<JobId>)
    returns (steps: seq<Action>, t: State, g: History)
    requires Loose(s, h) && IsApart(s, k, kept) && s.limit >= MAX_SCRAPE_WORKERS
    ensures Reaches(s, h, steps, t, g) && Loose(t, g) && IsLeft(s, h, t, g, k) && IsApart(t, k, kept)
    ensures t.flights.Keys == kept && forall id | id in kept :: t.flights[id] == s.flights[id]
    decreases Others(s, kept)
  {
    if Others(s, kept) == {} {
      steps, t, g := [], s, h;
      assert forall x | x in s.flights :: x in kept || x in Others(s, kept);
    } else {
      var id := SomeCanRun(s, h, k, kept);
      var first, u, f := RunOut(s, h, k, kept, id);
      var rest;
      rest, t, g := DrainOthers(u, f, k, kept);
      steps := first + rest;
      ReachesBoth(s, h, first, u, f, rest, t, g);
    }
  }

  lemma {:induction false} OtherKey(keys: set<Key>) returns (k: Key)
    ensures forall x | x in keys :: |x.platform| < |k.platform|
  {
    k := Key(" ", "");
    if first :| first in keys {
      k := OtherKey(keys - {first});
      forall x | x in keys ensures x == first || |x.platform| < |k.platform| {
        assert x == first || x in keys - {first};
      }
      if |k.platform| <= |first.platform| { k := Key(first.platform + " ", ""); }
    }
  }

  /** From every state of a run the orchestrator can finish all its jobs: nothing is stuck. */
  lemma NothingIsStuck(s: State, h: History) returns (steps: seq<Action>, t: State, g: History)
    requires Inv(s, h)
    ensures Reaches(s, h, steps, t, g) && t.flights == map[]
  {
    var a := SetLimit(MAX_SCRAPE_WORKERS);
    var u, f := Apply(s, a), Advance(s, h, a);
    KeepsLoose(s, h, a);
    assert IsStep(s, h, a, u, f) && u.flights == s.flights && u.limit == MAX_SCRAPE_WORKERS;
    var k := OtherKey(set id | id in s.flights :: s.flights[id].job.key);
    assert IsApart(u, k, {});
    var rest;
    rest, t, g := DrainOthers(u, f, k, {});
    steps := [a] + rest;
    ReachesFirst(s, h, a, u, f, rest, t, g);
  }
}
