/**
 What the watermark of a target is, not only what it cannot be: the start of its last run that succeeded, from the
 moment that run is published until the next one. Steps are stated here by the values they leave.
 */
module Watermarks {
  import opened Basics
  import opened Protocol
  import opened Invariants
  import Safety

  // ---------------------------------------------------------------- single steps, by the values they leave

  /** Nothing of the protocol's state changes for target `k`. */
  predicate SameTarget(s: State, t: State, k: Key) {
    && (k in t.progress <==> k in s.progress) && (k in s.progress ==> t.progress[k] == s.progress[k])
    && (k in t.rows <==> k in s.rows) && (k in s.rows ==> t.rows[k] == s.rows[k])
  }

  /**
   The end of a run: success leaves its start, failure and cancellation the watermark it found; the row gets the same
   unless the write fails or there is none; nobody else's entry or row changes.
   */
  lemma FinishPublishes(s: State, id: JobId, saved: bool)
    requires Enabled(s, Finish(id, saved))
    ensures
      var Flight(Job(k, _, forced), Settling(prev, start, outcome)) := s.flights[id];
      var t := Apply(s, Finish(id, saved));
      && k in t.progress
      && (outcome.Success? ==> t.progress[k].status == Completed && t.progress[k].updatedAt == start)
      && (outcome.Failure? ==>
            && t.progress[k].updatedAt == prev
            && t.progress[k].status == if id in s.cancelled then Idle else Failed)
      && (saved && k in s.rows ==>
            k in t.rows && t.rows[k].at == t.progress[k].updatedAt && t.rows[k].status == t.progress[k].status)
      && (!saved || k !in s.rows ==> t.rows == s.rows)
      && (forall other | other != k :: SameTarget(s, t, other))
      && (k in t.fullResync <==> k in s.fullResync && !(forced && outcome.Success?))
  {
  }

  /** A start is refused while the target is queued or running, or its platform blocked. */
  lemma StartIsRefusedExactly(s: State, k: Key, force: bool, backfill: bool)
    ensures
      var t := Apply(s, Start(k, force, backfill));
      t.nextId == s.nextId + 1 <==>
        && (k in s.progress ==> s.progress[k].status != Queued && s.progress[k].status != Running)
        && (k.platform in s.blockUntil ==> s.blockUntil[k.platform] <= s.now)
  {
  }

  /** An accepted start queues a job with the target's watermark, and with none if it is forced. */
  lemma StartQueuesTheWatermark(s: State, k: Key, force: bool, backfill: bool)
    requires Apply(s, Start(k, force, backfill)).nextId == s.nextId + 1
    ensures
      var t := Apply(s, Start(k, force, backfill));
      var watermark := if k in s.progress then s.progress[k].updatedAt else 0;
      && s.nextId in t.flights && t.flights[s.nextId].phase == Sending(watermark)
      && t.flights[s.nextId].job.key == k
      && (t.flights[s.nextId].job.forced <==> force || backfill || k in s.fullResync)
      && t.flights[s.nextId].job.lastSync == (if t.flights[s.nextId].job.forced then 0 else watermark)
      && k in t.progress && t.progress[k].status == Queued && t.progress[k].updatedAt == watermark
      && (forall other | other != k :: SameTarget(s, t, other)) && t.rows == s.rows
  {
  }

  /** A target loaded anew takes its stored watermark; a status left by a process that died becomes idle. */
  lemma LoadedFromItsRow(s: State, accounts: set<Key>, unreadable: set<Key>, unwritable: set<Key>, k: Key)
    requires s.progress.Keys <= accounts && k in accounts && k !in s.progress
    ensures
      var t := Apply(s, SyncTargets(accounts, unreadable, unwritable));
      && k in t.progress
      && (k in s.rows && k !in unreadable ==>
            && t.progress[k].updatedAt == s.rows[k].at
            && t.progress[k].status == if s.rows[k].status in {Queued, Running} then Idle else s.rows[k].status)
      && (k !in s.rows || k in unreadable ==> t.progress[k].updatedAt == 0 && t.progress[k].status == Idle)
      && (k in s.rows ==> k in t.rows && t.rows[k].at == s.rows[k].at)
  {
  }

  lemma SyncKeepsTheKnown(s: State, accounts: set<Key>, unreadable: set<Key>, unwritable: set<Key>, k: Key)
    requires s.progress.Keys <= accounts && (k in s.progress || k !in accounts)
    ensures SameTarget(s, Apply(s, SyncTargets(accounts, unreadable, unwritable)), k)
  {
  }

  predicate IsMeantBy(k: Key, platform: string, user: string) {
    k.user == user && (platform == "" || k.platform == platform)
  }

  /** A cancel makes the queued targets of that name idle, with their watermarks, and touches no other. */
  lemma CancelIsExact(s: State, platform: string, user: string, unwritable: set<Key>, k: Key)
    ensures
      var t := Apply(s, Cancel(platform, user, unwritable));
      && (k in s.progress && s.progress[k].status == Queued && IsMeantBy(k, platform, user) ==>
            && k in t.progress && t.progress[k].status == Idle && t.progress[k].updatedAt == s.progress[k].updatedAt
            && (k in s.rows && k !in unwritable ==>
                  k in t.rows && t.rows[k].status == Idle && t.rows[k].at == s.progress[k].updatedAt))
      && (!(k in s.progress && s.progress[k].status == Queued && IsMeantBy(k, platform, user)) ==> SameTarget(s, t, k))
      && t.flights == s.flights
      && (k in s.cancels && k in s.progress && IsMeantBy(k, platform, user) ==>
            s.cancels[k] in t.firing && k !in t.cancels)
      && (k in s.cancels && !(k in s.progress && IsMeantBy(k, platform, user)) ==>
            k in t.cancels && t.cancels[k] == s.cancels[k])
  {
    var t := Apply(s, Cancel(platform, user, unwritable));
    if k in s.cancels && k in s.progress && IsMeantBy(k, platform, user) {
      assert k in Named(s, s.progress.Keys, platform, user);
    }
  }

  /** CancelAll makes idle exactly the queued targets whose job is in the channel, and takes those jobs out. */
  lemma CancelAllIsExact(s: State, k: Key)
    ensures
      var t := Apply(s, CancelAll);
      var drained := exists id | id in s.flights :: s.flights[id].phase.InChannel? && s.flights[id].job.key == k;
      && (k in s.progress && s.progress[k].status == Queued && drained ==>
            k in t.progress && t.progress[k].status == Idle && t.progress[k].updatedAt == s.progress[k].updatedAt)
      && (!(k in s.progress && s.progress[k].status == Queued && drained) ==> SameTarget(s, t, k))
      && (forall id :: id in t.flights <==> id in s.flights && !s.flights[id].phase.InChannel?)
      && (forall id | id in t.flights :: t.flights[id] == s.flights[id])
      && (forall j | j in s.cancels :: s.cancels[j] in t.cancelled) && t.cancels == map[] && t.rows == s.rows
  {
    var t := Apply(s, CancelAll);
    if id :| id in s.flights && s.flights[id].phase.InChannel? && s.flights[id].job.key == k {
      assert id in InChannelIds(s) && k in ChannelKeys(s);
    }
  }

  /** A log line moves the time of the running targets it reaches to the present, and nothing else. */
  lemma LogIsExact(s: State, platform: string, user: string, k: Key)
    ensures
      var t := Apply(s, Log(platform, user));
      && (k in s.progress && s.progress[k].status == Running && IsMeantBy(k, platform, user) ==>
            k in t.progress && t.progress[k].status == Running && t.progress[k].updatedAt == s.now)
      && (!(k in s.progress && s.progress[k].status == Running && IsMeantBy(k, platform, user)) ==> SameTarget(s, t, k))
  {
  }

  /** A rename gives the new handle all the old one had. */
  lemma RenameIsExact(s: State, from: Key, to: Key, k: Key)
    requires Enabled(s, Rename(from, to))
    ensures
      var t := Apply(s, Rename(from, to));
      && to in t.progress && t.progress[to] == s.progress[from] && from !in t.progress && from !in t.rows
      && (from in s.rows ==> to in t.rows && t.rows[to] == s.rows[from])
      && (from in s.fullResync ==> to in t.fullResync && from !in t.fullResync)
      && (k != from && k != to ==> SameTarget(s, t, k) && (k in t.fullResync <==> k in s.fullResync))
  {
  }

  /** The way into a run: the re-check, the status, the row. */
  lemma WayIntoARun(s: State, id: JobId)
    requires id in s.flights
    ensures
      var k := s.flights[id].job.key;
      && (s.flights[id].phase.Slotted? ==>
            var t := Apply(s, Check(id));
            && t.progress == s.progress && t.rows == s.rows
            && t.flights[id].phase ==
                 if k in s.progress && s.progress[k].status == Queued then Checked else Leaving)
      && (s.flights[id].phase.Checked? && k in s.progress ==>
            var t := Apply(s, Enter(id));
            && t.flights[id].phase == Entered(s.progress[k].updatedAt)
            && t.progress == s.progress[k := Entry(Running, s.progress[k].updatedAt)] && t.rows == s.rows)
      && (s.flights[id].phase.Entered? && k in s.rows ==>
            Apply(s, Mark(id, true)).rows == s.rows[k := Row(Running, s.flights[id].phase.prev)])
      && (s.flights[id].phase.Armed? ==>
            Apply(s, Stamp(id)).flights[id].phase == Stamped(s.flights[id].phase.prev, s.now))
  {
  }

  // ---------------------------------------------------------------- the last success

  /** The step publishes a run of `k` that succeeded. */
  predicate IsSuccess(s: State, a: Action, k: Key) {
    && a.Finish? && a.id in s.flights && s.flights[a.id].job.key == k
    && s.flights[a.id].phase.Settling? && s.flights[a.id].phase.outcome.Success?
  }

  /**
   The watermark `k` has after a step, when it had `own` before it and, for a rename, the old handle had `from`: a
   success makes it the start of its run, a load the stored time, and nothing else moves it.
   */
  function NextEarned(s: State, a: Action, k: Key, own: Time, from: Time): Time {
    match a
    case Finish(id, _) => if IsSuccess(s, a, k) then s.flights[id].phase.start else own
    case SyncTargets(accounts, unreadable, _) =>
      if k in s.progress then own else if k in s.rows && k !in unreadable then s.rows[k].at else 0
    case Start(key, _, _) => if key == k && k !in s.progress then 0 else own
    case Rename(_, to) => if to == k then from else own
    case _ => own
  }

  /** The watermark `k` has earned in the first `i` steps of a run. */
  function Earned(states: seq<State>, actions: seq<Action>, i: nat, k: Key): Time
    requires i <= |actions| < |states|
  {
    if i == 0 then 0
    else
      var a := actions[i - 1];
      NextEarned(states[i - 1], a, k, Earned(states, actions, i - 1, k),
                 if a.Rename? then Earned(states, actions, i - 1, a.from) else 0)
  }

  /** A live job carries what its target has earned, or nothing when forced; a run remembers it. */
  predicate JobIsEarned(flight: Flight, earned: Time) {
    IsLive(flight.phase) ==>
      && flight.job.lastSync == (if flight.job.forced then 0 else earned)
      && (flight.phase.Sending? ==> flight.phase.queuedAt == earned)
      && (InRun(flight.phase) ==> flight.phase.prev == earned)
  }

  ghost predicate AllEarned(s: State, e: Key -> Time) {
    && (forall k | k in s.progress && s.progress[k].status != Running :: s.progress[k].updatedAt == e(k))
    && (forall id | id in s.flights :: JobIsEarned(s.flights[id], e(s.flights[id].job.key)))
  }

  ghost predicate EarnsOn(s: State, a: Action, e: Key -> Time, f: Key -> Time) {
    forall k :: f(k) == NextEarned(s, a, k, e(k), if a.Rename? then e(a.from) else 0)
  }

  /** The time a step leaves in an entry, by the one before: `own` is the target's, `from` that of a renamed handle. */
  lemma EntryMoves(s: State, a: Action, k: Key, own: Time, from: Time)
    requires Enabled(s, a) && k in NextProgress(s, a) && NextProgress(s, a)[k].status != Running
    requires !(a.Finish? && s.flights[a.id].job.key == k)
    requires k in s.progress && s.progress[k].status != Running && !(a.Rename? && a.to == k) ==>
               s.progress[k].updatedAt == own
    requires a.Rename? && a.to == k ==> s.progress[a.from].updatedAt == from
    ensures NextProgress(s, a)[k].updatedAt == NextEarned(s, a, k, own, from)
  {
    if a.Rename? && a.to == k {
      assert NextProgress(s, a)[k] == s.progress[a.from];
    } else if k in s.progress {
      KnownEntryStays(s, a, k);
    }
  }

  /** Between its runs a known target keeps its time. */
  lemma KnownEntryStays(s: State, a: Action, k: Key)
    requires Enabled(s, a) && k in s.progress && k in NextProgress(s, a) && NextProgress(s, a)[k].status != Running
    requires !(a.Finish? && s.flights[a.id].job.key == k) && !(a.Rename? && a.to == k)
    ensures s.progress[k].status != Running && NextProgress(s, a)[k].updatedAt == s.progress[k].updatedAt
  {
  }

  lemma EntryStaysEarned(s: State, a: Action, e: Key -> Time, f: Key -> Time, k: Key)
    requires Enabled(s, a) && AllEarned(s, e) && EarnsOn(s, a, e, f)
    requires k in NextProgress(s, a) && NextProgress(s, a)[k].status != Running
    ensures NextProgress(s, a)[k].updatedAt == f(k)
  {
    if a.Finish? && s.flights[a.id].job.key == k {
      assert JobIsEarned(s.flights[a.id], e(k));
      FinishPublishes(s, a.id, a.saved);
    } else {
      EntryMoves(s, a, k, e(k), if a.Rename? then e(a.from) else 0);
    }
  }

  /** The jobs of a target keep what it has earned: while one is live, only its own end moves that. */
  lemma LiveJobIsApart(s: State, h: History, a: Action, id: JobId)
    requires Inv(s, h) && Enabled(s, a) && Permitted(s, h, a) && id in s.flights && IsLive(s.flights[id].phase)
    ensures
      var k := s.flights[id].job.key;
      && k in s.progress && (a.Rename? ==> k != a.from && k != a.to)
      && (a.Finish? && s.flights[a.id].job.key == k ==> a.id == id)
      && (a == Enter(id) ==> s.progress[k].status != Running)
  {
    assert StatusFits(s, h, s.flights[id]);
  }

  lemma JobStaysEarned(s: State, h: History, a: Action, e: Key -> Time, f: Key -> Time, id: JobId)
    requires Inv(s, h) && Enabled(s, a) && Permitted(s, h, a) && AllEarned(s, e) && EarnsOn(s, a, e, f)
    requires id in NextFlights(s, a)
    ensures JobIsEarned(NextFlights(s, a)[id], f(NextFlights(s, a)[id].job.key))
  {
    FlightComesFrom(s, a, id);
    var flight := NextFlights(s, a)[id];
    if id in s.flights && IsLive(s.flights[id].phase) {
      LiveJobIsApart(s, h, a, id);
      FlightExits(s, a, id);
      assert JobIsEarned(s.flights[id], e(s.flights[id].job.key));
    }
  }

  lemma StaysEarned(s: State, h: History, a: Action, e: Key -> Time, f: Key -> Time)
    requires Inv(s, h) && Enabled(s, a) && Permitted(s, h, a) && AllEarned(s, e) && EarnsOn(s, a, e, f)
    ensures AllEarned(Apply(s, a), f)
  {
    var t := Apply(s, a);
    forall k | k in t.progress && t.progress[k].status != Running ensures t.progress[k].updatedAt == f(k) {
      EntryStaysEarned(s, a, e, f, k);
    }
    forall id | id in t.flights ensures JobIsEarned(t.flights[id], f(t.flights[id].job.key)) {
      JobStaysEarned(s, h, a, e, f, id);
    }
  }

  lemma {:induction false} RunStaysEarned(states: seq<State>, histories: seq<History>, actions: seq<Action>, i: nat)
    requires IsRun(states, histories, actions) && i <= |actions|
    ensures AllEarned(states[i], k => Earned(states, actions, i, k))
  {
    if i > 0 {
      RunStaysEarned(states, histories, actions, i - 1);
      Safety.RunKeepsInv(states, histories, actions, i - 1);
      assert IsStep(states[i - 1], histories[i - 1], actions[i - 1], states[i], histories[i]);
      StaysEarned(states[i - 1], histories[i - 1], actions[i - 1], k => Earned(states, actions, i - 1, k),
                  k => Earned(states, actions, i, k));
    }
  }

  /**
   At every moment of every run: a target that is not running has as its watermark exactly what it has earned, the
   start of its last run that succeeded since it was loaded; its job asks for what is newer, and its run, should it
   fail, will put it back.
   */
  lemma WatermarkIsEarned(states: seq<State>, histories: seq<History>, actions: seq<Action>, i: nat)
    requires IsRun(states, histories, actions) && i <= |actions|
    ensures forall k | k in states[i].progress && states[i].progress[k].status != Running ::
              states[i].progress[k].updatedAt == Earned(states, actions, i, k)
    ensures forall id | id in states[i].flights && IsLive(states[i].flights[id].phase) ::
              var flight, earned := states[i].flights[id], Earned(states, actions, i, states[i].flights[id].job.key);
              && flight.job.lastSync == (if flight.job.forced then 0 else earned)
              && (InRun(flight.phase) ==> flight.phase.prev == earned)
  {
    RunStaysEarned(states, histories, actions, i);
    forall id | id in states[i].flights
      ensures JobIsEarned(states[i].flights[id], Earned(states, actions, i, states[i].flights[id].job.key))
    {
    }
  }

  /** A success publishes its start, and the target keeps it until its next success, a rename or the process dies. */
  lemma {:induction false} SuccessAdvances(
    states: seq<State>, histories: seq<History>, actions: seq<Action>, j: nat, i: nat, k: Key)
    requires IsRun(states, histories, actions) && j < i <= |actions|
    requires IsSuccess(states[j], actions[j], k)
    requires forall m | j < m < i ::
               && !actions[m].Crash? && (actions[m].Rename? ==> actions[m].from != k && actions[m].to != k)
               && !IsSuccess(states[m], actions[m], k)
    ensures k in states[i].progress && Earned(states, actions, i, k) == states[j].flights[actions[j].id].phase.start
    ensures states[i].progress[k].status != Running ==>
              states[i].progress[k].updatedAt == states[j].flights[actions[j].id].phase.start
  {
    assert IsStep(states[i - 1], histories[i - 1], actions[i - 1], states[i], histories[i]);
    if i > j + 1 {
      SuccessAdvances(states, histories, actions, j, i - 1, k);
    }
    WatermarkIsEarned(states, histories, actions, i);
  }

  /** What a step makes of a stored watermark: nothing, or what the target has earned; or one of the four named. */
  lemma RowComesToHold(states: seq<State>, histories: seq<History>, actions: seq<Action>, i: nat, k: Key)
    requires IsRun(states, histories, actions) && i < |actions| && k in states[i + 1].rows
    ensures
      var s, a, at := states[i], actions[i], states[i + 1].rows[k].at;
      || (k in s.rows && at == s.rows[k].at)
      || at == Earned(states, actions, i + 1, k)
      || (a == AddAccount(k) && at == 0)
      || (a.ClearTarget? && a.key == k && at == 0)
      || (a.WriteQueued? && s.late[a.id].key == k && at == s.late[a.id].at)
      || (a.Rename? && a.to == k && a.from in s.rows && at == s.rows[a.from].at)
    ensures
      var s, a := states[i], actions[i];
      a.Finish? && a.saved && s.flights[a.id].job.key == k ==>
        states[i + 1].rows[k].at == Earned(states, actions, i + 1, k)
  {
    var s, a := states[i], actions[i];
    assert IsStep(s, histories[i], a, states[i + 1], histories[i + 1]);
    WatermarkIsEarned(states, histories, actions, i);
    WatermarkIsEarned(states, histories, actions, i + 1);
    if a.Finish? && s.flights[a.id].job.key == k {
      FinishPublishes(s, a.id, a.saved);
    } else {
      RowComesFrom(s, a, k);
    }
  }
}
