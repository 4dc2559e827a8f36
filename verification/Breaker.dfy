/** The circuit breaker: what an expired session stops, and for how long. */
module Breaker {
  import opened Basics
  import opened Protocol
  import opened Invariants

  const SIX_HOURS: Time := 21_600_000_000_000

  /** A scrape of the platform has come back with an expired session. */
  predicate IsFlagged(s: State, a: Action, platform: string) {
    && a.Trip? && a.id in s.flights && s.flights[a.id].phase.Returned?
    && s.flights[a.id].job.key.platform == platform && platform in {"instagram", "twitter"}
    && s.flights[a.id].phase.outcome.Failure? && s.flights[a.id].phase.outcome.auth
  }

  /** Only that blocks a platform, only the one, and for six hours. */
  lemma TripIsExact(s: State, id: JobId, platform: string)
    requires Enabled(s, Trip(id))
    ensures
      var t := Apply(s, Trip(id));
      if IsFlagged(s, Trip(id), platform) then
        platform in t.blockUntil && t.blockUntil[platform] == s.now + SIX_HOURS
      else
        && (platform in t.blockUntil <==> platform in s.blockUntil)
        && (platform in s.blockUntil ==> t.blockUntil[platform] == s.blockUntil[platform])
  {
  }

  lemma BlockStays(s: State, a: Action, platform: string, until: Time)
    requires Enabled(s, a) && !a.Crash? && !a.ResetBlocks?
    requires platform in s.blockUntil && s.blockUntil[platform] >= until && until <= s.now + SIX_HOURS
    ensures platform in NextBlocks(s, a) && NextBlocks(s, a)[platform] >= until
    ensures until <= NextNow(s, a) + SIX_HOURS
  {
  }

  lemma {:induction false} BlockHolds(
    states: seq<State>, histories: seq<History>, actions: seq<Action>, j: nat, i: nat, platform: string)
    requires IsRun(states, histories, actions) && j < i <= |actions| && IsFlagged(states[j], actions[j], platform)
    requires forall m | j < m < i :: !actions[m].Crash? && !actions[m].ResetBlocks?
    ensures platform in states[i].blockUntil && states[i].blockUntil[platform] >= states[j].now + SIX_HOURS
    ensures states[j].now + SIX_HOURS <= states[i].now + SIX_HOURS
  {
    assert IsStep(states[i - 1], histories[i - 1], actions[i - 1], states[i], histories[i]);
    if i > j + 1 {
      BlockHolds(states, histories, actions, j, i - 1, platform);
      BlockStays(states[i - 1], actions[i - 1], platform, states[j].now + SIX_HOURS);
    } else {
      TripIsExact(states[j], actions[j].id, platform);
    }
  }

  /**
   For six hours after an expired session no start on the platform makes a job, unless the session settings are saved
   anew or the process dies.
   */
  lemma FlaggedPlatformRests(
    states: seq<State>, histories: seq<History>, actions: seq<Action>, j: nat, i: nat, platform: string)
    requires IsRun(states, histories, actions) && j < i < |actions| && IsFlagged(states[j], actions[j], platform)
    requires forall m | j < m < i :: !actions[m].Crash? && !actions[m].ResetBlocks?
    requires states[i].now < states[j].now + SIX_HOURS && actions[i].Start? && actions[i].key.platform == platform
    ensures states[i + 1].flights == states[i].flights && states[i + 1].nextId == states[i].nextId
  {
    BlockHolds(states, histories, actions, j, i, platform);
    assert IsStep(states[i], histories[i], actions[i], states[i + 1], histories[i + 1]);
  }

  /** And it stops no other platform: whatever blocks one was an expired session of that platform. */
  lemma {:induction false} BlockComesFrom(
    states: seq<State>, histories: seq<History>, actions: seq<Action>, i: nat, platform: string)
    returns (j: nat)
    requires IsRun(states, histories, actions) && i <= |actions| && states[0].blockUntil == map[]
    requires platform in states[i].blockUntil
    ensures j < i && IsFlagged(states[j], actions[j], platform)
    ensures states[i].blockUntil[platform] == states[j].now + SIX_HOURS
  {
    var s, a := states[i - 1], actions[i - 1];
    assert IsStep(s, histories[i - 1], a, states[i], histories[i]);
    if IsFlagged(s, a, platform) {
      j := i - 1;
    } else {
      if a.Trip? { TripIsExact(s, a.id, platform); }
      j := BlockComesFrom(states, histories, actions, i - 1, platform);
    }
  }

  /** Saving the session settings anew lifts every block, and does nothing else: an inactive target can be started. */
  lemma ResetLetsStart(s: State, k: Key, force: bool, backfill: bool)
    requires k in s.progress ==> s.progress[k].status != Queued && s.progress[k].status != Running
    ensures
      var t := Apply(s, ResetBlocks);
      && Apply(t, Start(k, force, backfill)).nextId == s.nextId + 1
      && t.progress == s.progress && t.rows == s.rows && t.flights == s.flights && t.fullResync == s.fullResync
  {
  }
}
