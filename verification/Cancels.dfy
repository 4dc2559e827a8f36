/**
 Cancelling: whom a cancel reaches, that it is not forgotten before it is delivered, and when one is lost.
 */
module Cancels {
  import opened Basics
  import opened Protocol
  import opened Invariants
  import Safety
  import Watermarks

  /** The stretch of a run in which its cancel function can be found: from its registration to its result. */
  predicate CanHear(phase: Phase) {
    phase.Armed? || phase.Stamped? || phase.Scraping? || phase.Returned? || phase.Settling?
  }

  /** The run's cancel function was called, or a caller holds it and is about to. */
  predicate IsReached(s: State, id: JobId) {
    id in s.firing || id in s.cancelled
  }

  predicate IsRegistered(s: State, id: JobId)
    requires id in s.flights
  {
    s.flights[id].job.key in s.cancels && s.cancels[s.flights[id].job.key] == id
  }

  /** The step asks for the end of every run, or of the runs of that name. */
  predicate AsksToCancel(a: Action, k: Key) {
    a.CancelAll? || (a.Cancel? && k.user == a.user && (a.platform == "" || k.platform == a.platform))
  }

  /** No run that could be cancelled is out of reach. */
  ghost predicate NoneForgotten(s: State) {
    forall id | id in s.flights && CanHear(s.flights[id].phase) :: IsRegistered(s, id) || IsReached(s, id)
  }

  lemma ReachedStays(s: State, a: Action, id: JobId)
    requires Enabled(s, a) && !a.Crash? && IsReached(s, id)
    ensures IsReached(Apply(s, a), id) && (id in s.cancelled ==> id in Apply(s, a).cancelled)
    ensures a == Fire(id) ==> id in Apply(s, a).cancelled && id !in Apply(s, a).firing
  {
  }

  lemma JobStays(s: State, h: History, a: Action, id: JobId)
    requires Inv(s, h) && Enabled(s, a) && id in s.flights && id in NextFlights(s, a)
    ensures NextFlights(s, a)[id].job == s.flights[id].job
  {
    FlightComesFrom(s, a, id);
    assert id < s.nextId;
  }

  lemma PhaseRegisters(s: State, a: Action)
    requires Enabled(s, a) && (a.Send? || (IsWorkerStep(a) && !a.Release?))
    requires CanHear(NextPhase(s, a)) && !CanHear(s.flights[a.id].phase)
    ensures a.Arm?
  {
  }

  lemma OthersStand(s: State, a: Action, id: JobId)
    requires IdsAreFresh(s) && Enabled(s, a) && id in s.flights && id in NextFlights(s, a)
    ensures ((a.Send? || (IsWorkerStep(a) && !a.Release?)) && a.id == id) || NextFlights(s, a)[id] == s.flights[id]
  {
    assert id < s.nextId;
  }

  lemma RunRegisters(s: State, h: History, a: Action, id: JobId)
    requires Inv(s, h) && Enabled(s, a) && id in s.flights && id in NextFlights(s, a)
    requires CanHear(NextFlights(s, a)[id].phase) && !CanHear(s.flights[id].phase)
    ensures a == Arm(id)
  {
    OthersStand(s, a, id);
    PhaseRegisters(s, a);
  }

  /** A run is in reach from the step that registers it, and nothing but a cancel takes its function away. */
  lemma RunIsNotForgotten(s: State, h: History, a: Action, id: JobId)
    requires Inv(s, h) && Enabled(s, a) && !a.Crash? && id in s.flights && id in NextFlights(s, a)
    requires CanHear(NextFlights(s, a)[id].phase)
    requires CanHear(s.flights[id].phase) ==> IsRegistered(s, id) || IsReached(s, id)
    ensures IsRegistered(Apply(s, a), id) || IsReached(Apply(s, a), id)
  {
    JobStays(s, h, a, id);
    if !CanHear(s.flights[id].phase) {
      RunRegisters(s, h, a, id);
    } else if IsReached(s, id) {
      ReachedStays(s, a, id);
    } else {
      RegisteredStays(s, h, a, id);
    }
  }

  lemma RegistrationMoves(s: State, a: Action, k: Key, id: JobId)
    requires Enabled(s, a) && !a.Crash? && k in s.cancels && s.cancels[k] == id
    requires a.Arm? || a.Finish? ==> s.flights[a.id].job.key != k
    ensures
      (k in NextCancels(s, a) && NextCancels(s, a)[k] == id) || id in NextFiring(s, a) || id in NextCancelled(s, a)
  {
  }

  lemma RunIsApart(s: State, a: Action, id: JobId)
    requires OneJobEach(s) && Enabled(s, a) && (a.Arm? || a.Finish?) && id in s.flights && id in NextFlights(s, a)
    requires CanHear(s.flights[id].phase) && CanHear(NextFlights(s, a)[id].phase)
    ensures s.flights[a.id].job.key != s.flights[id].job.key
  {
    assert a.id != id && IsLive(s.flights[a.id].phase);
  }

  lemma RegisteredStays(s: State, h: History, a: Action, id: JobId)
    requires Inv(s, h) && Enabled(s, a) && !a.Crash? && id in s.flights && id in NextFlights(s, a)
    requires CanHear(s.flights[id].phase) && CanHear(NextFlights(s, a)[id].phase) && IsRegistered(s, id)
    requires NextFlights(s, a)[id].job == s.flights[id].job
    ensures IsRegistered(Apply(s, a), id) || IsReached(Apply(s, a), id)
  {
    if a.Arm? || a.Finish? {
      RunIsApart(s, a, id);
    }
    RegistrationMoves(s, a, s.flights[id].job.key, id);
  }

  lemma NoneIsForgotten(s: State, h: History, a: Action)
    requires Inv(s, h) && Enabled(s, a) && NoneForgotten(s)
    ensures NoneForgotten(Apply(s, a))
  {
    var t := Apply(s, a);
    forall id | id in t.flights && CanHear(t.flights[id].phase) ensures IsRegistered(t, id) || IsReached(t, id) {
      FlightComesFrom(s, a, id);
      RunIsNotForgotten(s, h, a, id);
    }
  }

  /** In every state of every run, each run past its registration is in reach of a cancel or was reached by one. */
  lemma {:induction false} RunsStayInReach(
    states: seq<State>, histories: seq<History>, actions: seq<Action>, i: nat)
    requires IsRun(states, histories, actions) && i <= |actions|
    ensures NoneForgotten(states[i])
  {
    if i > 0 {
      RunsStayInReach(states, histories, actions, i - 1);
      Safety.RunKeepsInv(states, histories, actions, i - 1);
      assert IsStep(states[i - 1], histories[i - 1], actions[i - 1], states[i], histories[i]);
      NoneIsForgotten(states[i - 1], histories[i - 1], actions[i - 1]);
    }
  }

  /**
   Whom a cancel reaches: of the targets it names, exactly the runs past their registration. One that has set "running"
   and not registered yet is missed, though the target is shown as running.
   */
  lemma CancelReachesExactly(
    states: seq<State>, histories: seq<History>, actions: seq<Action>, i: nat, a: Action, id: JobId)
    requires IsRun(states, histories, actions) && i <= |actions| && (a.Cancel? || a.CancelAll?)
    requires id in states[i].flights && !IsReached(states[i], id)
    ensures Enabled(states[i], a)
    ensures
      var flight := states[i].flights[id];
      IsReached(Apply(states[i], a), id) <==> CanHear(flight.phase) && AsksToCancel(a, flight.job.key)
  {
    RunsStayInReach(states, histories, actions, i);
    Safety.RunKeepsInv(states, histories, actions, i);
    if CanHear(states[i].flights[id].phase) {
      assert StatusFits(states[i], histories[i], states[i].flights[id]);
      CancelTakes(states[i], a, id);
    } else {
      CancelMisses(states[i], a, id);
    }
  }

  /** A registered run is taken by the cancels that name its target. */
  lemma CancelTakes(s: State, a: Action, id: JobId)
    requires (a.Cancel? || a.CancelAll?) && CancelsFit(s) && id in s.flights && !IsReached(s, id) && IsRegistered(s, id)
    requires s.flights[id].job.key in s.progress
    ensures IsReached(Apply(s, a), id) <==> AsksToCancel(a, s.flights[id].job.key)
  {
    var k := s.flights[id].job.key;
    forall j | j in s.cancels && s.cancels[j] == id ensures j == k { assert CancelFits(s.flights, j, id); }
    assert a.Cancel? && AsksToCancel(a, k) ==> k in Named(s, s.progress.Keys, a.platform, a.user);
  }

  lemma CancelMisses(s: State, a: Action, id: JobId)
    requires (a.Cancel? || a.CancelAll?) && CancelsFit(s) && id in s.flights && !IsReached(s, id)
    requires !CanHear(s.flights[id].phase)
    ensures !IsReached(Apply(s, a), id)
  {
    forall j | j in s.cancels ensures s.cancels[j] != id { assert CancelFits(s.flights, j, s.cancels[j]); }
  }

  /** Once reached, a run stays so until the process dies: its function is called, and only by that stops waiting. */
  lemma {:induction false} ReachedForGood(
    states: seq<State>, histories: seq<History>, actions: seq<Action>, j: nat, i: nat, id: JobId)
    requires IsRun(states, histories, actions) && j <= i <= |actions| && IsReached(states[j], id)
    requires forall m | j <= m < i :: !actions[m].Crash?
    ensures IsReached(states[i], id)
    ensures (exists m | j <= m < i :: actions[m] == Fire(id)) ==> id in states[i].cancelled
  {
    if j < i {
      ReachedForGood(states, histories, actions, j, i - 1, id);
      assert IsStep(states[i - 1], histories[i - 1], actions[i - 1], states[i], histories[i]);
      ReachedStays(states[i - 1], actions[i - 1], id);
    }
  }

  /** No run is ended that nobody asked to end: some step named its target while it could hear. */
  lemma {:induction false} ReachedByRequest(
    states: seq<State>, histories: seq<History>, actions: seq<Action>, i: nat, id: JobId)
    returns (j: nat)
    requires IsRun(states, histories, actions) && i <= |actions| && IsReached(states[i], id)
    requires states[0].firing == {} && states[0].cancelled == {}
    ensures j < i && id in states[j].flights && CanHear(states[j].flights[id].phase)
    ensures AsksToCancel(actions[j], states[j].flights[id].job.key)
  {
    var s, a := states[i - 1], actions[i - 1];
    assert IsStep(s, histories[i - 1], a, states[i], histories[i]);
    if IsReached(s, id) {
      j := ReachedByRequest(states, histories, actions, i - 1, id);
    } else {
      j := i - 1;
      Safety.RunKeepsInv(states, histories, actions, j);
      var k :| k in s.cancels && s.cancels[k] == id && AsksToCancel(a, k);
      assert CancelFits(s.flights, k, id);
    }
  }

  /**
   A run that publishes a failure leaves its target idle, not failed, exactly when it was cancelled; and then somebody
   asked for that.
   */
  lemma IdleMeansCancelled(states: seq<State>, histories: seq<History>, actions: seq<Action>, i: nat)
    returns (j: nat)
    requires IsRun(states, histories, actions) && i < |actions| && actions[i].Finish? && Enabled(states[i], actions[i])
    requires states[i].flights[actions[i].id].phase.outcome.Failure?
    requires states[0].firing == {} && states[0].cancelled == {}
    ensures
      var id, k := actions[i].id, states[i].flights[actions[i].id].job.key;
      && k in states[i + 1].progress
      && states[i + 1].progress[k].status == (if id in states[i].cancelled then Idle else Failed)
      && (states[i + 1].progress[k].status == Idle ==>
            j < i && id in states[j].flights && AsksToCancel(actions[j], states[j].flights[id].job.key))
  {
    var a := actions[i];
    assert IsStep(states[i], histories[i], a, states[i + 1], histories[i + 1]);
    Watermarks.FinishPublishes(states[i], a.id, a.saved);
    j := 0;
    if a.id in states[i].cancelled {
      j := ReachedByRequest(states, histories, actions, i, a.id);
    }
  }
}
