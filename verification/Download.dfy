/** Concurrent downloads to one path: requests, a temporary file each, and the rename that commits it. */
module Download {
  import opened Basics

  type Bytes = seq<nat>

  /** An OK answer and the body meant by it; `declared` when it came with a content length, then that of the body. */
  datatype Response = Response(body: Bytes, declared: bool)

  datatype Answer = NetError | Status(code: int) | Answered(response: Response)

  datatype Outcome = Downloaded | Existing | Failed

  /** Where one call of File is. Temporary files are named by the call that made them. */
  datatype Phase =
    | Begin
    | Requesting
    | HasBody(response: Response)
    | Copying(response: Response)
    | Copied(response: Response)
    | Sized(response: Response)
    | Closed(response: Response)
    | Cleaning
    | Done(outcome: Outcome)
    | Killed

  datatype Call = Call(phase: Phase, requests: nat)

  /**
   The rest is history: `writer` is the call that put the path there, `responses` what each call was answered, `short`
   the calls whose copy ended early without an error, `unchecked` those whose size was not compared with a length.
   */
  datatype State = State(
    dst: Option<Bytes>, temps: map<nat, Bytes>, calls: seq<Call>,
    writer: Option<nat>, responses: map<nat, Response>, short: set<nat>, unchecked: set<nat>)

  datatype Action =
    | Open
    | Look(i: nat)
    | GiveUp(i: nat)
    | Ask(i: nat, answer: Answer)
    | CreateTemp(i: nat, ok: bool)
    | Write(i: nat, upTo: nat)
    | EndCopy(i: nat, ok: bool)
    | CheckSize(i: nat, readable: bool)
    | Close(i: nat, ok: bool)
    | Rename(i: nat, ok: bool)
    | CleanUp(i: nat)
    | Crash

  const MAX_REQUESTS := 3

  predicate IsRetryable(a: Answer) {
    a.NetError? || (a.Status? && a.code >= 500)
  }

  predicate HasTemp(p: Phase) {
    p.Copying? || p.Copied? || p.Sized? || p.Closed? || p.Cleaning?
  }

  predicate Enabled(s: State, a: Action) {
    if a.Open? || a.Crash? then true
    else
      a.i < |s.calls| &&
      var p := s.calls[a.i].phase;
      match a
      case Look(_) => p.Begin?
      case GiveUp(_) => p.Requesting?
      case Ask(_, answer) =>
        p.Requesting? && s.calls[a.i].requests < MAX_REQUESTS && (answer.Status? ==> answer.code != 200)
      case CreateTemp(i, _) => p.HasBody? && i !in s.temps
      case Write(i, upTo) => p.Copying? && i in s.temps && |s.temps[i]| <= upTo <= |p.response.body|
      case EndCopy(i, _) => p.Copying? && i in s.temps
      case CheckSize(i, _) => p.Copied? && i in s.temps
      case Close(_, _) => p.Sized?
      case Rename(i, _) => p.Closed? && i in s.temps
      case CleanUp(_) => p.Cleaning?
  }

  function NextPhase(s: State, a: Action): Phase
    requires Enabled(s, a) && !a.Open? && !a.Crash?
  {
    var c := s.calls[a.i];
    match a
    case Look(_) => if s.dst.Some? then Done(Existing) else Requesting
    case GiveUp(_) => Done(Failed)
    case Ask(_, answer) =>
      if answer.Answered? then HasBody(answer.response)
      else if !IsRetryable(answer) || c.requests + 1 == MAX_REQUESTS then Done(Failed)
      else Requesting
    case CreateTemp(_, ok) => if ok then Copying(c.phase.response) else Done(Failed)
    case Write(_, _) => c.phase
    case EndCopy(_, ok) => if ok then Copied(c.phase.response) else Cleaning
    case CheckSize(i, readable) =>
      if IsCompared(s, a) && |s.temps[i]| != |c.phase.response.body| then Cleaning
      else Sized(c.phase.response)
    case Close(_, ok) => if ok then Closed(c.phase.response) else Cleaning
    case Rename(_, ok) => if ok then Done(Downloaded) else Cleaning
    case CleanUp(_) => Done(Failed)
  }

  function Kill(c: Call): Call {
    if c.phase.Done? then c else c.(phase := Killed)
  }

  function NextCalls(s: State, a: Action): seq<Call>
    requires Enabled(s, a)
  {
    match a
    case Open => s.calls + [Call(Begin, 0)]
    case Crash => seq(|s.calls|, i requires 0 <= i < |s.calls| => Kill(s.calls[i]))
    case _ =>
      var c := s.calls[a.i];
      s.calls[a.i := Call(NextPhase(s, a), if a.Ask? then c.requests + 1 else c.requests)]
  }

  function NextTemps(s: State, a: Action): map<nat, Bytes>
    requires Enabled(s, a)
  {
    match a
    case CreateTemp(i, ok) => if ok then s.temps[i := []] else s.temps
    case Write(i, upTo) => s.temps[i := s.calls[i].phase.response.body[..upTo]]
    case Rename(i, ok) => if ok then s.temps - {i} else s.temps
    case CleanUp(i) => s.temps - {i}
    case _ => s.temps
  }

  function NextDst(s: State, a: Action): Option<Bytes>
    requires Enabled(s, a)
  {
    if a.Rename? && a.ok then Some(s.temps[a.i]) else s.dst
  }

  /** The size of the copy is compared with a content length. */
  predicate IsCompared(s: State, a: Action)
    requires Enabled(s, a) && a.CheckSize?
  {
    a.readable && s.calls[a.i].phase.response.declared
  }

  function Apply(s: State, a: Action): State
    requires Enabled(s, a)
  {
    State(NextDst(s, a), NextTemps(s, a), NextCalls(s, a),
          if a.Rename? && a.ok then Some(a.i) else s.writer,
          if a.Ask? && a.answer.Answered? then s.responses[a.i := a.answer.response] else s.responses,
          if a.EndCopy? && a.ok && s.temps[a.i] != s.calls[a.i].phase.response.body then s.short + {a.i} else s.short,
          if a.CheckSize? && !IsCompared(s, a) then s.unchecked + {a.i} else s.unchecked)
  }

  const EMPTY := State(None, map[], [], None, map[], {}, {})

  ghost predicate IsRun(states: seq<State>, actions: seq<Action>) {
    && |states| == |actions| + 1
    && states[0] == EMPTY
    && forall k | 0 <= k < |actions| :: Enabled(states[k], actions[k]) && states[k + 1] == Apply(states[k], actions[k])
  }

  // ---------------------------------------------------------------- what every step keeps

  predicate HasResponse(p: Phase) {
    p.HasBody? || p.Copying? || p.Copied? || p.Sized? || p.Closed?
  }

  /** The copy of call `i` is short, and nothing has noticed. */
  predicate IsUnnoticed(s: State, i: nat) {
    i in s.short && i in s.unchecked
  }

  /** A call's temporary file holds a first part of its response, and after the check all of it but for one case. */
  predicate CallFits(s: State, i: nat)
    requires i < |s.calls|
  {
    var c := s.calls[i];
    && c.requests <= MAX_REQUESTS && (c.phase.Begin? ==> c.requests == 0)
    && (c.phase.Requesting? ==> c.requests < MAX_REQUESTS)
    && (HasTemp(c.phase) ==> i in s.temps)
    && (i in s.temps ==> HasTemp(c.phase) || c.phase.Killed?)
    && (HasResponse(c.phase) ==> i in s.responses && s.responses[i] == c.phase.response)
    && (c.phase.Copying? || c.phase.Copied? || c.phase.Sized? || c.phase.Closed? ==>
          s.temps[i] <= c.phase.response.body)
    && (c.phase.Begin? || c.phase.Requesting? || c.phase.HasBody? || c.phase.Copying? ==> i !in s.short)
    && (c.phase.Copied? ==> (i in s.short <==> s.temps[i] != c.phase.response.body))
    && (c.phase.Sized? || c.phase.Closed? ==> (IsUnnoticed(s, i) <==> s.temps[i] != c.phase.response.body))
  }

  /** What the path holds is a first part of the body its writer was answered; all of it, but for one case. */
  predicate DstFits(s: State) {
    && (s.dst.Some? <==> s.writer.Some?)
    && (s.dst.Some? ==>
          var w := s.writer.value;
          && w < |s.calls| && s.calls[w].phase == Done(Downloaded) && w in s.responses
          && s.dst.value <= s.responses[w].body
          && (s.dst.value == s.responses[w].body <==> !IsUnnoticed(s, w)))
  }

  /** The calls some record speaks of. */
  function Known(s: State): set<nat> {
    s.temps.Keys + s.responses.Keys + s.short + s.unchecked
  }

  ghost predicate Inv(s: State) {
    && (forall i | 0 <= i < |s.calls| :: CallFits(s, i))
    && (forall i | i in Known(s) :: i < |s.calls|)
    && DstFits(s)
  }

  lemma OwnStepFits(s: State, a: Action)
    requires Enabled(s, a) && !a.Open? && !a.Crash? && CallFits(s, a.i)
    ensures CallFits(Apply(s, a), a.i)
  {
    if a.CheckSize? && |s.temps[a.i]| == |s.calls[a.i].phase.response.body| {
      assert s.temps[a.i] == s.calls[a.i].phase.response.body;
    }
  }

  lemma OthersFit(s: State, a: Action, i: nat)
    requires Enabled(s, a) && !a.Open? && i < |s.calls| && CallFits(s, i)
    requires !a.Crash? ==> i != a.i
    ensures CallFits(Apply(s, a), i)
  {
  }

  /** A new call is known to no history. */
  lemma NewCallFits(s: State)
    requires Inv(s)
    ensures CallFits(Apply(s, Open), |s.calls|)
  {
    assert |s.calls| !in Known(s);
  }

  lemma DstStaysFit(s: State, a: Action)
    requires Inv(s) && Enabled(s, a)
    ensures DstFits(Apply(s, a))
  {
    if a.Rename? && a.ok {
      assert CallFits(s, a.i);
    }
  }

  lemma HistoryStays(s: State, a: Action, i: nat)
    requires Inv(s) && Enabled(s, a)
    requires i in Known(Apply(s, a))
    ensures i < |Apply(s, a).calls|
  {
    assert i in Known(s) || (!a.Open? && !a.Crash? && i == a.i);
  }

  lemma Preserved(s: State, a: Action)
    requires Inv(s) && Enabled(s, a)
    ensures Inv(Apply(s, a))
  {
    var t := Apply(s, a);
    DstStaysFit(s, a);
    forall i | i in Known(t) ensures i < |t.calls| {
      HistoryStays(s, a, i);
    }
    forall i | 0 <= i < |t.calls| ensures CallFits(t, i) {
      if a.Open? && i == |s.calls| {
        NewCallFits(s);
      } else {
        assert CallFits(s, i);
        if a.Open? {
          assert t.calls[i] == s.calls[i];
        } else if !a.Crash? && i == a.i {
          OwnStepFits(s, a);
        } else {
          OthersFit(s, a, i);
        }
      }
    }
  }

  lemma {:induction false} RunKeepsInv(states: seq<State>, actions: seq<Action>, k: nat)
    requires IsRun(states, actions) && k <= |actions|
    ensures Inv(states[k])
  {
    if k > 0 {
      RunKeepsInv(states, actions, k - 1);
      Preserved(states[k - 1], actions[k - 1]);
      assert states[k] == Apply(states[k - 1], actions[k - 1]);
    }
  }

  // ---------------------------------------------------------------- single steps, by what they leave

  /**
   The way of a call through its requests: a path that is there ends it; a body ends the asking; a network error or a
   status from 500 on is asked again until three requests are made, and any other status fails at once.
   */
  lemma AskingIsExact(s: State, i: nat, answer: Answer)
    requires i < |s.calls|
    ensures s.calls[i].phase.Begin? ==>
      Apply(s, Look(i)).calls[i].phase == if s.dst.Some? then Done(Existing) else Requesting
    ensures Enabled(s, Ask(i, answer)) ==>
      var n, phase := s.calls[i].requests + 1, Apply(s, Ask(i, answer)).calls[i].phase;
      && Apply(s, Ask(i, answer)).calls[i].requests == n <= 3
      && (answer.Answered? ==> phase == HasBody(answer.response))
      && (answer.NetError? ==> phase == if n < 3 then Requesting else Done(Failed))
      && (answer.Status? ==> phase == if answer.code >= 500 && n < 3 then Requesting else Done(Failed))
  {
  }

  /** The way of a body to the path: a length that is known and readable must be met, and only the rename shows it. */
  lemma CommitIsExact(s: State, i: nat, a: Action)
    requires Enabled(s, a) && !a.Open? && !a.Crash? && a.i == i
    ensures
      var t, phase := Apply(s, a), Apply(s, a).calls[i].phase;
      && (a.CheckSize? ==>
            var r := s.calls[i].phase.response;
            phase == if a.readable && r.declared && |s.temps[i]| != |r.body| then Cleaning else Sized(r))
      && (a.EndCopy? || a.Close? || a.Rename? ==> (phase.Cleaning? <==> !a.ok))
      && (a.Rename? && a.ok ==> t.dst == Some(s.temps[i]) && phase == Done(Downloaded) && i !in t.temps)
      && (!(a.Rename? && a.ok) ==> t.dst == s.dst)
      && (a.CleanUp? ==> phase == Done(Failed) && i !in t.temps)
  {
  }

  // ---------------------------------------------------------------- the promises

  /**
   At every moment, whatever calls run and wherever the process died, the path is absent or holds what one call
   copied: the whole body it was answered, unless that call's own copy was short and its size not compared.
   */
  lemma DestinationIsWhole(states: seq<State>, actions: seq<Action>, k: nat)
    requires IsRun(states, actions) && k <= |actions|
    ensures
      var s := states[k];
      && (s.dst.Some? <==> s.writer.Some?)
      && (s.dst.Some? ==>
            var w := s.writer.value;
            && w in s.responses && s.dst.value <= s.responses[w].body
            && (s.dst.value == s.responses[w].body <==> !(w in s.short && w in s.unchecked)))
  {
    RunKeepsInv(states, actions, k);
  }

  lemma {:induction false} UndeclaredIsUnchecked(states: seq<State>, actions: seq<Action>, k: nat, i: nat)
    requires IsRun(states, actions) && k <= |actions| && i < |states[k].calls|
    requires states[k].calls[i].phase == Done(Downloaded) || states[k].calls[i].phase.Sized?
      || states[k].calls[i].phase.Closed?
    requires i in states[k].responses && !states[k].responses[i].declared
    ensures i in states[k].unchecked
  {
    var s, a := states[k - 1], actions[k - 1];
    RunKeepsInv(states, actions, k - 1);
    assert states[k] == Apply(s, a);
    assert i < |s.calls|;
    assert CallFits(s, i);
    if !(!a.Open? && !a.Crash? && a.i == i && a.CheckSize?) {
      UndeclaredIsUnchecked(states, actions, k - 1, i);
    }
  }

  /** With a transport that reports a declared body cut short, the path is whole exactly if it was not cut. */
  lemma WholeIfNotCut(states: seq<State>, actions: seq<Action>, k: nat)
    requires IsRun(states, actions) && k <= |actions| && states[k].dst.Some?
    requires forall i | i in states[k].short && i in states[k].responses :: !states[k].responses[i].declared
    ensures
      var s := states[k];
      s.writer.Some? && s.writer.value in s.responses
      && (s.dst.value == s.responses[s.writer.value].body <==> s.writer.value !in s.short)
  {
    RunKeepsInv(states, actions, k);
    var w := states[k].writer.value;
    if w in states[k].short {
      UndeclaredIsUnchecked(states, actions, k, w);
    }
  }

  /** A call makes at most three requests, and a call that has returned left no temporary file. */
  lemma ReturnedCallsAreClean(states: seq<State>, actions: seq<Action>, k: nat, i: nat)
    requires IsRun(states, actions) && k <= |actions| && i < |states[k].calls|
    ensures states[k].calls[i].requests <= MAX_REQUESTS
    ensures states[k].calls[i].phase.Done? ==> i !in states[k].temps
  {
    RunKeepsInv(states, actions, k);
    assert CallFits(states[k], i);
  }

  predicate IsStepOf(a: Action, i: nat) {
    !a.Open? && !a.Crash? && a.i == i
  }

  lemma {:induction false} DoneStays(states: seq<State>, actions: seq<Action>, j: nat, k: nat, i: nat)
    requires IsRun(states, actions) && j <= k <= |actions| && i < |states[j].calls| && states[j].calls[i].phase.Done?
    ensures i < |states[k].calls| && states[k].calls[i] == states[j].calls[i]
  {
    if j < k {
      DoneStays(states, actions, j, k - 1, i);
      assert states[k] == Apply(states[k - 1], actions[k - 1]);
    }
  }

  /** A call that fails has not changed the path at any of its steps. */
  lemma FailureChangesNothing(states: seq<State>, actions: seq<Action>, k: nat, i: nat, j: nat)
    requires IsRun(states, actions) && k <= |actions| && i < |states[k].calls|
    requires states[k].calls[i].phase == Done(Failed)
    requires j < k && IsStepOf(actions[j], i)
    ensures states[j + 1].dst == states[j].dst
  {
    assert states[j + 1] == Apply(states[j], actions[j]);
    if actions[j].Rename? && actions[j].ok {
      assert states[j + 1].calls[i].phase == Done(Downloaded);
      DoneStays(states, actions, j + 1, k, i);
    }
  }

  /** Once there, the path stays there. */
  lemma {:induction false} DestinationStays(states: seq<State>, actions: seq<Action>, j: nat, k: nat)
    requires IsRun(states, actions) && j <= k <= |actions| && states[j].dst.Some?
    ensures states[k].dst.Some?
  {
    if j < k {
      DestinationStays(states, actions, j, k - 1);
      assert states[k] == Apply(states[k - 1], actions[k - 1]);
    }
  }

  function Play(actions: seq<Action>): Option<State> {
    if actions == [] then Some(EMPTY)
    else
      var before := Play(actions[..|actions| - 1]);
      var last := actions[|actions| - 1];
      if before.Some? && Enabled(before.value, last) then Some(Apply(before.value, last)) else None
  }

  lemma PlayOne(actions: seq<Action>, a: Action)
    requires Play(actions).Some? && Enabled(Play(actions).value, a)
    ensures Play(actions + [a]) == Some(Apply(Play(actions).value, a))
  {
    assert (actions + [a])[..|actions|] == actions;
  }

  /** What can be played is a run. */
  lemma {:induction false} PlayIsRun(actions: seq<Action>) returns (states: seq<State>)
    requires Play(actions).Some?
    ensures IsRun(states, actions) && states[|actions|] == Play(actions).value
  {
    if actions == [] {
      states := [EMPTY];
    } else {
      var last := |actions| - 1;
      var before := PlayIsRun(actions[..last]);
      states := before + [Play(actions).value];
      forall k | 0 <= k < |actions|
        ensures Enabled(states[k], actions[k]) && states[k + 1] == Apply(states[k], actions[k])
      {
        if k < last {
          assert actions[..last][k] == actions[k];
          assert before[k + 1] == Apply(before[k], actions[..last][k]);
        }
      }
    }
  }

  lemma PlayNext(actions: seq<Action>, a: Action, now: State, next: State)
    requires Play(actions) == Some(now) && Enabled(now, a) && Apply(now, a) == next
    ensures Play(actions + [a]) == Some(next)
  {
    PlayOne(actions, a);
  }

  /** One call, in the given phase, with what it has copied so far. */
  function Alone(phase: Phase, requests: nat, temp: Option<Bytes>, r: Option<Response>, short: bool): State {
    State(None, if temp.Some? then map[0 := temp.value] else map[], [Call(phase, requests)], None,
          if r.Some? then map[0 := r.value] else map[], if short then {0} else {}, {})
  }

  const BODY: Bytes := [1, 2]

  lemma AskOnce(r: Response) returns (actions: seq<Action>)
    ensures Play(actions) == Some(Alone(HasBody(r), 1, None, Some(r), false))
  {
    var s1, s2 := Alone(Begin, 0, None, None, false), Alone(Requesting, 0, None, None, false);
    PlayNext([], Open, EMPTY, s1);
    PlayNext([] + [Open], Look(0), s1, s2);
    actions := [] + [Open] + [Look(0)];
    PlayNext(actions, Ask(0, Answered(r)), s2, Alone(HasBody(r), 1, None, Some(r), false));
    actions := actions + [Ask(0, Answered(r))];
  }

  lemma CopyShort(r: Response) returns (actions: seq<Action>)
    requires r.body == BODY
    ensures Play(actions) == Some(Alone(Copied(r), 1, Some([1]), Some(r), true))
  {
    actions := AskOnce(r);
    var s3, s4 := Alone(HasBody(r), 1, None, Some(r), false), Alone(Copying(r), 1, Some([]), Some(r), false);
    var s5 := Alone(Copying(r), 1, Some([1]), Some(r), false);
    PlayNext(actions, CreateTemp(0, true), s3, s4);
    actions := actions + [CreateTemp(0, true)];
    assert r.body[..1] == [1];
    PlayNext(actions, Write(0, 1), s4, s5);
    actions := actions + [Write(0, 1)];
    PlayNext(actions, EndCopy(0, true), s5, Alone(Copied(r), 1, Some([1]), Some(r), true));
    actions := actions + [EndCopy(0, true)];
  }

  /**
   Both failures are real: half of a body is committed when it came without a length, and when it came with one but
   the size of the temporary file cannot be read.
   */
  lemma UncomparedSizeCommitsAShortBody(declared: bool, readable: bool)
    returns (states: seq<State>, actions: seq<Action>)
    requires !(declared && readable)
    ensures IsRun(states, actions)
    ensures states[|actions|].dst == Some([1])
    ensures states[|actions|].writer == Some(0) && states[|actions|].responses == map[0 := Response(BODY, declared)]
  {
    var r := Response(BODY, declared);
    actions := CopyShort(r);
    var copied := Alone(Copied(r), 1, Some([1]), Some(r), true);
    var sized := copied.(calls := [Call(Sized(r), 1)], unchecked := {0});
    PlayNext(actions, CheckSize(0, readable), copied, sized);
    actions := actions + [CheckSize(0, readable)];
    var closed := sized.(calls := [Call(Closed(r), 1)]);
    PlayNext(actions, Close(0, true), sized, closed);
    actions := actions + [Close(0, true)];
    PlayOne(actions, Rename(0, true));
    actions := actions + [Rename(0, true)];
    states := PlayIsRun(actions);
  }
}
