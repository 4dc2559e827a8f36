/** The download pool: workers drain a channel and tally what became of each job. */
module Pool {

  datatype Result = Skipped | Downloaded | Failed

  /**
   `hands` holds the jobs workers are busy with. `sent` and `log` are history: what went into the channel, and
   what each finished job came to.
   */
  datatype State<T> = State(
    queue: seq<T>, closed: bool, hands: seq<T>, downloaded: nat, skipped: nat, failed: nat,
    sent: seq<T>, log: seq<(T, Result)>)

  /** `Finish(i, r)`: the worker with job `i` counts it; a job received after cancellation counts as Failed. */
  datatype Action<T> = Send(item: T) | Close | Receive | Finish(i: nat, result: Result)

  predicate Enabled<T>(s: State<T>, a: Action<T>, workers: nat) {
    match a
    case Send(_) => !s.closed
    case Close => !s.closed
    case Receive => s.queue != [] && |s.hands| < workers
    case Finish(i, _) => i < |s.hands|
  }

  function Apply<T>(s: State<T>, a: Action<T>, workers: nat): State<T>
    requires Enabled(s, a, workers)
  {
    match a
    case Send(item) => s.(queue := s.queue + [item], sent := s.sent + [item])
    case Close => s.(closed := true)
    case Receive => s.(queue := s.queue[1..], hands := s.hands + [s.queue[0]])
    case Finish(i, result) =>
      var t := s.(hands := s.hands[..i] + s.hands[i + 1..], log := s.log + [(s.hands[i], result)]);
      match result
      case Downloaded => t.(downloaded := s.downloaded + 1)
      case Failed => t.(failed := s.failed + 1)
      case Skipped => t.(skipped := s.skipped + 1)
  }

  ghost predicate IsRun<T>(states: seq<State<T>>, actions: seq<Action<T>>, workers: nat) {
    && |states| == |actions| + 1
    && states[0] == State([], false, [], 0, 0, 0, [], [])
    && forall i | 0 <= i < |actions| ::
         Enabled(states[i], actions[i], workers) && states[i + 1] == Apply(states[i], actions[i], workers)
  }

  /** Wait returns: the channel is closed and drained, and no worker holds a job. */
  predicate IsDone<T>(s: State<T>) {
    s.closed && s.queue == [] && s.hands == []
  }

  function Items<T>(log: seq<(T, Result)>): seq<T> {
    if log == [] then [] else Items(log[..|log| - 1]) + [log[|log| - 1].0]
  }

  function Count<T>(log: seq<(T, Result)>, r: Result): nat {
    if log == [] then 0 else Count(log[..|log| - 1], r) + if log[|log| - 1].1 == r then 1 else 0
  }

  /** Every job sent is queued, held or finished, once. */
  ghost predicate NoneLost<T>(s: State<T>) {
    multiset(s.sent) == multiset(s.queue) + multiset(s.hands) + multiset(Items(s.log))
  }

  /** The tallies count the finished jobs. */
  predicate TalliesFit<T>(s: State<T>) {
    && s.downloaded == Count(s.log, Downloaded)
    && s.skipped == Count(s.log, Skipped)
    && s.failed == Count(s.log, Failed)
  }

  ghost predicate Inv<T>(s: State<T>) {
    NoneLost(s) && TalliesFit(s)
  }

  lemma ReceivedKeepsInv<T>(s: State<T>, workers: nat)
    requires Inv(s) && Enabled(s, Receive, workers)
    ensures Inv(Apply(s, Receive, workers))
  {
    assert s.queue == [s.queue[0]] + s.queue[1..];
    assert multiset(s.queue) == multiset{s.queue[0]} + multiset(s.queue[1..]);
    assert multiset(s.hands + [s.queue[0]]) == multiset(s.hands) + multiset{s.queue[0]};
  }

  lemma WithoutOne<T>(s: seq<T>, i: nat)
    requires i < |s|
    ensures multiset(s) == multiset(s[..i] + s[i + 1..]) + multiset{s[i]}
  {
    assert s == s[..i] + [s[i]] + s[i + 1..];
  }

  lemma ItemsGrow<T>(log: seq<(T, Result)>, item: T, result: Result)
    ensures Items(log + [(item, result)]) == Items(log) + [item]
  {
    assert (log + [(item, result)])[..|log|] == log;
  }

  lemma CountGrows<T>(log: seq<(T, Result)>, item: T, result: Result, r: Result)
    ensures Count(log + [(item, result)], r) == Count(log, r) + if r == result then 1 else 0
  {
    assert (log + [(item, result)])[..|log|] == log;
  }

  lemma BagMoves<T>(sent: multiset<T>, queue: multiset<T>, hands: multiset<T>, done: multiset<T>,
                    hands2: multiset<T>, done2: multiset<T>, item: T)
    requires sent == queue + hands + done && hands == hands2 + multiset{item} && done2 == done + multiset{item}
    ensures sent == queue + hands2 + done2
  {
  }

  lemma FinishedLosesNone<T>(s: State<T>, i: nat, result: Result, workers: nat)
    requires NoneLost(s) && Enabled(s, Finish(i, result), workers)
    ensures NoneLost(Apply(s, Finish(i, result), workers))
  {
    var item := s.hands[i];
    WithoutOne(s.hands, i);
    ItemsGrow(s.log, item, result);
    BagMoves(multiset(s.sent), multiset(s.queue), multiset(s.hands), multiset(Items(s.log)),
             multiset(s.hands[..i] + s.hands[i + 1..]), multiset(Items(s.log + [(item, result)])), item);
  }

  lemma FinishedIsCounted<T>(s: State<T>, i: nat, result: Result, workers: nat)
    requires TalliesFit(s) && Enabled(s, Finish(i, result), workers)
    ensures TalliesFit(Apply(s, Finish(i, result), workers))
  {
    CountGrows(s.log, s.hands[i], result, Downloaded);
    CountGrows(s.log, s.hands[i], result, Skipped);
    CountGrows(s.log, s.hands[i], result, Failed);
  }

  lemma Preserved<T>(s: State<T>, a: Action<T>, workers: nat)
    requires Inv(s) && Enabled(s, a, workers)
    ensures Inv(Apply(s, a, workers))
  {
    match a
    case Send(item) => assert multiset(s.queue + [item]) == multiset(s.queue) + multiset{item};
    case Close =>
    case Receive => ReceivedKeepsInv(s, workers);
    case Finish(i, result) =>
      FinishedLosesNone(s, i, result, workers);
      FinishedIsCounted(s, i, result, workers);
  }

  lemma {:induction false} RunKeepsInv<T>(states: seq<State<T>>, actions: seq<Action<T>>, workers: nat, i: nat)
    requires IsRun(states, actions, workers) && i <= |actions|
    ensures Inv(states[i])
  {
    if i > 0 {
      RunKeepsInv(states, actions, workers, i - 1);
      Preserved(states[i - 1], actions[i - 1], workers);
      assert states[i] == Apply(states[i - 1], actions[i - 1], workers);
    }
  }

  lemma {:induction false} CountsAddUp<T>(log: seq<(T, Result)>)
    ensures Count(log, Downloaded) + Count(log, Skipped) + Count(log, Failed) == |log| == |Items(log)|
  {
    if log != [] {
      CountsAddUp(log[..|log| - 1]);
    }
  }

  lemma {:induction false} NoneFailed<T>(log: seq<(T, Result)>, i: nat)
    requires Count(log, Failed) == 0 && i < |log|
    ensures log[i].1 != Failed
  {
    if i < |log| - 1 {
      NoneFailed(log[..|log| - 1], i);
    }
  }

  lemma {:induction false} ItemAt<T>(log: seq<(T, Result)>, item: T) returns (i: nat)
    requires item in Items(log)
    ensures i < |log| && log[i].0 == item
  {
    var last := |log| - 1;
    if log[last].0 == item {
      i := last;
    } else {
      i := ItemAt(log[..last], item);
    }
  }

  ghost predicate Settled<T>(s: State<T>, item: T) {
    exists i | 0 <= i < |s.log| :: s.log[i].0 == item && s.log[i].1 != Failed
  }

  /** Whatever order the workers run in, Wait's tallies count every job sent exactly once, and no job twice. */
  lemma TalliesAreExact<T>(states: seq<State<T>>, actions: seq<Action<T>>, workers: nat)
    requires IsRun(states, actions, workers) && IsDone(states[|actions|])
    ensures
      var s := states[|actions|];
      && multiset(Items(s.log)) == multiset(s.sent)
      && s.downloaded + s.skipped + s.failed == |s.sent|
      && (s.failed == 0 ==> forall item | item in s.sent :: Settled(s, item))
  {
    RunKeepsInv(states, actions, workers, |actions|);
    var s := states[|actions|];
    var all: multiset<T> := multiset(Items(s.log));
    assert multiset(s.queue) == multiset{} && multiset(s.hands) == multiset{};
    assert all == multiset(s.sent);
    CountsAddUp(s.log);
    assert |all| == |Items(s.log)| && |multiset(s.sent)| == |s.sent|;
    if s.failed == 0 {
      forall item | item in s.sent ensures Settled(s, item) {
        assert item in multiset(s.sent) && item in all;
        var i := ItemAt(s.log, item);
        NoneFailed(s.log, i);
      }
    }
  }
}
