// The two run loops of internal/bench/runner.go: the closed loop runs its samples one after
// another; the open loop starts them on a schedule, at most so many at a time, and sorts and cuts
// the results at the end.
module RunLoops {
  import opened Common

  datatype Sample = Sample(index: nat, ok: bool, error: string)

  // What runOnce yields for an index.
  type Runs = nat -> Sample

  function Sequential(runs: Runs, k: nat): (s: seq<Sample>)
    ensures |s| == k
  {
    seq(k, i requires 0 <= i < k => runs(i))
  }

  // Everything up to the first failed sample, or everything.
  function Cut(s: seq<Sample>): seq<Sample> {
    if s == [] then []
    else
      var before := Cut(s[..|s| - 1]);
      if |before| < |s| - 1 || (before != [] && !before[|before| - 1].ok) then before else s
  }

  function Truncated(stop: bool, s: seq<Sample>): seq<Sample> {
    if stop then Cut(s) else s
  }

  // The cut ends at the first failure, if there is one.
  lemma {:induction false} CutIs(s: seq<Sample>)
    ensures var c := Cut(s);
            && c <= s && (forall i | 0 <= i < |c| - 1 :: c[i].ok)
            && (c == s || (c != [] && !c[|c| - 1].ok))
  {
    if s != [] {
      CutIs(s[..|s| - 1]);
    }
  }

  lemma {:induction false} CutPrefix(s: seq<Sample>, n: nat)
    requires n <= |s|
    ensures Cut(s[..n]) <= Cut(s)
  {
    if n == |s| {
      assert s[..n] == s;
    } else {
      var rest := s[..|s| - 1];
      assert rest[..n] == s[..n];
      CutPrefix(rest, n);
      CutIs(rest);
    }
  }

  lemma {:induction false} CutAtFailure(s: seq<Sample>, n: nat)
    requires n < |s| && !s[n].ok && forall i | 0 <= i < n :: s[i].ok
    ensures Cut(s) == s[..n + 1]
  {
    CutIs(s);
    var c := Cut(s);
    assert forall i | 0 <= i < |c| :: c[i] == s[i];
  }

  lemma CutNothing(s: seq<Sample>)
    requires forall i | 0 <= i < |s| :: s[i].ok
    ensures Cut(s) == s
  {
    CutIs(s);
    var c := Cut(s);
    assert c != [] ==> c[|c| - 1] == s[|c| - 1];
  }

  // The closed loop stops running at the first failure, and yields what running everything and
  // cutting afterwards would.
  method RunClosedLoop(runs: Runs, warmups: nat, iterations: nat, stopOnError: bool) returns (samples: seq<Sample>, ghost ran: nat)
    ensures samples == Truncated(stopOnError, Sequential(runs, warmups + iterations)) && ran == |samples|
    ensures !stopOnError ==> |samples| == warmups + iterations && forall i | 0 <= i < |samples| :: samples[i] == runs(i)
    ensures stopOnError ==> samples == Cut(Sequential(runs, warmups + iterations))
  {
    var total := warmups + iterations;
    ghost var all := Sequential(runs, total);
    samples, ran := [], 0;
    var index := 0;
    while index < total
      invariant 0 <= index <= total && ran == index && samples == all[..index]
      invariant stopOnError ==> forall i | 0 <= i < index :: all[i].ok
    {
      var sample := runs(index);
      ran := ran + 1;
      samples := samples + [sample];
      assert samples == all[..index + 1];
      if !sample.ok && stopOnError {
        CutAtFailure(all, index);
        return;
      }
      index := index + 1;
    }
    assert samples == all;
    if stopOnError {
      CutNothing(all);
    }
  }

  // ------------------------------------------------------------------ the open loop's steps

  datatype Plan = Plan(total: nat, maxInFlight: nat)

  // How many samples were scheduled, whether the context ended the schedule, which scheduled
  // samples wait for a slot or run, and the results sent so far on a channel of capacity total.
  datatype State = State(scheduled: nat, stopped: bool, waiting: set<nat>, running: set<nat>, results: seq<Sample>)

  const IDLE := State(0, false, {}, {}, [])

  datatype Step = Schedule | Stop | Acquire(i: nat) | Finish(i: nat)

  predicate Enabled(p: Plan, s: State, step: Step) {
    match step
    case Schedule => s.scheduled < p.total && !s.stopped
    case Stop => s.scheduled < p.total
    case Acquire(i) => i in s.waiting && |s.running| < p.maxInFlight
    case Finish(i) => i in s.running && |s.results| < p.total
  }

  function Do(runs: Runs, s: State, step: Step): State {
    match step
    case Schedule => s.(scheduled := s.scheduled + 1, waiting := s.waiting + {s.scheduled})
    case Stop => s.(stopped := true)
    case Acquire(i) => s.(waiting := s.waiting - {i}, running := s.running + {i})
    case Finish(i) => s.(running := s.running - {i}, results := s.results + [runs(i)])
  }

  function Run(p: Plan, runs: Runs, steps: seq<Step>): State {
    if steps == [] then IDLE
    else
      var s := Run(p, runs, steps[..|steps| - 1]);
      if Enabled(p, s, steps[|steps| - 1]) then Do(runs, s, steps[|steps| - 1]) else s
  }

  // The wait group is done: the schedule has ended and every scheduled sample has been sent.
  predicate Finished(p: Plan, s: State) {
    (s.stopped || s.scheduled == p.total) && s.waiting == {} && s.running == {}
  }

  // Each sample is the one of its index.
  ghost predicate Indexed(runs: Runs) {
    forall i :: runs(i).index == i
  }

  // Samples of different indexes below k, each as its index runs.
  ghost predicate Each(runs: Runs, k: nat, results: seq<Sample>) {
    && (forall j | 0 <= j < |results| :: results[j].index < k && results[j] == runs(results[j].index))
    && (forall i, j | 0 <= i < j < |results| :: results[i].index != results[j].index)
  }

  ghost predicate Absent(i: nat, results: seq<Sample>) {
    forall j | 0 <= j < |results| :: results[j].index != i
  }

  ghost predicate Inv(p: Plan, runs: Runs, s: State) {
    && s.scheduled <= p.total && |s.running| <= p.maxInFlight
    && s.waiting !! s.running && (forall i | i in s.waiting + s.running :: i < s.scheduled && Absent(i, s.results))
    && Each(runs, s.scheduled, s.results)
    && |s.waiting| + |s.running| + |s.results| == s.scheduled
  }

  lemma InvSchedule(p: Plan, runs: Runs, s: State)
    requires Inv(p, runs, s) && s.scheduled < p.total
    ensures Inv(p, runs, s.(scheduled := s.scheduled + 1, waiting := s.waiting + {s.scheduled}))
  {
    var t := s.(scheduled := s.scheduled + 1, waiting := s.waiting + {s.scheduled});
    NextIsNew(runs, s.scheduled, s.results);
    assert s.scheduled !in s.waiting + s.running;
    assert |t.waiting| == |s.waiting| + 1;
    forall i | i in t.waiting + t.running ensures i < t.scheduled && Absent(i, t.results) {
      assert i == s.scheduled || i in s.waiting + s.running;
    }
  }

  lemma NextIsNew(runs: Runs, k: nat, results: seq<Sample>)
    requires Each(runs, k, results)
    ensures Each(runs, k + 1, results) && Absent(k, results)
  {
  }

  lemma InvAcquire(p: Plan, runs: Runs, s: State, i: nat)
    requires Inv(p, runs, s) && i in s.waiting && |s.running| < p.maxInFlight
    ensures Inv(p, runs, s.(waiting := s.waiting - {i}, running := s.running + {i}))
  {
    var t := s.(waiting := s.waiting - {i}, running := s.running + {i});
    assert t.waiting + t.running == s.waiting + s.running;
  }

  lemma EachMore(runs: Runs, k: nat, results: seq<Sample>, i: nat)
    requires Indexed(runs) && Each(runs, k, results) && Absent(i, results) && i < k
    ensures Each(runs, k, results + [runs(i)])
    ensures forall j: nat | j != i && Absent(j, results) :: Absent(j, results + [runs(i)])
  {
    assert runs(i).index == i;
  }

  lemma InvFinish(p: Plan, runs: Runs, s: State, i: nat)
    requires Indexed(runs) && Inv(p, runs, s) && i in s.running
    ensures Inv(p, runs, s.(running := s.running - {i}, results := s.results + [runs(i)]))
  {
    assert i in s.waiting + s.running;
    EachMore(runs, s.scheduled, s.results, i);
    var t := s.(running := s.running - {i}, results := s.results + [runs(i)]);
    assert forall j | j in t.waiting + t.running :: j in s.waiting + s.running && j != i;
  }

  lemma InvKept(p: Plan, runs: Runs, s: State, step: Step)
    requires Indexed(runs) && Inv(p, runs, s) && Enabled(p, s, step)
    ensures Inv(p, runs, Do(runs, s, step))
  {
    match step {
      case Schedule => InvSchedule(p, runs, s);
      case Stop =>
      case Acquire(i) => InvAcquire(p, runs, s, i);
      case Finish(i) => InvFinish(p, runs, s, i);
    }
  }

  lemma {:induction false} InvReachable(p: Plan, runs: Runs, steps: seq<Step>)
    requires Indexed(runs)
    ensures Inv(p, runs, Run(p, runs, steps))
  {
    if steps != [] {
      InvReachable(p, runs, steps[..|steps| - 1]);
      var s := Run(p, runs, steps[..|steps| - 1]);
      if Enabled(p, s, steps[|steps| - 1]) {
        InvKept(p, runs, s, steps[|steps| - 1]);
      }
    }
  }

  // At most maxInFlight samples run at a time, and a finished one finds room in the channel.
  lemma BoundedInFlight(p: Plan, runs: Runs, steps: seq<Step>, i: nat)
    requires Indexed(runs)
    ensures var s := Run(p, runs, steps);
            |s.running| <= p.maxInFlight && (i in s.running ==> |s.results| < p.total && Enabled(p, s, Finish(i)))
  {
    InvReachable(p, runs, steps);
    var s := Run(p, runs, steps);
    if i in s.running {
      assert |s.running| > 0;
    }
  }

  // With room for one sample some step is open to the loop until it is finished.
  lemma NeverStuck(p: Plan, runs: Runs, steps: seq<Step>) returns (step: Step)
    requires Indexed(runs) && p.maxInFlight > 0 && !Finished(p, Run(p, runs, steps))
    ensures !step.Stop? && Enabled(p, Run(p, runs, steps), step)
  {
    InvReachable(p, runs, steps);
    var s := Run(p, runs, steps);
    if s.running != {} {
      var i := Member(s.running);
      BoundedInFlight(p, runs, steps, i);
      step := Finish(i);
    } else if s.waiting != {} {
      var i := Member(s.waiting);
      step := Acquire(i);
    } else {
      step := Schedule;
    }
  }

  // What is left to do: three stages for each sample still to be scheduled, two for one that waits
  // and one for one that runs.
  function Work(p: Plan, s: State): int {
    3 * (if s.stopped then 0 else p.total - s.scheduled) + 2 * |s.waiting| + |s.running|
  }

  lemma WorkFalls(p: Plan, runs: Runs, s: State, step: Step)
    requires Inv(p, runs, s) && Enabled(p, s, step)
    ensures if step.Stop? then Work(p, Do(runs, s, step)) <= Work(p, s) else Work(p, Do(runs, s, step)) < Work(p, s)
  {
    if step.Schedule? {
      assert s.scheduled !in s.waiting + s.running;
    }
  }

  // How many steps of a run were taken, apart from those that end the schedule.
  function Progressed(p: Plan, runs: Runs, steps: seq<Step>): nat {
    if steps == [] then 0
    else
      var rest, last := steps[..|steps| - 1], steps[|steps| - 1];
      Progressed(p, runs, rest) + if !last.Stop? && Enabled(p, Run(p, runs, rest), last) then 1 else 0
  }

  // No run takes more than three steps for each sample.
  lemma {:induction false} ProgressBounded(p: Plan, runs: Runs, steps: seq<Step>)
    requires Indexed(runs)
    ensures Progressed(p, runs, steps) + Work(p, Run(p, runs, steps)) <= 3 * p.total && Work(p, Run(p, runs, steps)) >= 0
  {
    InvReachable(p, runs, steps);
    if steps != [] {
      var s, last := Run(p, runs, steps[..|steps| - 1]), steps[|steps| - 1];
      ProgressBounded(p, runs, steps[..|steps| - 1]);
      InvReachable(p, runs, steps[..|steps| - 1]);
      if Enabled(p, s, last) {
        WorkFalls(p, runs, s, last);
      }
    }
  }

  // The steps, none of which ends the schedule, finish the loop.
  ghost predicate Finishes(p: Plan, runs: Runs, steps: seq<Step>, more: seq<Step>) {
    (forall i | 0 <= i < |more| :: !more[i].Stop?) && Finished(p, Run(p, runs, steps + more))
  }

  lemma GoesOn(p: Plan, runs: Runs, steps: seq<Step>) returns (step: Step)
    requires Indexed(runs) && p.maxInFlight > 0 && !Finished(p, Run(p, runs, steps))
    ensures !step.Stop? && Work(p, Run(p, runs, steps + [step])) < Work(p, Run(p, runs, steps))
  {
    step := NeverStuck(p, runs, steps);
    InvReachable(p, runs, steps);
    WorkFalls(p, runs, Run(p, runs, steps), step);
    assert (steps + [step])[..|steps|] == steps;
  }

  lemma FinishesAfter(p: Plan, runs: Runs, steps: seq<Step>, step: Step, rest: seq<Step>, more: seq<Step>)
    requires !step.Stop? && Finishes(p, runs, steps + [step], rest) && more == [step] + rest
    ensures Finishes(p, runs, steps, more)
  {
    assert steps + [step] + rest == steps + more;
  }

  // With room for one sample the open loop finishes, from any point of any run: taking steps that
  // are open while there are any ends with every scheduled sample sent.
  lemma {:induction false} OpenLoopFinishes(p: Plan, runs: Runs, steps: seq<Step>, work: nat) returns (more: seq<Step>)
    requires Indexed(runs) && p.maxInFlight > 0 && Work(p, Run(p, runs, steps)) <= work
    ensures Finishes(p, runs, steps, more) && |more| <= work
    decreases work
  {
    if Finished(p, Run(p, runs, steps)) {
      more := [];
      assert steps + more == steps;
    } else {
      var step := GoesOn(p, runs, steps);
      ProgressBounded(p, runs, steps + [step]);
      var rest := OpenLoopFinishes(p, runs, steps + [step], work - 1);
      more := [step] + rest;
      FinishesAfter(p, runs, steps, step, rest, more);
    }
  }

  // ------------------------------------------------------------------ sorting and cutting

  ghost predicate StrictlySorted(s: seq<Sample>) {
    forall i, j | 0 <= i < j < |s| :: s[i].index < s[j].index
  }

  lemma {:induction false} IndexAtLeast(s: seq<Sample>, i: nat)
    requires StrictlySorted(s) && i < |s|
    ensures s[i].index >= i
  {
    if i > 0 {
      IndexAtLeast(s, i - 1);
    }
  }

  lemma {:induction false} IndexAtMost(s: seq<Sample>, k: nat, i: nat)
    requires StrictlySorted(s) && i < |s| && forall j | 0 <= j < |s| :: s[j].index < k
    ensures s[i].index <= k - |s| + i
    decreases |s| - i
  {
    if i < |s| - 1 {
      IndexAtMost(s, k, i + 1);
    }
  }

  // All of the first k indexes in order are the sequential run.
  lemma SortedIsSequential(runs: Runs, k: nat, s: seq<Sample>)
    requires StrictlySorted(s) && |s| == k && forall j | 0 <= j < |s| :: s[j].index < k && s[j] == runs(s[j].index)
    ensures s == Sequential(runs, k)
  {
    forall i | 0 <= i < k ensures s[i] == runs(i) {
      IndexAtLeast(s, i);
      IndexAtMost(s, k, i);
    }
  }

  method InsertByIndex(s: seq<Sample>, x: Sample) returns (r: seq<Sample>)
    requires StrictlySorted(s) && Absent(x.index, s)
    ensures StrictlySorted(r) && |r| == |s| + 1 && forall y :: y in r <==> y in s || y == x
  {
    var n := |s|;
    while n > 0 && s[n - 1].index > x.index
      invariant 0 <= n <= |s|
      invariant forall j | n <= j < |s| :: s[j].index > x.index
    {
      n := n - 1;
    }
    assert n > 0 ==> s[n - 1].index < x.index;
    InsertedSorted(s, n, x);
    r := s[..n] + [x] + s[n..];
  }

  ghost predicate AllBelow(a: seq<Sample>, b: seq<Sample>) {
    forall i, j | 0 <= i < |a| && 0 <= j < |b| :: a[i].index < b[j].index
  }

  lemma SortedJoin(a: seq<Sample>, b: seq<Sample>)
    requires StrictlySorted(a) && StrictlySorted(b) && AllBelow(a, b)
    ensures StrictlySorted(a + b)
  {
  }

  lemma SplitSorted(s: seq<Sample>, n: nat, x: Sample)
    requires StrictlySorted(s) && n <= |s| && (n > 0 ==> s[n - 1].index < x.index) && (n < |s| ==> s[n].index > x.index)
    ensures StrictlySorted(s[..n]) && StrictlySorted(s[n..])
    ensures AllBelow(s[..n], [x]) && AllBelow([x], s[n..]) && AllBelow(s[..n], s[n..])
  {
  }

  lemma MembersInserted(a: seq<Sample>, x: Sample, b: seq<Sample>, y: Sample)
    ensures y in a + [x] + b <==> y in a + b || y == x
  {
  }

  lemma InsertedSorted(s: seq<Sample>, n: nat, x: Sample)
    requires StrictlySorted(s) && n <= |s| && (n > 0 ==> s[n - 1].index < x.index) && (n < |s| ==> s[n].index > x.index)
    ensures StrictlySorted(s[..n] + [x] + s[n..]) && forall y :: y in s[..n] + [x] + s[n..] <==> y in s || y == x
  {
    var a, b := s[..n], s[n..];
    SplitSorted(s, n, x);
    SortedJoin(a, [x]);
    assert AllBelow(a + [x], b);
    SortedJoin(a + [x], b);
    forall y ensures y in a + [x] + b <==> y in s || y == x {
      MembersInserted(a, x, b, y);
      assert s == a + b;
    }
  }

  method SortByIndex(s: seq<Sample>) returns (r: seq<Sample>)
    requires forall i, j | 0 <= i < j < |s| :: s[i].index != s[j].index
    ensures StrictlySorted(r) && |r| == |s| && forall y :: y in r <==> y in s
  {
    r := [];
    for i := 0 to |s|
      invariant StrictlySorted(r) && |r| == i && forall y :: y in r <==> y in s[..i]
    {
      assert s[..i + 1] == s[..i] + [s[i]];
      forall j | 0 <= j < |r| ensures r[j].index != s[i].index {
        assert r[j] in s[..i];
      }
      r := InsertByIndex(r, s[i]);
    }
    assert s[..|s|] == s;
  }

  // The end of the open loop: the results are sorted by index and cut at the first failure.
  method Gather(runs: Runs, k: nat, results: seq<Sample>, stopOnError: bool) returns (samples: seq<Sample>)
    requires Each(runs, k, results) && |results| == k
    ensures samples == Truncated(stopOnError, Sequential(runs, k))
  {
    samples := SortByIndex(results);
    forall j | 0 <= j < |samples| ensures samples[j].index < k && samples[j] == runs(samples[j].index) {
      assert samples[j] in results;
    }
    SortedIsSequential(runs, k, samples);
    if stopOnError {
      for i := 0 to |samples|
        invariant forall j | 0 <= j < i :: samples[j].ok
      {
        if !samples[i].ok {
          CutAtFailure(samples, i);
          return samples[..i + 1];
        }
      }
      CutNothing(samples);
    }
  }

  // ------------------------------------------------------------------ open and closed

  // The schedule is cut short only by a cancellation.
  lemma {:induction false} OnlyStopStops(p: Plan, runs: Runs, steps: seq<Step>)
    requires forall k | 0 <= k < |steps| :: !steps[k].Stop?
    ensures !Run(p, runs, steps).stopped
  {
    if steps != [] {
      OnlyStopStops(p, runs, steps[..|steps| - 1]);
    }
  }

  // However the samples are scheduled and interleaved, once the open loop is finished its result
  // is the sequential run of the first scheduled indexes, each exactly once, cut like the closed
  // loop's.  Without cancellation that is the closed loop's result, and with it a prefix of that.
  method RunOpenLoop(runs: Runs, warmups: nat, iterations: nat, maxInFlight: nat, stopOnError: bool, s: State, ghost steps: seq<Step>)
    returns (samples: seq<Sample>)
    requires Indexed(runs)
    requires var p := Plan(warmups + iterations, maxInFlight); s == Run(p, runs, steps) && Finished(p, s)
    ensures s.scheduled <= warmups + iterations && samples == Truncated(stopOnError, Sequential(runs, s.scheduled))
    ensures samples <= Truncated(stopOnError, Sequential(runs, warmups + iterations))
    ensures !s.stopped ==> samples == Truncated(stopOnError, Sequential(runs, warmups + iterations))
  {
    InvReachable(Plan(warmups + iterations, maxInFlight), runs, steps);
    samples := Gather(runs, s.scheduled, s.results, stopOnError);
    ghost var all := Sequential(runs, warmups + iterations);
    assert all[..s.scheduled] == Sequential(runs, s.scheduled);
    CutPrefix(all, s.scheduled);
  }
}
