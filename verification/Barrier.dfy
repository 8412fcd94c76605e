// The coordinated start of internal/bench: senders line up at a barrier
// (coordinated_timing.go), act at the target time and send their samples over one channel to the
// cycle that collects them (coordinated.go).  Every interleaving of the goroutines, the clock and
// the context is a sequence of steps.  Times are nanoseconds and zero stands for the zero time.
module Barrier {
  import opened Common

  // ------------------------------------------------------------------ waiting for a time

  // What one turn of the spin loop reads: the clock, and whether the context was done.
  datatype Reading = Reading(now: int, done: bool)

  predicate Ends(r: Reading, target: int) {
    r.done || r.now >= target
  }

  // Returns at the first reading that ends the wait, or uses them all up.
  method SpinUntil(readings: seq<Reading>, target: int) returns (used: nat)
    ensures used <= |readings| && (forall i | 0 <= i < used :: !Ends(readings[i], target))
    ensures used < |readings| ==> Ends(readings[used], target)
  {
    used := 0;
    while used < |readings|
      invariant used <= |readings| && forall i | 0 <= i < used :: !Ends(readings[i], target)
    {
      if readings[used].done {
        return;
      }
      var remaining := target - readings[used].now;
      if remaining <= 0 {
        return;
      }
      used := used + 1;
    }
  }

  // The first of the readings past the target or with the context done.
  ghost predicate FirstEnding(readings: seq<Reading>, target: int, r: Reading) {
    exists k | 0 <= k < |readings| :: readings[k] == r && forall j | 0 <= j < k :: !readings[j].done && readings[j].now < target
  }

  // timer is what is read when the sleep ends, by the timer or by the context.  A wait for a
  // non-zero target that returns with the context still open returns at or after the target.
  method WaitUntil(now: int, target: int, spinLead: int, timer: Reading, readings: seq<Reading>) returns (last: Option<Reading>)
    ensures target == 0 ==> last == None
    ensures last.Some? ==> last.value.done || last.value.now >= target
    ensures target != 0 && timer.done && now < target && (spinLead >= 0 ==> now + spinLead < target) ==> last == Some(timer)
    ensures last.Some? && !(timer.done && now < target && (spinLead >= 0 ==> now + spinLead < target)) ==> FirstEnding(readings, target, last.value)
    ensures target != 0 && last.None? ==> forall i | 0 <= i < |readings| :: !Ends(readings[i], target)
  {
    last := None;
    if target == 0 {
      return;
    }
    var lead := if spinLead < 0 then 0 else spinLead;
    var sleepTarget := target - lead;
    if sleepTarget - now > 0 && timer.done {
      return Some(timer);
    }
    var used := SpinUntil(readings, target);
    if used < |readings| {
      last := Some(readings[used]);
    }
  }

  // ------------------------------------------------------------------ the steps

  // Where a sender stands: not yet counted, at the closed gate, asleep, spinning, doing its work,
  // or done with its result sent.
  datatype Sender = Starting | AtGate | Sleeping | Spinning | Acting | Sent

  // The releasing goroutine counts arrivals, then holds the gate until shortly before the target.
  datatype Gate = Counting | Holding | Open

  datatype Plan = Plan(n: nat, target: int, spinLead: int)

  // A result on its way to the collecting cycle: its sender's index and the sample it made.
  type CycleResult = (nat, Sample)

  // sent holds the results in the order they were sent, of which the first taken were collected
  // and the others are in the channel, of capacity n; slots are the collected samples; actedAt is
  // when a sender began its work.
  datatype State = State(
    senders: seq<Sender>, gate: Gate, now: int, cancelled: bool, actedAt: map<nat, int>,
    sent: seq<CycleResult>, taken: nat, slots: seq<Option<Sample>>)

  datatype Step =
    | Tick(elapsed: nat)
    | Cancel
    | Arrive(i: nat)
    | AllReady
    | Release
    | Pass(i: nat)
    | Wake(i: nat)
    | Act(i: nat)
    | Send(i: nat, sample: Sample)
    | Collect

  function Start(p: Plan, now: int): State {
    State(seq(p.n, _ => Starting), Counting, now, false, map[], [], 0, seq(p.n, _ => None))
  }

  function Lead(p: Plan): int {
    if p.spinLead < 0 then 0 else p.spinLead
  }

  predicate At(s: State, i: nat, where_: Sender) {
    i < |s.senders| && s.senders[i] == where_
  }

  function Move(s: State, i: nat, to: Sender): State
    requires i < |s.senders|
  {
    s.(senders := s.senders[i := to])
  }

  function Begin(s: State, i: nat): State
    requires i < |s.senders|
  {
    Move(s, i, Acting).(actedAt := s.actedAt[i := s.now])
  }

  // Past the gate: no wait for a zero target, a sleep while there is time, else the spin loop.
  function Entered(p: Plan, s: State, i: nat): State
    requires i < |s.senders|
  {
    if p.target == 0 then Begin(s, i)
    else if p.target - Lead(p) - s.now > 0 then Move(s, i, Sleeping)
    else Move(s, i, Spinning)
  }

  predicate Enabled(p: Plan, s: State, step: Step) {
    match step
    case Tick(elapsed) => true
    case Cancel => true
    case Arrive(i) => At(s, i, Starting)
    case AllReady => s.gate == Counting && forall i | 0 <= i < |s.senders| :: s.senders[i] != Starting
    case Release => s.gate == Holding && (p.target == 0 || s.cancelled || s.now >= p.target - p.spinLead)
    case Pass(i) => At(s, i, AtGate) && s.gate == Open
    case Wake(i) => At(s, i, Sleeping) && (s.cancelled || s.now >= p.target - Lead(p))
    case Act(i) => At(s, i, Spinning) && (s.cancelled || s.now >= p.target)
    case Send(i, _) => At(s, i, Acting) && |s.sent| - s.taken < p.n
    case Collect => s.gate == Open && s.taken < |s.sent| && s.sent[s.taken].0 < |s.slots|
  }

  function Do(p: Plan, s: State, step: Step): State
    requires Enabled(p, s, step)
  {
    match step
    case Tick(elapsed) => s.(now := s.now + elapsed)
    case Cancel => s.(cancelled := true)
    case Arrive(i) => Move(s, i, AtGate)
    case AllReady => s.(gate := Holding)
    case Release => s.(gate := Open)
    case Pass(i) => Entered(p, s, i)
    case Wake(i) => if s.cancelled then Begin(s, i) else Move(s, i, Spinning)
    case Act(i) => Begin(s, i)
    case Send(i, sample) => Move(s, i, Sent).(sent := s.sent + [(i, sample)])
    case Collect => s.(taken := s.taken + 1, slots := s.slots[s.sent[s.taken].0 := Some(s.sent[s.taken].1)])
  }

  function Run(p: Plan, now: int, steps: seq<Step>): State {
    if steps == [] then Start(p, now)
    else
      var s := Run(p, now, steps[..|steps| - 1]);
      if Enabled(p, s, steps[|steps| - 1]) then Do(p, s, steps[|steps| - 1]) else s
  }

  // ------------------------------------------------------------------ what every run keeps

  predicate Past(w: Sender) {
    w != Starting && w != AtGate
  }

  predicate Acted(w: Sender) {
    w == Acting || w == Sent
  }

  // Nobody passes the gate before it opens, and it does not leave counting before all arrived.
  ghost predicate Gated(s: State) {
    && (s.gate != Counting ==> forall i | 0 <= i < |s.senders| :: s.senders[i] != Starting)
    && (s.gate != Open ==> forall i | 0 <= i < |s.senders| :: !Past(s.senders[i]))
  }

  ghost predicate OnTime(p: Plan, s: State) {
    forall i | 0 <= i < |s.senders| && Acted(s.senders[i]) :: i in s.actedAt && (s.cancelled || s.actedAt[i] >= p.target || p.target == 0)
  }

  // The senders of the first k results.
  function SendersOf(sent: seq<CycleResult>, k: nat): set<nat>
    requires k <= |sent|
  {
    set j | 0 <= j < k :: sent[j].0
  }

  ghost predicate DifferentSenders(sent: seq<CycleResult>) {
    forall j, k | 0 <= j < k < |sent| :: sent[j].0 != sent[k].0
  }

  // A sender is done exactly when it sent one result, and the slots filled are those of the
  // results collected, each with its own sender's sample.
  ghost predicate Delivered(p: Plan, s: State) {
    && |s.senders| == |s.slots| == p.n && s.taken <= |s.sent|
    && DifferentSenders(s.sent) && (forall j | 0 <= j < |s.sent| :: s.sent[j].0 < p.n)
    && (forall i | 0 <= i < p.n :: s.senders[i] == Sent <==> i in SendersOf(s.sent, |s.sent|))
    && Filled(s.sent, s.taken, s.slots)
  }

  ghost predicate Filled(sent: seq<CycleResult>, taken: nat, slots: seq<Option<Sample>>)
    requires taken <= |sent|
  {
    && (forall i | 0 <= i < |slots| :: slots[i].Some? <==> i in SendersOf(sent, taken))
    && (forall j | 0 <= j < taken && sent[j].0 < |slots| :: slots[sent[j].0] == Some(sent[j].1))
  }

  ghost predicate Inv(p: Plan, s: State) {
    Gated(s) && OnTime(p, s) && Delivered(p, s)
  }

  lemma DeliveredSend(p: Plan, s: State, i: nat, sample: Sample)
    requires Delivered(p, s) && At(s, i, Acting)
    ensures Delivered(p, Move(s, i, Sent).(sent := s.sent + [(i, sample)]))
  {
    var t := Move(s, i, Sent).(sent := s.sent + [(i, sample)]);
    assert i !in SendersOf(s.sent, |s.sent|);
    SendersMore(s.sent, (i, sample), |s.sent|);
    SendersMore(s.sent, (i, sample), s.taken);
    forall j | 0 <= j < |s.sent| ensures s.sent[j].0 != i {
      assert s.sent[j].0 in SendersOf(s.sent, |s.sent|);
    }
  }

  lemma SendersMore(sent: seq<CycleResult>, r: CycleResult, k: nat)
    requires k <= |sent|
    ensures SendersOf(sent + [r], k) == SendersOf(sent, k)
    ensures SendersOf(sent + [r], |sent| + 1) == SendersOf(sent, |sent|) + {r.0}
  {
    assert forall j | 0 <= j < |sent| :: (sent + [r])[j] == sent[j];
    assert (sent + [r])[|sent|] == r;
  }

  lemma SendersNext(sent: seq<CycleResult>, k: nat)
    requires k < |sent|
    ensures SendersOf(sent, k + 1) == SendersOf(sent, k) + {sent[k].0}
  {
  }

  lemma DeliveredCollect(p: Plan, s: State)
    requires Delivered(p, s) && s.taken < |s.sent|
    ensures Delivered(p, s.(taken := s.taken + 1, slots := s.slots[s.sent[s.taken].0 := Some(s.sent[s.taken].1)]))
  {
    SendersNext(s.sent, s.taken);
  }

  // Moves between two stages before sending change nothing about results.
  lemma DeliveredMove(p: Plan, s: State, i: nat, to: Sender, t: State)
    requires Delivered(p, s) && i < |s.senders| && s.senders[i] != Sent && to != Sent
    requires t.senders == s.senders[i := to] && t.sent == s.sent && t.taken == s.taken && t.slots == s.slots
    ensures Delivered(p, t)
  {
  }

  lemma GatedMove(s: State, i: nat, to: Sender, t: State)
    requires Gated(s) && i < |s.senders| && to != Starting && (Past(to) ==> s.gate == Open)
    requires t.senders == s.senders[i := to] && t.gate == s.gate
    ensures Gated(t)
  {
  }

  lemma DeliveredKept(p: Plan, s: State, step: Step)
    requires Delivered(p, s) && Enabled(p, s, step)
    ensures Delivered(p, Do(p, s, step))
  {
    var t := Do(p, s, step);
    match step {
      case Send(i, sample) => DeliveredSend(p, s, i, sample);
      case Collect => DeliveredCollect(p, s);
      case Arrive(i) => DeliveredMove(p, s, i, AtGate, t);
      case Pass(i) => DeliveredMove(p, s, i, t.senders[i], t);
      case Wake(i) => DeliveredMove(p, s, i, t.senders[i], t);
      case Act(i) => DeliveredMove(p, s, i, Acting, t);
      case _ =>
    }
  }

  lemma GatedKept(p: Plan, s: State, step: Step)
    requires Gated(s) && Enabled(p, s, step)
    ensures Gated(Do(p, s, step))
  {
    var t := Do(p, s, step);
    match step {
      case Send(i, _) => GatedMove(s, i, Sent, t);
      case Arrive(i) => GatedMove(s, i, AtGate, t);
      case Pass(i) => GatedMove(s, i, t.senders[i], t);
      case Wake(i) => GatedMove(s, i, t.senders[i], t);
      case Act(i) => GatedMove(s, i, Acting, t);
      case _ =>
    }
  }

  lemma OnTimeKept(p: Plan, s: State, step: Step)
    requires OnTime(p, s) && Enabled(p, s, step)
    ensures OnTime(p, Do(p, s, step))
  {
    var t := Do(p, s, step);
    forall i | 0 <= i < |t.senders| && Acted(t.senders[i]) ensures i in t.actedAt && (t.cancelled || t.actedAt[i] >= p.target || p.target == 0) {
      assert Acted(s.senders[i]) ==> i in s.actedAt;
    }
  }

  lemma {:induction false} InvReachable(p: Plan, now: int, steps: seq<Step>)
    ensures Inv(p, Run(p, now, steps))
  {
    if steps != [] {
      var s, step := Run(p, now, steps[..|steps| - 1]), steps[|steps| - 1];
      InvReachable(p, now, steps[..|steps| - 1]);
      if Enabled(p, s, step) {
        DeliveredKept(p, s, step);
        GatedKept(p, s, step);
        OnTimeKept(p, s, step);
      }
    }
  }

  // ------------------------------------------------------------------ safety

  ghost predicate NeverCancelled(steps: seq<Step>) {
    forall k | 0 <= k < |steps| :: !steps[k].Cancel?
  }

  function Elapsed(steps: seq<Step>): nat {
    if steps == [] then 0 else Elapsed(steps[..|steps| - 1]) + if steps[|steps| - 1].Tick? then steps[|steps| - 1].elapsed else 0
  }

  // The context is done exactly when it was cancelled, and the clock shows what has gone by.
  lemma {:induction false} ClockAndContext(p: Plan, now: int, steps: seq<Step>)
    ensures Run(p, now, steps).now == now + Elapsed(steps) && (Run(p, now, steps).cancelled <==> !NeverCancelled(steps))
  {
    if steps != [] {
      var n := |steps| - 1;
      ClockAndContext(p, now, steps[..n]);
      assert NeverCancelled(steps) <==> NeverCancelled(steps[..n]) && !steps[n].Cancel? by {
        assert forall k | 0 <= k < n :: steps[..n][k] == steps[k];
      }
      ClockStep(p, Run(p, now, steps[..n]), steps[n]);
    }
  }

  lemma ClockStep(p: Plan, s: State, step: Step)
    ensures step.Tick? || step.Cancel? ==> Enabled(p, s, step)
    ensures Enabled(p, s, step) ==>
              var t := Do(p, s, step);
              t.now == s.now + (if step.Tick? then step.elapsed else 0) && (t.cancelled <==> s.cancelled || step.Cancel?)
  {
  }

  // No sender acts before all senders are ready, nor, with the context never cancelled and a target
  // set, before the target.
  lemma {:induction false} NobodyEarly(p: Plan, now: int, steps: seq<Step>, i: nat)
    requires At(Run(p, now, steps), i, Acting) || At(Run(p, now, steps), i, Sent)
    ensures var s := Run(p, now, steps);
            && |s.senders| == p.n && (forall k | 0 <= k < p.n :: s.senders[k] != Starting)
            && i in s.actedAt && (NeverCancelled(steps) && p.target != 0 ==> s.actedAt[i] >= p.target)
  {
    InvReachable(p, now, steps);
    ClockAndContext(p, now, steps);
    assert Past(Run(p, now, steps).senders[i]);
  }

  // A sender that begins its work does so at the time the clock then shows.
  lemma BeginsNow(p: Plan, s: State, step: Step, i: nat)
    requires Enabled(p, s, step) && !At(s, i, Acting) && At(Do(p, s, step), i, Acting)
    ensures var t := Do(p, s, step); i in t.actedAt && t.actedAt[i] == s.now == t.now
  {
  }

  // When each wait ends: the gate's a spin lead before the target, a sleeper's too but not after
  // the target for a negative lead, and a spinner's at the target; a cancellation ends them all.
  lemma WaitsEnd(p: Plan, s: State, i: nat)
    requires i < |s.senders| && p.target != 0
    ensures s.gate == Holding ==> (Enabled(p, s, Release) <==> s.cancelled || s.now + p.spinLead >= p.target)
    ensures s.senders[i] == Sleeping ==>
              (Enabled(p, s, Wake(i)) <==> s.cancelled || (s.now + p.spinLead >= p.target && p.spinLead >= 0) || s.now >= p.target)
    ensures s.senders[i] == Spinning ==> (Enabled(p, s, Act(i)) <==> s.cancelled || s.now >= p.target)
  {
  }

  // A sender that passes the gate sleeps exactly while its sleep would not end at once; for a zero
  // target it acts, and so does a sleeper that a cancellation wakes.
  lemma PassesTo(p: Plan, s: State, i: nat)
    requires At(s, i, AtGate) && s.gate == Open
    ensures var t := Do(p, s, Pass(i));
            && (At(t, i, Acting) <==> p.target == 0)
            && (At(t, i, Sleeping) <==> p.target != 0 && s.now < p.target && (p.spinLead >= 0 ==> s.now + p.spinLead < p.target))
            && (At(t, i, Acting) || At(t, i, Sleeping) || At(t, i, Spinning))
            && forall k | 0 <= k < |s.senders| && k != i :: t.senders[k] == s.senders[k]
  {
  }

  lemma {:induction false} DistinctCount(sent: seq<CycleResult>, k: nat)
    requires DifferentSenders(sent) && k <= |sent|
    ensures |SendersOf(sent, k)| == k
  {
    if k > 0 {
      DistinctCount(sent, k - 1);
      SendersNext(sent, k - 1);
      var before := SendersOf(sent, k - 1);
      assert sent[k - 1].0 !in before;
      assert |before + {sent[k - 1].0}| == |before| + 1;
    }
  }

  function Below(n: nat): (r: set<nat>)
    ensures |r| == n && forall i: nat :: i in r <==> i < n
  {
    if n == 0 then {} else Below(n - 1) + {n - 1}
  }

  lemma {:induction false} FewerInSubset(a: set<nat>, b: set<nat>)
    requires a <= b
    ensures |a| <= |b|
  {
    assert b == a + (b - a);
  }

  // A sender that has its result finds room in the channel.
  lemma {:induction false} SendNeverBlocks(p: Plan, now: int, steps: seq<Step>, i: nat, sample: Sample)
    requires At(Run(p, now, steps), i, Acting)
    ensures Enabled(p, Run(p, now, steps), Send(i, sample))
  {
    InvReachable(p, now, steps);
    var s := Run(p, now, steps);
    assert i !in SendersOf(s.sent, |s.sent|);
    DistinctCount(s.sent, |s.sent|);
    FewerInSubset(SendersOf(s.sent, |s.sent|), Below(p.n) - {i});
  }

  // Every slot filled holds the sample that the sender of its index sent, its only one, and was
  // filled once; a result sent and not yet collected is in the channel.
  lemma {:induction false} OwnSample(p: Plan, now: int, steps: seq<Step>)
    ensures var s := Run(p, now, steps);
            && |s.slots| == |s.senders| == p.n && s.taken <= |s.sent| && DifferentSenders(s.sent)
            && (forall j | 0 <= j < s.taken :: s.sent[j].0 < p.n && s.slots[s.sent[j].0] == Some(s.sent[j].1))
            && (forall i | 0 <= i < p.n :: s.slots[i].Some? <==> i in SendersOf(s.sent, s.taken))
            && (forall i | 0 <= i < p.n :: s.senders[i] == Sent <==> i in SendersOf(s.sent, |s.sent|))
  {
    InvReachable(p, now, steps);
  }

  // ------------------------------------------------------------------ completion

  predicate Full(s: State) {
    forall i | 0 <= i < |s.slots| :: s.slots[i].Some?
  }

  predicate Progress(step: Step) {
    !step.Tick? && !step.Cancel?
  }

  predicate Due(p: Plan, s: State) {
    s.now >= p.target && s.now >= p.target - p.spinLead
  }

  // Once the clock has reached the target and the gate's own time, some goroutine can always go
  // on until every slot is filled; a sender that has its result is offered any sample to send.
  lemma NeverStuck(p: Plan, now: int, steps: seq<Step>, sample: Sample) returns (step: Step)
    requires Due(p, Run(p, now, steps)) && !Full(Run(p, now, steps))
    ensures Progress(step) && Enabled(p, Run(p, now, steps), step)
  {
    InvReachable(p, now, steps);
    var s := Run(p, now, steps);
    var i: nat :| i < |s.slots| && s.slots[i].None?;
    if s.gate == Counting {
      if k: nat :| k < |s.senders| && s.senders[k] == Starting {
        step := Arrive(k);
      } else {
        step := AllReady;
      }
    } else if s.gate == Holding {
      step := Release;
    } else {
      match s.senders[i] {
        case AtGate => step := Pass(i);
        case Sleeping => step := Wake(i);
        case Spinning => step := Act(i);
        case Acting => SendNeverBlocks(p, now, steps, i, sample); step := Send(i, sample);
        case Sent => SentWaits(p, s, i); step := Collect;
        case Starting => assert false;
      }
    }
  }

  lemma SentWaits(p: Plan, s: State, i: nat)
    requires Delivered(p, s) && i < p.n && s.senders[i] == Sent && s.slots[i].None?
    ensures s.taken < |s.sent| && s.sent[s.taken].0 < |s.slots|
  {
    assert i in SendersOf(s.sent, |s.sent|) && i !in SendersOf(s.sent, s.taken);
  }

  // How many stages a sender has before it.
  function Stages(w: Sender): nat {
    match w
    case Starting => 6
    case AtGate => 5
    case Sleeping => 4
    case Spinning => 3
    case Acting => 2
    case Sent => 0
  }

  function StagesOf(ws: seq<Sender>): nat {
    if ws == [] then 0 else StagesOf(ws[..|ws| - 1]) + Stages(ws[|ws| - 1])
  }

  lemma {:induction false} StagesMoved(ws: seq<Sender>, i: nat, to: Sender)
    requires i < |ws|
    ensures StagesOf(ws[i := to]) == StagesOf(ws) - Stages(ws[i]) + Stages(to)
  {
    var n := |ws| - 1;
    if i == n {
      assert ws[i := to][..n] == ws[..n];
    } else {
      StagesMoved(ws[..n], i, to);
      assert ws[i := to][..n] == ws[..n][i := to];
    }
  }

  // What is left to do: the senders' stages, the results to collect and the gate's own two.
  function Work(s: State): int {
    StagesOf(s.senders) + |s.sent| - s.taken + match s.gate case Counting => 2 case Holding => 1 case Open => 0
  }

  lemma WorkMoved(s: State, t: State, i: nat, to: Sender)
    requires i < |s.senders| && t.senders == s.senders[i := to] && t.sent == s.sent && t.taken == s.taken && t.gate == s.gate
    ensures Work(t) == Work(s) - Stages(s.senders[i]) + Stages(to)
  {
    StagesMoved(s.senders, i, to);
  }

  // Every step but the clock's and the context's leaves less to do.
  lemma WorkFalls(p: Plan, s: State, step: Step)
    requires Enabled(p, s, step)
    ensures if Progress(step) then Work(Do(p, s, step)) < Work(s) else Work(Do(p, s, step)) == Work(s)
  {
    var t := Do(p, s, step);
    match step {
      case Arrive(i) => WorkMoved(s, t, i, AtGate);
      case Pass(i) => WorkMoved(s, t, i, t.senders[i]);
      case Wake(i) => WorkMoved(s, t, i, t.senders[i]);
      case Act(i) => WorkMoved(s, t, i, Acting);
      case Send(i, _) => StagesMoved(s.senders, i, Sent);
      case _ =>
    }
  }

  lemma {:induction false} StagesAtStart(n: nat)
    ensures StagesOf(seq(n, _ => Starting)) == 6 * n
  {
    if n > 0 {
      StagesAtStart(n - 1);
      assert seq(n, _ => Starting)[..n - 1] == seq(n - 1, _ => Starting);
    }
  }

  // How many steps of a run got a goroutine on.
  function Progressed(p: Plan, now: int, steps: seq<Step>): nat {
    if steps == [] then 0
    else
      var rest, last := steps[..|steps| - 1], steps[|steps| - 1];
      Progressed(p, now, rest) + if Progress(last) && Enabled(p, Run(p, now, rest), last) then 1 else 0
  }

  // No run has more than 6 n + 2 such steps.
  lemma {:induction false} ProgressBounded(p: Plan, now: int, steps: seq<Step>)
    ensures Progressed(p, now, steps) + Work(Run(p, now, steps)) <= 6 * p.n + 2
    ensures Work(Run(p, now, steps)) >= 0
  {
    InvReachable(p, now, steps);
    if steps == [] {
      StagesAtStart(p.n);
    } else {
      var s, last := Run(p, now, steps[..|steps| - 1]), steps[|steps| - 1];
      ProgressBounded(p, now, steps[..|steps| - 1]);
      if Enabled(p, s, last) {
        WorkFalls(p, s, last);
      }
    }
  }

  lemma {:induction false} RunNext(p: Plan, now: int, steps: seq<Step>, step: Step)
    requires Enabled(p, Run(p, now, steps), step)
    ensures Run(p, now, steps + [step]) == Do(p, Run(p, now, steps), step)
  {
    assert (steps + [step])[..|steps|] == steps;
  }

  // The step goes on, and a result sent is the one of its sender in samples.
  predicate Takes(step: Step, samples: seq<Sample>) {
    Progress(step) && (step.Send? ==> step.i < |samples| && step.sample == samples[step.i])
  }

  lemma GoesOn(p: Plan, now: int, steps: seq<Step>, samples: seq<Sample>) returns (step: Step)
    requires |samples| == p.n && Due(p, Run(p, now, steps)) && !Full(Run(p, now, steps))
    ensures Takes(step, samples)
    ensures Due(p, Run(p, now, steps + [step])) && Work(Run(p, now, steps + [step])) < Work(Run(p, now, steps))
  {
    var s := Run(p, now, steps);
    InvReachable(p, now, steps);
    step := NeverStuck(p, now, steps, samples[0]);
    if step.Send? {
      step := Send(step.i, samples[step.i]);
    }
    RunNext(p, now, steps, step);
    WorkFalls(p, s, step);
    StillDue(p, s, step);
  }

  // The steps more fill every slot, by progress alone, with the samples given for what they send.
  ghost predicate Fills(p: Plan, now: int, steps: seq<Step>, samples: seq<Sample>, more: seq<Step>) {
    (forall i | 0 <= i < |more| :: Takes(more[i], samples)) && Full(Run(p, now, steps + more))
  }

  lemma FillsAfter(p: Plan, now: int, steps: seq<Step>, samples: seq<Sample>, step: Step, rest: seq<Step>, more: seq<Step>)
    requires Takes(step, samples) && Fills(p, now, steps + [step], samples, rest) && more == [step] + rest
    ensures Fills(p, now, steps, samples, more)
  {
    assert steps + [step] + rest == steps + more;
  }

  lemma FillsAlready(p: Plan, now: int, steps: seq<Step>, samples: seq<Sample>, more: seq<Step>)
    requires Full(Run(p, now, steps)) && more == []
    ensures Fills(p, now, steps, samples, more)
  {
    assert steps + more == steps;
  }

  // From the target on, taking steps that are open while there are any fills every slot, whatever
  // the senders' samples are and whatever came before.
  lemma {:induction false} Completes(p: Plan, now: int, steps: seq<Step>, samples: seq<Sample>, work: nat) returns (more: seq<Step>)
    requires |samples| == p.n && Due(p, Run(p, now, steps)) && Work(Run(p, now, steps)) <= work
    ensures Fills(p, now, steps, samples, more) && |more| <= work
    decreases work
  {
    if Full(Run(p, now, steps)) {
      more := [];
      FillsAlready(p, now, steps, samples, more);
    } else {
      var step := GoesOn(p, now, steps, samples);
      ProgressBounded(p, now, steps + [step]);
      var rest := Completes(p, now, steps + [step], samples, work - 1);
      more := [step] + rest;
      FillsAfter(p, now, steps, samples, step, rest, more);
    }
  }

  lemma StillDue(p: Plan, s: State, step: Step)
    requires Due(p, s) && Enabled(p, s, step)
    ensures Due(p, Do(p, s, step))
  {
  }

  // ------------------------------------------------------------------ collecting the samples

  ghost predicate Distinct(q: seq<nat>) {
    forall j, k | 0 <= j < k < |q| :: q[j] != q[k]
  }

  // The collecting loop of a cycle: one result for each item, in the order they arrive.
  method CollectSamples(n: nat, blank: Sample, results: seq<CycleResult>) returns (samples: array<Sample>)
    requires |results| == n && DifferentSenders(results) && forall k | 0 <= k < n :: results[k].0 < n
    ensures fresh(samples) && samples.Length == n
    ensures forall k | 0 <= k < n :: samples[results[k].0] == results[k].1
  {
    samples := new Sample[n](_ => blank);
    for k := 0 to n
      invariant forall j | 0 <= j < k :: samples[results[j].0] == results[j].1
    {
      samples[results[k].0] := results[k].1;
    }
  }

  // A cycle whose slots are all filled has collected exactly n results.
  lemma FullCollects(p: Plan, now: int, steps: seq<Step>)
    requires Full(Run(p, now, steps))
    ensures Run(p, now, steps).taken == |Run(p, now, steps).sent| == p.n
  {
    InvReachable(p, now, steps);
    var s := Run(p, now, steps);
    DistinctCount(s.sent, s.taken);
    DistinctCount(s.sent, |s.sent|);
    forall i | i in Below(p.n) ensures i in SendersOf(s.sent, s.taken) {
      assert s.slots[i].Some?;
    }
    FewerInSubset(Below(p.n), SendersOf(s.sent, s.taken));
    FewerInSubset(SendersOf(s.sent, |s.sent|), Below(p.n));
  }

  // submitPreparedCoordinated: the results of a run that filled every slot, collected in the order
  // they were sent.  There is one sample for each item, the one its own sender sent.
  method SubmitPrepared(p: Plan, s: State, blank: Sample, ghost now: int, ghost steps: seq<Step>) returns (samples: array<Sample>)
    requires s == Run(p, now, steps) && Full(s)
    ensures fresh(samples) && samples.Length == p.n == |s.sent| == |s.slots|
    ensures forall i | 0 <= i < p.n :: s.slots[i] == Some(samples[i])
    ensures forall k | 0 <= k < p.n :: s.sent[k].0 < p.n && samples[s.sent[k].0] == s.sent[k].1
  {
    FullCollects(p, now, steps);
    InvReachable(p, now, steps);
    samples := CollectSamples(p.n, blank, s.sent);
    forall i | 0 <= i < p.n ensures s.slots[i] == Some(samples[i]) {
      assert i in SendersOf(s.sent, s.taken);
      var k :| 0 <= k < s.taken && s.sent[k].0 == i;
    }
  }

  datatype Outcome = Outcome(ok: bool, error: string)

  datatype Sample = Sample(venue: string, ok: bool, error: string, orderRefs: nat, cleanup: Option<Outcome>)

  datatype Item = Item(venue: string, hasCleanup: bool, enabled: bool, afterSample: bool, strict: bool, spinLead: int, lockThreads: bool)

  function AppendError(current: string, extra: string): string {
    if current == "" then extra else if extra == "" then current else current + "; " + extra
  }

  // A cleanup's outcome attached to its sample; in strict mode a failed cleanup fails the sample.
  function WithCleanup(s: Sample, o: Outcome, strict: bool): Sample {
    if strict && !o.ok then s.(cleanup := Some(o), ok := false, error := AppendError(s.error, "cleanup: " + o.error))
    else s.(cleanup := Some(o))
  }

  // A sample keeps its venue and order references and gains the outcome; it stays OK exactly when
  // it was and the cleanup was or is not strict; a strict failure is told after what was told before.
  ghost predicate CleanedUp(before: Sample, after: Sample, o: Outcome, strict: bool) {
    && after.venue == before.venue && after.orderRefs == before.orderRefs && after.cleanup == Some(o)
    && (after.ok <==> before.ok && (o.ok || !strict))
    && (o.ok || !strict ==> after.error == before.error)
    && (!o.ok && strict ==> after.error == (if before.error == "" then "" else before.error + "; ") + "cleanup: " + o.error)
  }

  lemma WithCleanupCleansUp(s: Sample, o: Outcome, strict: bool)
    ensures CleanedUp(s, WithCleanup(s, o, strict), o, strict)
  {
  }

  // The last item of each venue.
  method ItemsByVenue(items: seq<Item>) returns (byVenue: map<string, Item>)
    ensures forall v :: v in byVenue <==> exists i :: 0 <= i < |items| && items[i].venue == v
    ensures forall v | v in byVenue :: LastOf(items, v, byVenue[v])
  {
    byVenue := map[];
    for n := 0 to |items|
      invariant forall v :: v in byVenue <==> exists i :: 0 <= i < n && items[i].venue == v
      invariant forall v | v in byVenue :: LastOf(items[..n], v, byVenue[v])
    {
      LastOfMore(items[..n], items[n], byVenue);
      assert items[..n + 1] == items[..n] + [items[n]];
      byVenue := byVenue[items[n].venue := items[n]];
    }
    assert items[..|items|] == items;
  }

  // The item is the last of its venue.
  ghost predicate LastOf(items: seq<Item>, venue: string, item: Item) {
    exists i :: 0 <= i < |items| && items[i] == item && item.venue == venue && forall j | i < j < |items| :: items[j].venue != venue
  }

  lemma LastOfMore(items: seq<Item>, item: Item, byVenue: map<string, Item>)
    requires forall v | v in byVenue :: LastOf(items, v, byVenue[v])
    ensures LastOf(items + [item], item.venue, item)
    ensures forall v | v in byVenue && v != item.venue :: LastOf(items + [item], v, byVenue[v])
  {
    var more := items + [item];
    assert more[|items|] == item;
    forall v | v in byVenue && v != item.venue ensures LastOf(more, v, byVenue[v]) {
      var i :| 0 <= i < |items| && items[i] == byVenue[v] && byVenue[v].venue == v && forall j | i < j < |items| :: items[j].venue != v;
      assert more[i] == byVenue[v];
    }
  }

  predicate Cleans(s: Sample, byVenue: map<string, Item>) {
    && s.venue in byVenue && byVenue[s.venue].hasCleanup
    && byVenue[s.venue].enabled && byVenue[s.venue].afterSample
    && (s.ok || s.orderRefs > 0)
  }

  // A sample is cleaned up after exactly when its venue's last item has a cleanup that is enabled
  // after samples, and it succeeded or left order references.
  lemma CleansIff(s: Sample, item: Item, byVenue: map<string, Item>)
    requires s.venue in byVenue ==> item == byVenue[s.venue]
    ensures Cleans(s, byVenue) <==>
              s.venue in byVenue && item.hasCleanup && item.enabled && item.afterSample && !(!s.ok && s.orderRefs == 0)
  {
  }

  // The samples to clean up after, in order.
  method SelectCleanups(samples: array<Sample>, byVenue: map<string, Item>) returns (picked: seq<nat>)
    ensures forall i :: i in picked <==> 0 <= i < samples.Length && Cleans(samples[i], byVenue)
    ensures forall j, k | 0 <= j < k < |picked| :: picked[j] < picked[k]
  {
    picked := [];
    for i := 0 to samples.Length
      invariant forall k :: k in picked <==> 0 <= k < i && Cleans(samples[k], byVenue)
      invariant forall j, k | 0 <= j < k < |picked| :: picked[j] < picked[k]
    {
      if Cleans(samples[i], byVenue) {
        assert forall k | 0 <= k < |picked| :: picked[k] in picked;
        picked := picked + [i];
      }
    }
  }

  // The greatest spin lead of the items to clean up, and whether any of them locks threads.
  method CleanupCoordination(items: seq<Item>) returns (spinLead: int, lockThreads: bool)
    ensures spinLead >= 0 && (forall i | 0 <= i < |items| :: items[i].spinLead <= spinLead)
    ensures spinLead == 0 || exists i :: 0 <= i < |items| && items[i].spinLead == spinLead
    ensures lockThreads <==> exists i :: 0 <= i < |items| && items[i].lockThreads
  {
    spinLead, lockThreads := 0, false;
    for n := 0 to |items|
      invariant spinLead >= 0 && (forall i | 0 <= i < n :: items[i].spinLead <= spinLead)
      invariant spinLead == 0 || exists i :: 0 <= i < n && items[i].spinLead == spinLead
      invariant lockThreads <==> exists i :: 0 <= i < n && items[i].lockThreads
    {
      if items[n].spinLead > spinLead {
        spinLead := items[n].spinLead;
      }
      if items[n].lockThreads {
        lockThreads := true;
      }
    }
  }

  // Attaches the cleanups, whose outcomes arrive in some order, to exactly the samples picked.
  method ApplyCleanups(samples: array<Sample>, byVenue: map<string, Item>, outcomes: seq<Outcome>, arrival: seq<nat>)
    requires |outcomes| == samples.Length && Distinct(arrival)
    requires forall i :: i in arrival <==> 0 <= i < samples.Length && Cleans(samples[i], byVenue)
    modifies samples
    ensures forall i | 0 <= i < samples.Length ::
              samples[i] == if Cleans(old(samples[i]), byVenue)
                            then WithCleanup(old(samples[i]), outcomes[i], byVenue[old(samples[i]).venue].strict) else old(samples[i])
    ensures forall i | 0 <= i < samples.Length && Cleans(old(samples[i]), byVenue) ::
              CleanedUp(old(samples[i]), samples[i], outcomes[i], byVenue[old(samples[i]).venue].strict)
  {
    for n := 0 to |arrival|
      invariant forall i | 0 <= i < samples.Length ::
                  samples[i] == if i in arrival[..n]
                                then WithCleanup(old(samples[i]), outcomes[i], byVenue[old(samples[i]).venue].strict) else old(samples[i])
    {
      var i := arrival[n];
      assert i in arrival;
      assert i !in arrival[..n];
      samples[i] := samples[i].(cleanup := Some(outcomes[i]));
      if byVenue[samples[i].venue].strict && !outcomes[i].ok {
        samples[i] := samples[i].(ok := false, error := AppendError(samples[i].error, "cleanup: " + outcomes[i].error));
      }
      assert arrival[..n + 1] == arrival[..n] + [i];
    }
    assert arrival[..|arrival|] == arrival;
  }
}
