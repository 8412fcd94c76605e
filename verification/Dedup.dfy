// Block deduplication of the Hyperliquid collector (internal/exchangetps/hyperliquid.go) over any
// number of websocket sessions: heights are remembered, old ones pruned, and the minutes in which
// sessions started are ignored.
module Dedup {
  import opened Common
  import Ledger

  const KEEP_RECENT: nat := 10000

  datatype Block = Block(height: int, timeMs: int, txs: int)

  // The fields of the collector, and what was counted: every block, the heights ever counted and
  // those counted since the highest height last rose.
  datatype State = State(seen: set<int>, lastHeight: int, ignoreThrough: int, counted: seq<Block>, ever: set<int>, since: set<int>)

  const NEW := State({}, 0, 0, [], {}, {})

  function MinuteOf(ms: nat): nat {
    Ledger.BucketOf(ms, ms)
  }

  predicate Ignored(s: State, b: Block) {
    b.timeMs <= 0 || MinuteOf(b.timeMs) <= s.ignoreThrough
  }

  predicate Acceptable(s: State, height: int) {
    height > 0 && height !in s.seen
  }

  function Pruned(seen: set<int>, last: int): set<int> {
    if last - KEEP_RECENT <= 0 then seen else set h | h in seen && h >= last - KEEP_RECENT
  }

  function Accept(s: State, height: int): State {
    var seen := s.seen + {height};
    if height > s.lastHeight then
      s.(seen := Pruned(seen, height), lastHeight := height, ever := s.ever + {height}, since := {})
    else s.(seen := seen, ever := s.ever + {height}, since := s.since + {height})
  }

  predicate Counts(s: State, b: Block) {
    !Ignored(s, b) && Acceptable(s, b.height)
  }

  function DoBlock(s: State, b: Block): State {
    if Counts(s, b) then Accept(s, b.height).(counted := s.counted + [b]) else s
  }

  datatype Step = Start(nowMs: nat) | Receive(block: Block)

  function Do(s: State, step: Step): State {
    match step
    case Start(nowMs) => s.(ignoreThrough := Max(s.ignoreThrough, MinuteOf(nowMs)))
    case Receive(block) => DoBlock(s, block)
  }

  function Run(init: State, steps: seq<Step>): State {
    if steps == [] then init else Do(Run(init, steps[..|steps| - 1]), steps[|steps| - 1])
  }

  // ------------------------------------------------------------------ what is remembered

  function Heights(bs: seq<Block>): set<int> {
    set i | 0 <= i < |bs| :: bs[i].height
  }

  // Remembered are exactly the counted heights within 10000 of the highest, and those counted
  // since it last rose.
  ghost predicate Remembers(s: State) {
    && s.ever == Heights(s.counted) && s.since <= s.ever
    && (forall h | h in s.ever :: 0 < h <= s.lastHeight)
    && (if s.ever == {} then s.lastHeight == 0 else s.lastHeight in s.ever)
    && (forall h :: h in s.seen <==> h in s.ever && (h >= s.lastHeight - KEEP_RECENT || h in s.since))
  }

  lemma RemembersAccept(s: State, b: Block)
    requires Remembers(s) && Counts(s, b)
    ensures Remembers(DoBlock(s, b))
  {
    var t := DoBlock(s, b);
    assert t.counted[|s.counted|] == b;
    assert forall i | 0 <= i < |s.counted| :: t.counted[i] == s.counted[i];
    assert Heights(t.counted) == Heights(s.counted) + {b.height};
  }

  lemma {:induction false} RemembersReachable(steps: seq<Step>)
    ensures Remembers(Run(NEW, steps))
  {
    if steps != [] {
      RemembersReachable(steps[..|steps| - 1]);
      var s, step := Run(NEW, steps[..|steps| - 1]), steps[|steps| - 1];
      if step.Receive? && Counts(s, step.block) {
        RemembersAccept(s, step.block);
      }
    }
  }

  // A height counted before is counted again exactly when it had fallen more than 10000 below the
  // highest height accepted and was not itself counted since that highest was reached.
  lemma CountedAgainIff(steps: seq<Step>, b: Block)
    requires var s := Run(NEW, steps); b.height in Heights(s.counted) && !Ignored(s, b)
    ensures var s := Run(NEW, steps);
            Counts(s, b) <==> b.height < s.lastHeight - 10000 && b.height !in s.since
  {
    RemembersReachable(steps);
  }

  // The same seen from the log: of two counted blocks of one height, the later was counted when
  // the highest height accepted by then was more than 10000 above.
  lemma {:induction false} DoubleCountedFarBelow(steps: seq<Step>, i: nat, j: nat)
    requires i < j < |Run(NEW, steps).counted| && Run(NEW, steps).counted[i].height == Run(NEW, steps).counted[j].height
    ensures exists k :: 0 <= k < j && Run(NEW, steps).counted[k].height > Run(NEW, steps).counted[j].height + KEEP_RECENT
  {
    var before, step := Run(NEW, steps[..|steps| - 1]), steps[|steps| - 1];
    var t := Run(NEW, steps);
    if j < |before.counted| {
      DoubleCountedFarBelow(steps[..|steps| - 1], i, j);
      var k :| 0 <= k < j && before.counted[k].height > before.counted[j].height + KEEP_RECENT;
      assert t.counted[k] == before.counted[k] && t.counted[j] == before.counted[j];
    } else {
      RemembersReachable(steps[..|steps| - 1]);
      assert before.counted[i].height in Heights(before.counted);
      assert before.lastHeight in Heights(before.counted);
      var k :| 0 <= k < |before.counted| && before.counted[k].height == before.lastHeight;
      assert t.counted[k] == before.counted[k];
    }
  }

  // lastHeight is the greatest height counted.
  lemma LastHeightIsMax(steps: seq<Step>)
    ensures var s := Run(NEW, steps);
            && (forall i | 0 <= i < |s.counted| :: s.counted[i].height <= s.lastHeight)
            && (s.counted != [] ==> exists i :: 0 <= i < |s.counted| && s.counted[i].height == s.lastHeight)
  {
    RemembersReachable(steps);
    var s := Run(NEW, steps);
    forall i | 0 <= i < |s.counted| ensures s.counted[i].height <= s.lastHeight {
      assert s.counted[i].height in s.ever;
    }
    if s.counted != [] {
      assert s.counted[0].height in s.ever;
    }
  }

  lemma {:induction false} RangeSize(s: set<int>, lo: int, hi: int)
    requires forall h | h in s :: lo <= h < hi
    requires lo <= hi
    ensures |s| <= hi - lo
    decreases hi - lo
  {
    if lo < hi {
      RangeSize(s - {hi - 1}, lo, hi - 1);
    } else if s != {} {
      var x := Member(s);
    }
  }

  // When the highest height rises, at most 10001 heights stay remembered.
  lemma RememberedBound(steps: seq<Step>, b: Block)
    requires var s := Run(NEW, steps); Counts(s, b) && b.height > s.lastHeight
    ensures |DoBlock(Run(NEW, steps), b).seen| <= 10001
  {
    var s := Run(NEW, steps);
    RemembersReachable(steps);
    RemembersAccept(s, b);
    var t := DoBlock(s, b);
    RangeSize(t.seen, b.height - KEEP_RECENT, b.height + 1);
  }

  // ------------------------------------------------------------------ session starts

  // No counted block lies in or before the minute in which an earlier or the current session
  // started; init is the state as that session starts.
  lemma {:induction false} CountedAfterStart(init: State, nowMs: nat, steps: seq<Step>)
    ensures var s, t := Do(init, Start(nowMs)), Run(Do(init, Start(nowMs)), steps);
            && s.counted <= t.counted && s.ignoreThrough <= t.ignoreThrough
            && (forall i | |s.counted| <= i < |t.counted| :: t.counted[i].timeMs > 0 && MinuteOf(t.counted[i].timeMs) > MinuteOf(nowMs))
  {
    if steps != [] {
      CountedAfterStart(init, nowMs, steps[..|steps| - 1]);
    }
  }

  // No block counted from s on lies in the minute of dropMs.
  ghost predicate Spares(s: State, dropMs: nat) {
    forall steps: seq<Step>, i | |s.counted| <= i < |Run(s, steps).counted| ::
      Run(s, steps).counted[i].timeMs > 0 && MinuteOf(Run(s, steps).counted[i].timeMs) != MinuteOf(dropMs)
  }

  lemma {:induction false} FreeHeight(seen: set<int>) returns (h: int)
    ensures h > 0 && forall x | x in seen :: x < h
  {
    if seen == {} {
      h := 1;
    } else {
      var x := Member(seen);
      var above := FreeHeight(seen - {x});
      h := Max(above, x + 1);
      assert forall y | y in seen :: y == x || y in seen - {x};
    }
  }

  lemma {:induction false} CountedBeyondIgnored(s: State, steps: seq<Step>, i: nat)
    requires |s.counted| <= i < |Run(s, steps).counted|
    ensures var b := Run(s, steps).counted[i]; b.timeMs > 0 && MinuteOf(b.timeMs) > s.ignoreThrough
  {
    var rest := steps[..|steps| - 1];
    if i < |Run(s, rest).counted| {
      CountedBeyondIgnored(s, rest, i);
    } else {
      IgnoreThroughGrows(s, rest);
    }
  }

  lemma {:induction false} IgnoreThroughGrows(s: State, steps: seq<Step>)
    ensures Run(s, steps).ignoreThrough >= s.ignoreThrough && s.counted <= Run(s, steps).counted
  {
    if steps != [] {
      IgnoreThroughGrows(s, steps[..|steps| - 1]);
    }
  }

  // When a session ends it drops the bucket of dropMs, the clock as read at its start just after
  // the minute to ignore had been.  No block it counts lies in that bucket exactly when the clock
  // had not passed beyond the ignored minutes by then; otherwise a block may be counted and
  // dropped.
  lemma DropSparesSessionIff(init: State, ignoreMs: nat, dropMs: nat)
    requires init.ignoreThrough >= 0
    ensures Spares(Do(init, Start(ignoreMs)), dropMs) <==> MinuteOf(dropMs) <= Max(init.ignoreThrough, MinuteOf(ignoreMs))
  {
    var s := Do(init, Start(ignoreMs));
    if MinuteOf(dropMs) <= s.ignoreThrough {
      forall steps: seq<Step>, i | |s.counted| <= i < |Run(s, steps).counted|
        ensures Run(s, steps).counted[i].timeMs > 0 && MinuteOf(Run(s, steps).counted[i].timeMs) != MinuteOf(dropMs)
      {
        CountedBeyondIgnored(s, steps, i);
      }
    } else {
      var h := FreeHeight(s.seen);
      var b := Block(h, dropMs, 0);
      assert [Receive(b)][..0] == [];
      assert Run(s, [Receive(b)]) == DoBlock(s, b);
      assert Run(s, [Receive(b)]).counted[|s.counted|] == b;
    }
  }

  lemma RunNext(s: State, steps: seq<Step>, step: Step)
    ensures Run(s, steps + [step]) == Do(Run(s, steps), step)
  {
    assert (steps + [step])[..|steps|] == steps;
  }

  // Every session so far started in a minute before the block's.
  ghost predicate AfterStarts(steps: seq<Step>, timeMs: nat) {
    forall k | 0 <= k < |steps| && steps[k].Start? :: steps[k].nowMs / 60000 < timeMs / 60000
  }

  lemma MinutesAre(ms: nat)
    ensures MinuteOf(ms) == ms / 60000 * 60
  {
    Ledger.BucketHolds(ms, ms);
  }

  lemma {:induction false} IgnoredIff(steps: seq<Step>, timeMs: nat)
    requires timeMs >= 60000
    ensures MinuteOf(timeMs) > Run(NEW, steps).ignoreThrough <==> AfterStarts(steps, timeMs)
  {
    MinutesAre(timeMs);
    if steps != [] {
      var n := |steps| - 1;
      IgnoredIff(steps[..n], timeMs);
      IgnoredNext(Run(NEW, steps[..n]), steps[n]);
      if steps[n].Start? {
        MinutesAre(steps[n].nowMs);
      }
      assert AfterStarts(steps, timeMs) <==> AfterStarts(steps[..n], timeMs) && (steps[n].Start? ==> steps[n].nowMs / 60000 < timeMs / 60000) by {
        assert forall k | 0 <= k < n :: steps[..n][k] == steps[k];
      }
    }
  }

  lemma IgnoredNext(s: State, step: Step)
    ensures Do(s, step).ignoreThrough == if step.Start? then Max(s.ignoreThrough, MinuteOf(step.nowMs)) else s.ignoreThrough
  {
  }

  // In every run a block received is counted exactly when it has a height, lies in a minute after
  // those of 1970's first and of every session start, and its height is new or had fallen far
  // enough below the highest.
  lemma ReceivedIsCountedIff(steps: seq<Step>, b: Block)
    ensures var s := Run(NEW, steps);
            Run(NEW, steps + [Receive(b)]).counted
            == if b.height > 0 && b.timeMs >= 60000 && AfterStarts(steps, b.timeMs)
                  && (b.height !in Heights(s.counted) || (b.height < s.lastHeight - 10000 && b.height !in s.since))
               then s.counted + [b] else s.counted
  {
    RunNext(NEW, steps, Receive(b));
    RemembersReachable(steps);
    IgnoreThroughGrows(NEW, steps);
    if b.timeMs >= 60000 {
      IgnoredIff(steps, b.timeMs);
    }
    CountsIff(Run(NEW, steps), b, b.timeMs >= 60000 && AfterStarts(steps, b.timeMs));
  }

  lemma CountsIff(s: State, b: Block, after: bool)
    requires Remembers(s) && s.ignoreThrough >= 0
    requires after <==> b.timeMs >= 60000 && MinuteOf(b.timeMs) > s.ignoreThrough
    ensures Counts(s, b) <==> b.height > 0 && after && (b.height !in Heights(s.counted) || (b.height < s.lastHeight - 10000 && b.height !in s.since))
  {
    if b.timeMs > 0 {
      MinutesAre(b.timeMs);
    }
  }

  lemma RunPrefix(s: State, steps: seq<Step>, n: nat)
    requires 0 < n <= |steps|
    ensures Run(s, steps[..n]) == Do(Run(s, steps[..n - 1]), steps[n - 1])
  {
    assert steps[..n][..n - 1] == steps[..n - 1];
  }

  // A block is counted, a height 10001 above it is counted, and the block is counted again.
  lemma {:induction false} CountedTwice(b: Block, far: Block, steps: seq<Step>)
    requires |steps| == 3 && steps[0] == steps[2] == Receive(b) && steps[1] == Receive(far)
    requires b.height > 0 && far.height > b.height + KEEP_RECENT && b.timeMs >= 60_000 && far.timeMs >= 60_000
    ensures Run(NEW, steps).counted == [b, far, b]
  {
    RunPrefix(NEW, steps, 1);
    RunPrefix(NEW, steps, 2);
    RunPrefix(NEW, steps, 3);
    assert steps[..3] == steps && Run(NEW, steps[..0]) == NEW;
    CountedFirst(b);
    CountedFar(Run(NEW, steps[..1]), b, far);
    CountedAgain(Run(NEW, steps[..2]), b);
  }

  lemma CountedFirst(b: Block)
    requires b.height > 0 && b.timeMs >= 60_000
    ensures var s := DoBlock(NEW, b); s.seen == {b.height} && s.lastHeight == b.height && s.counted == [b] && s.ignoreThrough == 0
  {
  }

  lemma CountedFar(s: State, b: Block, far: Block)
    requires s.seen == {b.height} && s.lastHeight == b.height && s.counted == [b] && s.ignoreThrough == 0
    requires b.height > 0 && far.height > b.height + KEEP_RECENT && far.timeMs >= 60_000
    ensures var t := DoBlock(s, far); t.counted == [b, far] && b.height !in t.seen && t.ignoreThrough == 0
  {
    assert [b] + [far] == [b, far];
  }

  lemma CountedAgain(s: State, b: Block)
    requires b.height > 0 && b.timeMs >= 60_000 && b.height !in s.seen && s.ignoreThrough == 0
    ensures DoBlock(s, b).counted == s.counted + [b]
  {
  }

  // The clock passes into the next minute between the two readings at a session's start, and a
  // block of that minute is counted: it lies in the bucket that the session drops at its end.
  lemma CountedThenDropped(txs: int)
    ensures var b := Block(1, 60_000, txs);
            Run(NEW, [Start(59_999), Receive(b)]).counted == [b] && MinuteOf(b.timeMs) == MinuteOf(60_001)
  {
    var b := Block(1, 60_000, txs);
    RunNext(NEW, [], Start(59_999));
    RunNext(NEW, [Start(59_999)], Receive(b));
    assert [] + [Start(59_999)] == [Start(59_999)] && [Start(59_999)] + [Receive(b)] == [Start(59_999), Receive(b)];
  }

  // ------------------------------------------------------------------ the collector

  function SlotsOf(taken: map<nat, set<nat>>, bucket: nat): set<nat> {
    if bucket in taken then taken[bucket] else {}
  }

  // A slot taken, and the minutes more than two minutes older forgotten.
  function Taking(taken: map<nat, set<nat>>, bucket: nat, slot: nat): map<nat, set<nat>> {
    map b | b in taken.Keys + {bucket} && b + 120 >= bucket :: SlotsOf(taken, b) + if b == bucket then {slot} else {}
  }

  lemma TakingIs(taken: map<nat, set<nat>>, bucket: nat, slot: nat, t: map<nat, set<nat>>)
    requires forall b :: b in t <==> (b in taken || b == bucket) && b + 120 >= bucket
    requires forall b | b in t :: t[b] == SlotsOf(taken, b) + if b == bucket then {slot} else {}
    ensures t == Taking(taken, bucket, slot)
  {
    assert t.Keys == Taking(taken, bucket, slot).Keys;
  }

  lemma SlotBounds(elapsedMs: nat, n: nat)
    requires n > 0 && elapsedMs < 60000
    ensures var slot := elapsedMs * n / 60000; slot < n && slot * 60000 <= elapsedMs * n < (slot + 1) * 60000
  {
    ProductBelow(elapsedMs, n);
    QuotientBelow(elapsedMs * n, n);
  }

  lemma ProductBelow(a: nat, n: nat)
    requires a <= 59999
    ensures a * n <= 59999 * n
  {
    assert (59999 - a) * n >= 0;
  }

  lemma QuotientBelow(p: nat, n: nat)
    requires n > 0 && p <= 59999 * n
    ensures p / 60000 < n && p / 60000 * 60000 <= p < (p / 60000 + 1) * 60000
  {
  }

  // Which of n equal parts of its minute a block lies in.
  function SampleSlot(timeMs: nat, n: nat): (slot: nat)
    requires n > 0
    ensures slot < n
    ensures slot * 60000 <= timeMs % 60000 * n < (slot + 1) * 60000
  {
    SlotBounds(timeMs % 60000, n);
    timeMs % 60000 * n / 60000
  }

  // Of the blocks of one minute at most n are sampled while the minute is remembered.
  lemma AtMostPerMinute(taken: map<nat, set<nat>>, bucket: nat, n: nat)
    requires Bounded(taken, n)
    ensures |SlotsOf(taken, bucket)| <= n
  {
    NatRangeSize(SlotsOf(taken, bucket), n);
  }

  lemma {:induction false} NatRangeSize(s: set<nat>, n: nat)
    requires forall x | x in s :: x < n
    ensures |s| <= n
  {
    if n > 0 {
      NatRangeSize(s - {n - 1}, n - 1);
    } else if s != {} {
      var x := Member(s);
    }
  }

  ghost predicate Bounded(taken: map<nat, set<nat>>, n: int) {
    forall b | b in taken :: Below(taken[b], n)
  }

  ghost predicate Below(slots: set<nat>, n: int) {
    forall slot | slot in slots :: slot < n
  }

  // ------------------------------------------------------------------ which blocks are sampled

  // The slots taken in each minute, and the queue of blocks to sample.
  datatype Sampler = Sampler(taken: map<nat, set<nat>>, jobs: seq<Block>)

  // The queue of blocks to sample exists only when samples are asked for.
  function Capacity(n: int): nat {
    if n <= 0 then 0 else Max(2 * n, 10)
  }

  // A counted block is offered for a sample: it takes its slot unless that is taken, and is queued
  // where there is room.
  function Sampled(n: int, s: Sampler, b: Block): Sampler {
    if n <= 0 || b.timeMs <= 0 || SampleSlot(b.timeMs, n) in SlotsOf(s.taken, MinuteOf(b.timeMs)) then s
    else Sampler(Taking(s.taken, MinuteOf(b.timeMs), SampleSlot(b.timeMs, n)), if |s.jobs| < Capacity(n) then s.jobs + [b] else s.jobs)
  }

  function SampledAll(n: int, s: Sampler, counted: seq<Block>): Sampler {
    if counted == [] then s else Sampled(n, SampledAll(n, s, counted[..|counted| - 1]), counted[|counted| - 1])
  }

  lemma SampledMore(n: int, s: Sampler, counted: seq<Block>, b: Block)
    ensures SampledAll(n, s, counted + [b]) == Sampled(n, SampledAll(n, s, counted), b)
  {
    assert (counted + [b])[..|counted|] == counted;
  }

  // The block lies in this part of this minute.
  predicate InSlot(n: int, b: Block, minute: nat, slot: nat)
    requires n > 0
  {
    b.timeMs > 0 && MinuteOf(b.timeMs) == minute && SampleSlot(b.timeMs, n) == slot
  }

  ghost predicate SomeInSlot(n: int, bs: seq<Block>, minute: nat, slot: nat)
    requires n > 0
  {
    exists i | 0 <= i < |bs| :: InSlot(n, bs[i], minute, slot)
  }

  // Until a block more than two minutes later comes, a slot is taken exactly when it was before or
  // some counted block lies in it.
  lemma {:induction false} TakenIff(n: int, s: Sampler, counted: seq<Block>, minute: nat, slot: nat)
    requires n > 0 && forall i | 0 <= i < |counted| && counted[i].timeMs > 0 :: MinuteOf(counted[i].timeMs) <= minute + 120
    ensures slot in SlotsOf(SampledAll(n, s, counted).taken, minute) <==> slot in SlotsOf(s.taken, minute) || SomeInSlot(n, counted, minute, slot)
  {
    if counted != [] {
      var k := |counted| - 1;
      TakenIff(n, s, counted[..k], minute, slot);
      assert SomeInSlot(n, counted, minute, slot) <==> SomeInSlot(n, counted[..k], minute, slot) || InSlot(n, counted[k], minute, slot) by {
        assert forall i | 0 <= i < k :: counted[..k][i] == counted[i];
      }
      TakenNext(n, SampledAll(n, s, counted[..k]), counted[k], minute, slot);
    }
  }

  lemma TakenNext(n: int, s: Sampler, b: Block, minute: nat, slot: nat)
    requires n > 0 && (b.timeMs > 0 ==> MinuteOf(b.timeMs) <= minute + 120)
    ensures slot in SlotsOf(Sampled(n, s, b).taken, minute) <==> slot in SlotsOf(s.taken, minute) || InSlot(n, b, minute, slot)
  {
  }

  // The next counted block is queued exactly when samples are asked for, it has a time, there is
  // room, and neither an earlier taking nor a counted block had its slot, where none of those
  // blocks lies more than two minutes after it.
  lemma SampledIff(n: int, s: Sampler, counted: seq<Block>, b: Block)
    requires forall i | 0 <= i < |counted| && counted[i].timeMs > 0 && b.timeMs > 0 :: MinuteOf(counted[i].timeMs) <= MinuteOf(b.timeMs) + 120
    ensures var before, after := SampledAll(n, s, counted).jobs, SampledAll(n, s, counted + [b]).jobs;
            && (after == before || after == before + [b])
            && (|after| > |before| <==>
                  && n > 0 && b.timeMs > 0 && |before| < Capacity(n)
                  && SampleSlot(b.timeMs, n) !in SlotsOf(s.taken, MinuteOf(b.timeMs))
                  && !SomeInSlot(n, counted, MinuteOf(b.timeMs), SampleSlot(b.timeMs, n)))
  {
    SampledMore(n, s, counted, b);
    if n > 0 && b.timeMs > 0 {
      TakenIff(n, s, counted, MinuteOf(b.timeMs), SampleSlot(b.timeMs, n));
    }
  }

  class Collector {
    const samplesPerMinute: int
    var seen: set<int>
    var lastHeight: int
    var ignoreThroughBucket: int
    var sampledActionSlots: map<nat, set<nat>>
    var detailJobs: seq<Block>
    ghost var history: State

    ghost predicate Valid()
      reads this
    {
      && seen == history.seen && lastHeight == history.lastHeight && ignoreThroughBucket == history.ignoreThrough
      && Bounded(sampledActionSlots, samplesPerMinute) && |detailJobs| <= Capacity(samplesPerMinute)
    }

    ghost function Sampling(): Sampler
      reads this
    {
      Sampler(sampledActionSlots, detailJobs)
    }

    constructor (samplesPerMinute: int)
      ensures Valid() && history == NEW && this.samplesPerMinute == samplesPerMinute
    {
      this.samplesPerMinute := samplesPerMinute;
      seen, lastHeight, ignoreThroughBucket, sampledActionSlots, detailJobs := {}, 0, 0, map[], [];
      history := NEW;
    }

    method IgnoreCurrentSessionStartBucket(nowMs: nat)
      requires Valid()
      modifies this
      ensures Valid() && history == Do(old(history), Start(nowMs)) && sampledActionSlots == old(sampledActionSlots)
    {
      var bucket := nowMs / 60000 * 60;
      if bucket > ignoreThroughBucket {
        ignoreThroughBucket := bucket;
      }
      history := Do(history, Start(nowMs));
    }

    method ShouldIgnoreBlock(timeMs: int) returns (ignore: bool)
      requires Valid()
      ensures ignore <==> timeMs <= 0 || MinuteOf(timeMs) <= history.ignoreThrough
    {
      if timeMs <= 0 {
        return true;
      }
      Ledger.BucketIsFloor(timeMs);
      ignore := Ledger.FloorUnix(timeMs / 1000, 60) <= ignoreThroughBucket;
    }

    method PruneSeen()
      modifies this`seen
      ensures seen == Pruned(old(seen), lastHeight)
    {
      var pruneBelow := lastHeight - KEEP_RECENT;
      if pruneBelow <= 0 {
        return;
      }
      var left := seen;
      while left != {}
        invariant left <= old(seen)
        invariant seen == set h | h in old(seen) && (h in left || h >= pruneBelow)
      {
        var h := Choose(left);
        left := left - {h};
        if h < pruneBelow {
          seen := seen - {h};
        }
      }
    }

    method AcceptHeight(height: int) returns (last: int, gap: bool, accepted: bool)
      requires Valid()
      modifies this`seen, this`lastHeight
      ensures accepted <==> Acceptable(history, height)
      ensures last == old(lastHeight) && (gap <==> accepted && last > 0 && height > last + 1)
      ensures accepted ==> seen == Accept(history, height).seen && lastHeight == Accept(history, height).lastHeight
      ensures !accepted ==> seen == old(seen) && lastHeight == old(lastHeight)
    {
      if height <= 0 || height in seen {
        return lastHeight, false, false;
      }
      last, accepted := lastHeight, true;
      gap := last > 0 && height > last + 1;
      seen := seen + {height};
      if height > lastHeight {
        lastHeight := height;
        PruneSeen();
      }
    }

    // Takes the sample slot of the block's minute, unless a block had it before.
    method ShouldSampleActionBreakdown(timeMs: int) returns (sample: bool)
      requires Valid()
      modifies this`sampledActionSlots
      ensures Valid()
      ensures sample <==> samplesPerMinute > 0 && timeMs > 0
                          && SampleSlot(timeMs, samplesPerMinute) !in SlotsOf(old(sampledActionSlots), MinuteOf(timeMs))
      ensures sample ==> sampledActionSlots == Taking(old(sampledActionSlots), MinuteOf(timeMs), SampleSlot(timeMs, samplesPerMinute))
      ensures !sample ==> sampledActionSlots == old(sampledActionSlots)
    {
      if samplesPerMinute <= 0 || timeMs <= 0 {
        return false;
      }
      var bucket := MinuteOf(timeMs);
      var slot := SampleSlot(timeMs, samplesPerMinute);
      var slots := SlotsOf(sampledActionSlots, bucket);
      sampledActionSlots := sampledActionSlots[bucket := slots];
      if slot in slots {
        assert sampledActionSlots == old(sampledActionSlots);
        return false;
      }
      assert Below(slots + {slot}, samplesPerMinute);
      sampledActionSlots := sampledActionSlots[bucket := slots + {slot}];
      ghost var taken := old(sampledActionSlots);
      sampledActionSlots := map b | b in sampledActionSlots && b + 120 >= bucket :: sampledActionSlots[b];
      TakingIs(taken, bucket, slot, sampledActionSlots);
      sample := true;
    }

    // A send that gives up when the queue is full.
    method EnqueueActionSample(block: Block)
      modifies this`detailJobs
      ensures detailJobs == if |old(detailJobs)| < Capacity(samplesPerMinute) then old(detailJobs) + [block] else old(detailJobs)
    {
      if |detailJobs| < Capacity(samplesPerMinute) {
        detailJobs := detailJobs + [block];
      }
    }

    // Messages of the block channel, and those that are no tagged object, carry blocks.
    method HandleMessage(m: Message, a: Ledger.Aggregator)
      requires Valid() && a.Valid()
      modifies this, a
      ensures Valid() && a.Valid() && history == RunBlocks(old(history), BlocksOf(m))
      ensures old(history).counted <= history.counted
      ensures a.pending == Buckets(old(a.pending), history.counted[|old(history).counted|..])
      ensures Sampling() == SampledAll(samplesPerMinute, old(Sampling()), history.counted[|old(history).counted|..])
    {
      if m.Tagged? {
        if m.channel.Subscription? || m.channel.Pong? {
          assert history.counted[|history.counted|..] == [];
          return;
        }
        if m.channel.ExplorerBlock? {
          HandleBlocks(m.data, a);
          return;
        }
        if m.hasData {
          assert history.counted[|history.counted|..] == [];
          return;
        }
      }
      HandleBlocks(m.body, a);
    }

    // Counts the blocks that are neither ignored nor seen, each into its minute, and offers those
    // counted for a sample.
    method HandleBlocks(blocks: seq<Block>, a: Ledger.Aggregator)
      requires Valid() && a.Valid()
      modifies this, a
      ensures Valid() && a.Valid() && history == RunBlocks(old(history), blocks)
      ensures old(history).counted <= history.counted
      ensures a.pending == Buckets(old(a.pending), history.counted[|old(history).counted|..])
      ensures Sampling() == SampledAll(samplesPerMinute, old(Sampling()), history.counted[|old(history).counted|..])
    {
      var i := 0;
      assert history.counted[|history.counted|..] == [];
      while i < |blocks|
        invariant 0 <= i <= |blocks|
        invariant Valid() && a.Valid() && history == RunBlocks(old(history), blocks[..i])
        invariant old(history).counted <= history.counted
        invariant a.pending == Buckets(old(a.pending), history.counted[|old(history).counted|..])
        invariant Sampling() == SampledAll(samplesPerMinute, old(Sampling()), history.counted[|old(history).counted|..])
      {
        assert blocks[..i + 1][..i] == blocks[..i];
        HandleBlock(blocks[i], a, old(history), old(a.pending), old(Sampling()));
        i := i + 1;
      }
      assert blocks[..|blocks|] == blocks;
    }

    method HandleBlock(block: Block, a: Ledger.Aggregator, ghost first: State, ghost pending: Ledger.Table, ghost sampler: Sampler)
      requires Valid() && a.Valid()
      requires first.counted <= history.counted && Sampling() == SampledAll(samplesPerMinute, sampler, history.counted[|first.counted|..])
      requires a.pending == Buckets(pending, history.counted[|first.counted|..])
      modifies this, a
      ensures Valid() && a.Valid() && history == DoBlock(old(history), block)
      ensures first.counted <= history.counted && a.pending == Buckets(pending, history.counted[|first.counted|..])
      ensures Sampling() == SampledAll(samplesPerMinute, sampler, history.counted[|first.counted|..])
    {
      ghost var more := history.counted[|first.counted|..];
      var counted := CountBlock(block, a, first, pending);
      if counted {
        SampledMore(samplesPerMinute, sampler, more, block);
        SampleBlock(block);
      }
    }

    method CountBlock(block: Block, a: Ledger.Aggregator, ghost first: State, ghost pending: Ledger.Table) returns (counted: bool)
      requires Valid() && a.Valid()
      requires first.counted <= history.counted && a.pending == Buckets(pending, history.counted[|first.counted|..])
      modifies this`seen, this`lastHeight, this`history, a
      ensures Valid() && a.Valid() && history == DoBlock(old(history), block)
      ensures first.counted <= history.counted && a.pending == Buckets(pending, history.counted[|first.counted|..])
      ensures history.counted[|first.counted|..] == old(history.counted)[|first.counted|..] + if counted then [block] else []
    {
      ghost var before := history;
      counted := TakeBlock(block);
      if counted {
        a.AddBlock(block.timeMs, block.txs, 0);
        CountedMore(first, before, block, pending);
      }
    }

    // Whether the block is neither ignored nor seen; if so its height is remembered.
    method TakeBlock(block: Block) returns (taken: bool)
      requires Valid()
      modifies this`seen, this`lastHeight, this`history
      ensures Valid() && history == DoBlock(old(history), block)
      ensures taken <==> Counts(old(history), block)
    {
      var ignore := ShouldIgnoreBlock(block.timeMs);
      if ignore {
        return false;
      }
      var last, gap, accepted := AcceptHeight(block.height);
      if accepted {
        history := DoBlock(history, block);
      }
      taken := accepted;
    }

    method SampleBlock(block: Block)
      requires Valid()
      modifies this`sampledActionSlots, this`detailJobs
      ensures Valid() && Sampling() == Sampled(samplesPerMinute, old(Sampling()), block)
    {
      var sample := ShouldSampleActionBreakdown(block.timeMs);
      if sample {
        EnqueueActionSample(block);
      }
    }
  }

  lemma CountedMore(first: State, s: State, b: Block, pending: Ledger.Table)
    requires first.counted <= s.counted && Counts(s, b)
    ensures var t, more := DoBlock(s, b), s.counted[|first.counted|..];
            && first.counted <= t.counted && t.counted[|first.counted|..] == more + [b]
            && Buckets(pending, t.counted[|first.counted|..]) == Ledger.Bump(Buckets(pending, more), Ledger.BucketOf(b.timeMs, 0), RowOf(b))
  {
    var more := s.counted[|first.counted|..];
    assert DoBlock(s, b).counted[|first.counted|..] == more + [b];
    assert (more + [b])[..|more|] == more;
  }

  // The queue grows by some of the counted blocks, in order.
  lemma {:induction false} SampledPicks(n: int, s: Sampler, counted: seq<Block>)
    ensures Queued(s.jobs, SampledAll(n, s, counted).jobs, counted)
  {
    if counted == [] {
      assert s.jobs[|s.jobs|..] == [];
    } else {
      var k := |counted| - 1;
      SampledPicks(n, s, counted[..k]);
      QueuedMore(s.jobs, SampledAll(n, s, counted[..k]).jobs, counted[..k], counted[k]);
      assert counted[..k] + [counted[k]] == counted;
    }
  }

  ghost predicate Queued(before: seq<Block>, after: seq<Block>, counted: seq<Block>) {
    before <= after && Picks(after[|before|..], counted)
  }

  ghost predicate Picks(picked: seq<Block>, counted: seq<Block>) {
    if counted == [] then picked == []
    else
      var rest, last := counted[..|counted| - 1], counted[|counted| - 1];
      Picks(picked, rest) || (picked != [] && picked[|picked| - 1] == last && Picks(picked[..|picked| - 1], rest))
  }

  lemma QueuedMore(before: seq<Block>, after: seq<Block>, counted: seq<Block>, b: Block)
    requires Queued(before, after, counted)
    ensures Queued(before, after, counted + [b]) && Queued(before, after + [b], counted + [b])
  {
    assert (counted + [b])[..|counted|] == counted;
    var picked := after[|before|..];
    assert (after + [b])[|before|..] == picked + [b];
    assert (picked + [b])[..|picked|] == picked;
  }

  datatype Channel = Subscription | Pong | ExplorerBlock | OtherChannel

  // A message as decoded: a tagged object with its channel and data, or anything else; body is what
  // the whole of it decodes to as blocks.
  datatype Message = Tagged(channel: Channel, hasData: bool, data: seq<Block>, body: seq<Block>) | Untagged(body: seq<Block>)

  function BlocksOf(m: Message): seq<Block> {
    match m
    case Untagged(body) => body
    case Tagged(channel, hasData, data, body) => if channel.ExplorerBlock? then data else if channel.OtherChannel? && !hasData then body else []
  }

  function RunBlocks(s: State, blocks: seq<Block>): State {
    if blocks == [] then s else DoBlock(RunBlocks(s, blocks[..|blocks| - 1]), blocks[|blocks| - 1])
  }

  // What the counted blocks add to the minute buckets.
  function Buckets(pending: Ledger.Table, counted: seq<Block>): Ledger.Table {
    if counted == [] then pending
    else
      var b := counted[|counted| - 1];
      Ledger.Bump(Buckets(pending, counted[..|counted| - 1]), Ledger.BucketOf(b.timeMs, 0), RowOf(b))
  }

  // ------------------------------------------------------------------ from blocks to minute rows

  function RowOf(b: Block): Ledger.Row {
    Ledger.Row(b.txs, 1, 0, 0, 0, 0)
  }

  // The additions of the counted blocks, as steps of the ledger.
  function AddSteps(counted: seq<Block>): (steps: seq<Ledger.Step>)
    ensures |steps| == |counted|
  {
    seq(|counted|, i requires 0 <= i < |counted| => Ledger.Add(Ledger.BucketOf(counted[i].timeMs, 0), RowOf(counted[i])))
  }

  // The ledger's additions are those of the counted blocks in order, whatever comes in between.
  ghost predicate FedBy(steps: seq<Ledger.Step>, counted: seq<Block>) {
    if steps == [] then counted == []
    else
      var rest, last := steps[..|steps| - 1], steps[|steps| - 1];
      if !last.Add? then FedBy(rest, counted)
      else
        && counted != [] && FedBy(rest, counted[..|counted| - 1])
        && last == Ledger.Add(Ledger.BucketOf(counted[|counted| - 1].timeMs, 0), RowOf(counted[|counted| - 1]))
  }

  // Handling blocks adds them to the buckets as those steps do.
  lemma {:induction false} AddStepsFeed(s: Ledger.State, counted: seq<Block>)
    ensures FedBy(AddSteps(counted), counted)
    ensures Ledger.Run(s, AddSteps(counted)).pending == Buckets(s.pending, counted)
  {
    if counted != [] {
      var n := |counted| - 1;
      AddStepsFeed(s, counted[..n]);
      assert AddSteps(counted)[..n] == AddSteps(counted[..n]);
    }
  }

  lemma {:induction false} AddedByBlocks(init: Ledger.State, steps: seq<Ledger.Step>, counted: seq<Block>)
    requires FedBy(steps, counted)
    ensures Ledger.Run(init, steps).added == Buckets(init.added, counted)
  {
    if steps != [] {
      var rest, last := steps[..|steps| - 1], steps[|steps| - 1];
      AddedByBlocks(init, rest, if last.Add? then counted[..|counted| - 1] else counted);
      AddedAfter(Ledger.Run(init, rest), last);
    }
  }

  lemma AddedAfter(s: Ledger.State, step: Ledger.Step)
    ensures Ledger.Do(s, step).added == if step.Add? then Ledger.Bump(s.added, step.k, step.delta) else s.added
  {
  }

  // The transactions, or the number, of the counted blocks of a minute.
  function CountedIn(counted: seq<Block>, k: nat, f: Ledger.Field): int {
    if counted == [] then 0
    else
      var b := counted[|counted| - 1];
      CountedIn(counted[..|counted| - 1], k, f) + if Ledger.BucketOf(b.timeMs, 0) != k then 0 else if f.Tx? then b.txs else if f.Blk? then 1 else 0
  }

  lemma {:induction false} BucketsAt(pending: Ledger.Table, counted: seq<Block>, k: nat, f: Ledger.Field)
    ensures Ledger.At(Buckets(pending, counted), k, f) == Ledger.At(pending, k, f) + CountedIn(counted, k, f)
  {
    if counted != [] {
      var n := |counted| - 1;
      BucketsAt(pending, counted[..n], k, f);
      Ledger.AtBump(Buckets(pending, counted[..n]), Ledger.BucketOf(counted[n].timeMs, 0), RowOf(counted[n]), k, f);
    }
  }

  // Every counted block reaches the minute table: once nothing of a minute is pending or drained,
  // its row has grown by exactly the counted blocks of the minute, in every interleaving of
  // additions, drains, writes and refreshes, as long as no step drops, fails, expires or
  // overwrites the minute.
  lemma BlocksReachRows(m0: Ledger.Table, h0: Ledger.Table, steps: seq<Ledger.Step>, counted: seq<Block>, k: nat, f: Ledger.Field)
    requires FedBy(steps, counted) && Ledger.AllSpare(steps, k)
    requires Ledger.Settled(Ledger.Run(Ledger.Opening(m0, h0), steps), k)
    ensures Ledger.At(Ledger.Run(Ledger.Opening(m0, h0), steps).minutes, k, f) == Ledger.At(m0, k, f) + CountedIn(counted, k, f)
  {
    Ledger.SettledMinute(m0, h0, steps, k, f);
    AddedByBlocks(Ledger.Opening(m0, h0), steps, counted);
    BucketsAt(map[], counted, k, f);
  }
}
