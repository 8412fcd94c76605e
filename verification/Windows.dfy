// The bounded histories that are shifted in place: the snapshot history of a book tracker
// (internal/booktop/booktop.go), the observations of a network monitor
// (internal/netbaseline/tcp.go) and the retained samples of a coordinated run
// (internal/app/coordinated.go).  Each window is compared with everything ever appended to it.
module Windows {
  import opened Common
  import opened OrderBook

  lemma LastNAppend<T>(log: seq<T>, more: seq<T>, n: nat)
    ensures LastN(LastN(log, n) + more, n) == LastN(log + more, n)
  {
  }

  // ------------------------------------------------------------------ snapshot history

  const HISTORY_LIMIT: nat := 2048

  predicate Usable(s: Snapshot, at: int) {
    s.bid > 0.0 && s.ask > 0.0 && s.receivedAt <= at
  }

  // r is the newest usable snapshot of the history.
  ghost predicate NewestUsable(history: seq<Snapshot>, at: int, r: Option<Snapshot>) {
    match r
    case None => forall i | 0 <= i < |history| :: !Usable(history[i], at)
    case Some(s) => exists i | 0 <= i < |history| ::
                      history[i] == s && Usable(s, at) && forall j | i < j < |history| :: !Usable(history[j], at)
  }

  lemma NewestUsableUnique(history: seq<Snapshot>, at: int, a: Option<Snapshot>, b: Option<Snapshot>)
    requires NewestUsable(history, at, a) && NewestUsable(history, at, b)
    ensures a == b
  {
  }

  // A snapshot found in the window is the one that a search of the whole history finds; when the
  // window holds none, whatever the whole history still offers has been shifted out.
  lemma WindowSearchAgrees(log: seq<Snapshot>, n: nat, at: int, inWindow: Option<Snapshot>, inLog: Option<Snapshot>)
    requires NewestUsable(LastN(log, n), at, inWindow) && NewestUsable(log, at, inLog)
    ensures inWindow.Some? ==> inLog == inWindow && inLog.value.receivedAt <= at
    ensures inWindow == inLog <==>
              (inLog.Some? ==> exists i | 0 <= i < |log| :: |log| - n <= i && Usable(log[i], at))
  {
    var window := LastN(log, n);
    var d := |log| - |window|;
    assert forall i | 0 <= i < |window| :: window[i] == log[i + d];
    match inWindow {
      case Some(s) =>
        var i :| 0 <= i < |window| && window[i] == s && Usable(s, at) && forall j | i < j < |window| :: !Usable(window[j], at);
        forall j | i + d < j < |log| ensures !Usable(log[j], at) {
          assert log[j] == window[j - d];
        }
        assert log[i + d] == s;
        assert NewestUsable(log, at, inWindow);
        NewestUsableUnique(log, at, inWindow, inLog);
      case None =>
        forall i | |log| - n <= i < |log| && 0 <= i ensures !Usable(log[i], at) {
          assert log[i] == window[i - d];
        }
    }
  }

  // Appending to a window and shifting it gives the window of the log with the same append.
  lemma Shifted<T>(log: seq<T>, window: seq<T>, x: T, n: nat)
    requires window == LastN(log, n)
    ensures var more := window + [x];
            (if |more| > n then CopyDown(more, |more| - n)[..n] else more) == LastN(log + [x], n)
  {
    var more := window + [x];
    if |more| > n {
      CopyDownIsDrop(more, |more| - n);
    }
    LastNAppend(log, [x], n);
  }

  class Tracker {
    var latest: Snapshot
    var history: seq<Snapshot>
    ghost var log: seq<Snapshot>

    ghost predicate Valid() reads this {
      && history == LastN(log, HISTORY_LIMIT)
      && latest == if log == [] then Snapshot(0.0, 0.0, 0.0, 0.0, [], [], 0) else log[|log| - 1]
    }

    constructor ()
      ensures Valid() && log == []
    {
      latest := Snapshot(0.0, 0.0, 0.0, 0.0, [], [], 0);
      history, log := [], [];
    }

    // What the read loop does with a parsed snapshot.
    method Observe(snapshot: Snapshot, now: int)
      requires Valid()
      modifies this
      ensures Valid() && log == old(log) + [snapshot.(receivedAt := now)]
    {
      latest := snapshot.(receivedAt := now);
      ghost var before := history;
      history := history + [latest];
      if |history| > HISTORY_LIMIT {
        history := CopyDown(history, |history| - HISTORY_LIMIT)[..HISTORY_LIMIT];
      }
      Shifted(log, before, latest, HISTORY_LIMIT);
      log := log + [latest];
    }

    // A zero time asks for the latest snapshot.
    method SnapshotAt(at: int) returns (r: Option<Snapshot>)
      requires Valid()
      ensures at == 0 ==> r == if log != [] && log[|log| - 1].bid > 0.0 && log[|log| - 1].ask > 0.0
                               then Some(log[|log| - 1]) else None
      ensures at != 0 ==> NewestUsable(LastN(log, 2048), at, r)
      ensures r.Some? ==> r.value in log && r.value.bid > 0.0 && r.value.ask > 0.0 && (at != 0 ==> r.value.receivedAt <= at)
    {
      if at == 0 {
        if latest.bid <= 0.0 || latest.ask <= 0.0 {
          return None;
        }
        return Some(latest);
      }
      var index := |history| - 1;
      while index >= 0
        invariant -1 <= index < |history|
        invariant forall j | index < j < |history| :: !Usable(history[j], at)
      {
        var snapshot := history[index];
        if snapshot.bid <= 0.0 || snapshot.ask <= 0.0 {
          index := index - 1;
          continue;
        }
        if !(snapshot.receivedAt > at) {
          return Some(snapshot);
        }
        index := index - 1;
      }
      return None;
    }
  }

  // ------------------------------------------------------------------ retained samples

  method RetainSamples<T>(current: seq<T>, next: seq<T>, limit: int) returns (r: seq<T>)
    ensures r == if limit <= 0 then [] else LastN(current + next, limit)
  {
    if limit <= 0 {
      return [];
    }
    r := current + next;
    if |r| <= limit {
      return;
    }
    CopyDownIsDrop(r, |r| - limit);
    r := CopyDown(r, |r| - limit)[..limit];
  }

  function Concat<T>(batches: seq<seq<T>>): seq<T> {
    if batches == [] then [] else Concat(batches[..|batches| - 1]) + batches[|batches| - 1]
  }

  // What a run retains when every cycle appends its batch under one limit.
  function Retained<T>(batches: seq<seq<T>>, limit: nat): seq<T> {
    if batches == [] then []
    else LastN(Retained(batches[..|batches| - 1], limit) + batches[|batches| - 1], limit)
  }

  lemma {:induction false} RetainedIsSuffix<T>(batches: seq<seq<T>>, limit: nat)
    ensures Retained(batches, limit) == LastN(Concat(batches), limit)
  {
    if batches != [] {
      var n := |batches| - 1;
      RetainedIsSuffix(batches[..n], limit);
      LastNAppend(Concat(batches[..n]), batches[n], limit);
    }
  }

  // ------------------------------------------------------------------ network floor

  datatype Observation = Observation(valueNS: int, source: string, priority: int)

  function TopPriority(os: seq<Observation>): int
    requires os != []
  {
    if |os| == 1 then os[0].priority
    else Max(TopPriority(os[..|os| - 1]), os[|os| - 1].priority)
  }

  function AtPriority(os: seq<Observation>, priority: int): seq<int> {
    if os == [] then []
    else
      var rest := AtPriority(os[..|os| - 1], priority);
      if os[|os| - 1].priority == priority then rest + [os[|os| - 1].valueNS] else rest
  }

  // The values of exactly the observations of the priority, in their order.
  lemma {:induction false} AtPriorityIs(os: seq<Observation>, priority: int) returns (at: seq<nat>)
    ensures |at| == |AtPriority(os, priority)|
    ensures forall j | 0 <= j < |at| :: at[j] < |os| && os[at[j]].priority == priority && os[at[j]].valueNS == AtPriority(os, priority)[j]
    ensures forall j, k | 0 <= j < k < |at| :: at[j] < at[k]
    ensures forall i | 0 <= i < |os| && os[i].priority == priority :: i in at
  {
    if os == [] {
      at := [];
    } else {
      var n := |os| - 1;
      at := AtPriorityIs(os[..n], priority);
      if os[n].priority == priority {
        var last: seq<nat> := [n];
        at := at + last;
      }
    }
  }

  lemma {:induction false} TopPriorityIsMax(os: seq<Observation>)
    requires os != []
    ensures exists i | 0 <= i < |os| :: os[i].priority == TopPriority(os)
    ensures forall i | 0 <= i < |os| :: os[i].priority <= TopPriority(os)
    ensures AtPriority(os, TopPriority(os)) != []
  {
    var n := |os| - 1;
    if n > 0 {
      var rest := os[..n];
      TopPriorityIsMax(rest);
      var k :| 0 <= k < n && rest[k].priority == TopPriority(rest);
      assert os[k] == rest[k];
      forall i | 0 <= i < n ensures os[i].priority <= TopPriority(os) {
        assert os[i] == rest[i];
      }
    }
    assert os[n].priority <= TopPriority(os);
  }

  function CountBelow(vs: seq<int>, x: int): nat {
    if vs == [] then 0 else CountBelow(vs[..|vs| - 1], x) + if vs[|vs| - 1] < x then 1 else 0
  }

  // x is the value that stands at index k when vs is sorted: at most k values are smaller and
  // more than k values are not larger.
  ghost predicate OrderStatistic(vs: seq<int>, k: nat, x: int) {
    CountBelow(vs, x) <= k < CountBelow(vs, x + 1)
  }

  lemma OrderStatisticUnique(vs: seq<int>, k: nat, x: int, y: int)
    requires OrderStatistic(vs, k, x) && OrderStatistic(vs, k, y)
    ensures x == y
  {
    if x < y {
      CountBelowMonotone(vs, x + 1, y);
    } else if y < x {
      CountBelowMonotone(vs, y + 1, x);
    }
  }

  lemma {:induction false} CountBelowMonotone(vs: seq<int>, x: int, y: int)
    requires x <= y
    ensures CountBelow(vs, x) <= CountBelow(vs, y)
  {
    if vs != [] {
      CountBelowMonotone(vs[..|vs| - 1], x, y);
    }
  }

  predicate Ascending(vs: seq<int>) {
    forall i, j | 0 <= i < j < |vs| :: vs[i] <= vs[j]
  }

  // In a sorted sequence the cells before the first value that is not below x are the count.
  lemma {:induction false} SortedCount(vs: seq<int>, x: int, k: nat)
    requires Ascending(vs) && k <= |vs|
    requires forall i | 0 <= i < k :: vs[i] < x
    requires forall i | k <= i < |vs| :: vs[i] >= x
    ensures CountBelow(vs, x) == k
  {
    if vs != [] {
      var n := |vs| - 1;
      SortedCount(vs[..n], x, if k <= n then k else n);
    }
  }

  lemma SortedOrderStatistic(vs: seq<int>, k: nat)
    requires Ascending(vs) && k < |vs|
    ensures OrderStatistic(vs, k, vs[k])
  {
    var lo := k;
    while lo > 0 && vs[lo - 1] == vs[k]
      invariant 0 <= lo <= k && vs[lo] == vs[k]
    {
      lo := lo - 1;
    }
    SortedCount(vs, vs[k], lo);
    var hi := k + 1;
    while hi < |vs| && vs[hi] == vs[k]
      invariant k < hi <= |vs| && vs[hi - 1] == vs[k]
    {
      hi := hi + 1;
    }
    SortedCount(vs, vs[k] + 1, hi);
  }

  lemma {:induction false} CountOfPermutation(a: seq<int>, b: seq<int>, x: int)
    requires multiset(a) == multiset(b)
    ensures CountBelow(a, x) == CountBelow(b, x)
    decreases |a|
  {
    if a == [] {
      assert multiset(b) == multiset{};
      assert |b| == 0;
    } else {
      var n := |a| - 1;
      var k := TakeOut(a, b);
      CountOfPermutation(a[..n], b[..k] + b[k + 1..], x);
      CountWithout(b, k, x);
    }
  }

  // Where a permutation holds the last element, and that the rest is a permutation too.
  lemma TakeOut<T>(a: seq<T>, b: seq<T>) returns (k: nat)
    requires multiset(a) == multiset(b) && a != []
    ensures k < |b| && b[k] == a[|a| - 1] && multiset(a[..|a| - 1]) == multiset(b[..k] + b[k + 1..])
  {
    var n := |a| - 1;
    assert a[n] in multiset(a);
    assert a[n] in multiset(b);
    k :| 0 <= k < |b| && b[k] == a[n];
    RemovedMultiset(a, n);
    assert a[..n] + a[n + 1..] == a[..n];
    RemovedMultiset(b, k);
    CancelOne(multiset(a[..n]), multiset(b[..k] + b[k + 1..]), a[n]);
  }

  lemma {:induction false} CountWithout(b: seq<int>, k: nat, x: int)
    requires k < |b|
    ensures CountBelow(b, x) == CountBelow(b[..k] + b[k + 1..], x) + if b[k] < x then 1 else 0
  {
    var n := |b| - 1;
    var rest := b[..k] + b[k + 1..];
    if k == n {
      assert rest == b[..n];
    } else {
      CountWithout(b[..n], k, x);
      assert rest[..n - 1] == b[..n][..k] + b[..n][k + 1..];
      assert rest[n - 1] == b[n];
    }
  }

  method SortValues(vs: seq<int>) returns (out: seq<int>)
    ensures multiset(out) == multiset(vs) && Ascending(out)
  {
    out := [];
    for n := 0 to |vs|
      invariant multiset(out) == multiset(vs[..n]) && Ascending(out)
    {
      out := InsertValue(out, vs[n]);
      assert vs[..n + 1] == vs[..n] + [vs[n]];
    }
    assert vs[..|vs|] == vs;
  }

  method InsertValue(vs: seq<int>, v: int) returns (out: seq<int>)
    requires Ascending(vs)
    ensures multiset(out) == multiset(vs) + multiset{v} && Ascending(out)
  {
    var k := 0;
    while k < |vs| && vs[k] <= v
      invariant 0 <= k <= |vs|
      invariant forall i | 0 <= i < k :: vs[i] <= v
    {
      k := k + 1;
    }
    InsertedMultiset(vs, k, v);
    InsertAscending(vs, v, k);
    out := vs[..k] + [v] + vs[k..];
  }

  lemma InsertAscending(vs: seq<int>, v: int, k: nat)
    requires Ascending(vs) && k <= |vs|
    requires forall i | 0 <= i < k :: vs[i] <= v
    requires k < |vs| ==> v <= vs[k]
    ensures Ascending(vs[..k] + [v] + vs[k..])
  {
    var out := vs[..k] + [v] + vs[k..];
    assert forall i | k < i < |vs| :: vs[k] <= vs[i];
    forall i, j | 0 <= i < j < |out| ensures out[i] <= out[j] {
      assert out[i] == if i < k then vs[i] else if i == k then v else vs[i - 1];
      assert out[j] == if j < k then vs[j] else if j == k then v else vs[j - 1];
    }
  }

  datatype Floor = Floor(floorNS: int, source: string)

  class Monitor {
    const maxSamples: nat
    var values: seq<Observation>
    ghost var log: seq<Observation>

    ghost predicate Valid() reads this {
      maxSamples > 0 && values == LastN(log, maxSamples)
    }

    constructor (max: int)
      ensures Valid() && log == [] && maxSamples == if max <= 0 then 60 else max
    {
      maxSamples := if max <= 0 then 60 else max;
      values, log := [], [];
    }

    method Record(value: int, source: string, priority: int)
      requires Valid()
      modifies this
      ensures Valid()
      ensures log == if value <= 0 then old(log) else old(log) + [Observation(value, source, priority)]
    {
      if value <= 0 {
        return;
      }
      values := values + [Observation(value, source, priority)];
      if |values| > maxSamples {
        CopyDownIsDrop(values, |values| - maxSamples);
        values := CopyDown(values, |values| - maxSamples)[..maxSamples];
      }
      LastNAppend(log, [Observation(value, source, priority)], maxSamples);
      log := log + [Observation(value, source, priority)];
    }

    // The minimum, or from ten values on their lowest decile, of the retained observations of the
    // highest priority; the source is that of the newest such observation.
    method SnapshotFloor() returns (r: Option<Floor>)
      requires Valid()
      ensures r.None? <==> log == []
      ensures r.Some? ==>
                var window := LastN(log, maxSamples);
                var vs := AtPriority(window, TopPriority(window));
                && OrderStatistic(vs, if |vs| < 10 then 0 else (|vs| - 1) / 10, r.value.floorNS)
                && NewestSource(window, TopPriority(window), r.value.source)
    {
      if values == [] {
        return None;
      }
      var best := values[0].priority;
      for i := 1 to |values|
        invariant best == TopPriority(values[..i])
      {
        assert values[..i + 1][..i] == values[..i];
        if values[i].priority > best {
          best := values[i].priority;
        }
      }
      assert values[..|values|] == values;
      TopPriorityIsMax(values);
      var vs, source := Select(values, best);
      var sorted := SortValues(vs);
      assert |multiset(sorted)| == |multiset(vs)|;
      var index := 0;
      if |sorted| >= 10 {
        index := (|sorted| - 1) / 10;
      }
      SortedOrderStatistic(sorted, index);
      CountOfPermutation(sorted, vs, sorted[index]);
      CountOfPermutation(sorted, vs, sorted[index] + 1);
      r := Some(Floor(sorted[index], source));
    }
  }

  // source is that of the newest observation of the priority.
  ghost predicate NewestSource(os: seq<Observation>, priority: int, source: string) {
    exists i | 0 <= i < |os| ::
      os[i].priority == priority && os[i].source == source && forall j | i < j < |os| :: os[j].priority != priority
  }

  method Select(os: seq<Observation>, priority: int) returns (vs: seq<int>, source: string)
    ensures vs == AtPriority(os, priority)
    ensures vs != [] ==> NewestSource(os, priority, source)
  {
    vs, source := [], "";
    ghost var at := -1;
    for i := 0 to |os|
      invariant vs == AtPriority(os[..i], priority)
      invariant -1 <= at < i && (at < 0 ==> vs == [])
      invariant forall j | at < j < i :: os[j].priority != priority
      invariant at >= 0 ==> os[at].priority == priority && os[at].source == source
    {
      assert os[..i + 1][..i] == os[..i];
      if os[i].priority != priority {
        continue;
      }
      vs := vs + [os[i].valueNS];
      source := os[i].source;
      at := i;
    }
    assert os[..|os|] == os;
  }
}
