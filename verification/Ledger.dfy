// The exchange-TPS ledger: per-minute counters added in memory and drained
// (internal/exchangetps/aggregator.go), upserted into the minute table and rolled up by hour
// (internal/exchangetps/store.go), with the per-hour refresh of
// scripts/hyperliquid_tps_backfill.py.  Tables are maps for one venue, keyed by Unix seconds.
module Ledger {
  import opened Common

  const MINUTE: nat := 60
  const HOUR: nat := 3600

  datatype Row = Row(tx: int, blk: int, ord: int, plc: int, cxl: int, err: int)

  datatype Field = Tx | Blk | Ord | Plc | Cxl | Err

  const ZERO := Row(0, 0, 0, 0, 0, 0)

  type Table = map<nat, Row>

  function Plus(a: Row, b: Row): Row {
    Row(a.tx + b.tx, a.blk + b.blk, a.ord + b.ord, a.plc + b.plc, a.cxl + b.cxl, a.err + b.err)
  }

  function Minus(a: Row, b: Row): Row {
    Row(a.tx - b.tx, a.blk - b.blk, a.ord - b.ord, a.plc - b.plc, a.cxl - b.cxl, a.err - b.err)
  }

  function Of(r: Row, f: Field): int {
    match f
    case Tx => r.tx
    case Blk => r.blk
    case Ord => r.ord
    case Plc => r.plc
    case Cxl => r.cxl
    case Err => r.err
  }

  function Get(m: Table, k: nat): Row {
    if k in m then m[k] else ZERO
  }

  function At(m: Table, k: nat, f: Field): int {
    Of(Get(m, k), f)
  }

  // Adds a row to one bucket: the in-memory add and the additive upsert alike.
  function Bump(m: Table, k: nat, r: Row): Table {
    m[k := Plus(Get(m, k), r)]
  }

  function Merge(m: Table, n: Table): Table {
    map k | k in m.Keys + n.Keys :: Plus(Get(m, k), Get(n, k))
  }

  lemma AtBump(m: Table, k: nat, r: Row, j: nat, f: Field)
    ensures At(Bump(m, k, r), j, f) == At(m, j, f) + if j == k then Of(r, f) else 0
  {
  }

  lemma AtMerge(m: Table, n: Table, k: nat, f: Field)
    ensures At(Merge(m, n), k, f) == At(m, k, f) + At(n, k, f)
  {
  }

  // ------------------------------------------------------------------ buckets

  // Go's remainder takes the sign of the dividend.
  function GoRem(a: int, b: int): int
    requires b > 0
  {
    if a >= 0 then a % b else -((-a) % b)
  }

  function FloorUnix(ts: int, bucketSeconds: int): int {
    if bucketSeconds <= 0 then ts else ts - GoRem(ts, bucketSeconds)
  }

  // The start of the bucket a time lies in, exactly for the times it is meant for: before 1970 a
  // time inside a bucket is rounded up.
  lemma FloorUnixIff(ts: int, b: int)
    requires b > 0
    ensures FloorUnix(ts, b) % b == 0
    ensures FloorUnix(ts, b) <= ts < FloorUnix(ts, b) + b <==> ts >= 0 || ts % b == 0
  {
    var q, p := ts / b, (-ts) / b;
    if ts >= 0 {
      assert FloorUnix(ts, b) == q * b;
      MultipleRem(q, b);
    } else {
      assert FloorUnix(ts, b) == -p * b;
      MultipleRem(-p, b);
      if ts % b == 0 {
        assert ts == q * b && -ts == -q * b;
        MultipleRem(-q, b);
      }
      if (-ts) % b == 0 {
        assert ts == -p * b;
      }
    }
  }

  lemma MultipleRem(q: int, b: int)
    requires b > 0
    ensures (q * b) % b == 0
  {
    var d, m := q * b / b, (q * b) % b;
    assert (q - d) * b == m;
    assert q - d >= 1 ==> (q - d) * b >= b;
    assert q - d <= -1 ==> (q - d) * b <= -b;
  }

  function HourOf(t: nat): nat {
    t / HOUR * HOUR
  }

  lemma HourIs(t: nat, h: nat)
    requires h % HOUR == 0
    ensures HourOf(t) == h <==> h <= t < h + HOUR
  {
  }

  lemma HourHolds(t: nat)
    ensures HourOf(t) % 3600 == 0 && HourOf(t) <= t < HourOf(t) + 3600
  {
  }

  // ------------------------------------------------------------------ hour rows

  // The sum of the minute rows at lo, lo + 1, ..., hi - 1.
  function SumTo(minutes: Table, lo: nat, hi: nat): Row
    requires lo <= hi
    decreases hi - lo
  {
    if lo == hi then ZERO else Plus(SumTo(minutes, lo, hi - 1), Get(minutes, hi - 1))
  }

  function HourSum(minutes: Table, h: nat): Row {
    SumTo(minutes, h, h + HOUR)
  }

  ghost predicate HasMinute(minutes: Table, h: nat) {
    exists t :: t in minutes && HourOf(t) == h
  }

  lemma {:induction false} SumFrame(m: Table, n: Table, lo: nat, hi: nat)
    requires lo <= hi && forall t | lo <= t < hi :: Get(m, t) == Get(n, t)
    ensures SumTo(m, lo, hi) == SumTo(n, lo, hi)
    decreases hi - lo
  {
    if lo < hi {
      SumFrame(m, n, lo, hi - 1);
    }
  }

  // No minute row stands from lo to hi.
  ghost predicate Bare(minutes: Table, lo: nat, hi: nat) {
    forall t | lo <= t < hi :: t !in minutes
  }

  lemma {:induction false} SumNothing(minutes: Table, lo: nat, hi: nat, sum: Row)
    requires lo <= hi && Bare(minutes, lo, hi) && sum == SumTo(minutes, lo, hi)
    ensures sum == ZERO
    decreases hi - lo
  {
    if lo < hi {
      SumNothing(minutes, lo, hi - 1, SumTo(minutes, lo, hi - 1));
    }
  }

  lemma {:induction false} SumWithout(minutes: Table, lo: nat, hi: nat, k: nat)
    requires lo <= k < hi && k in minutes
    ensures SumTo(minutes, lo, hi) == Plus(SumTo(minutes - {k}, lo, hi), minutes[k])
    decreases hi - lo
  {
    if k < hi - 1 {
      SumWithout(minutes, lo, hi - 1, k);
    } else {
      SumFrame(minutes, minutes - {k}, lo, k);
    }
  }

  // An hour without minute rows sums to nothing.
  lemma {:induction false} EmptyHourSum(minutes: Table, h: nat)
    requires h % HOUR == 0 && !HasMinute(minutes, h)
    ensures HourSum(minutes, h) == ZERO
  {
    forall t | h <= t < h + HOUR ensures t !in minutes {
      HourIs(t, h);
    }
    SumNothing(minutes, h, h + HOUR, HourSum(minutes, h));
  }

  // Every minute row of an hour counts once in its sum, whichever minute it is.  With the sum of
  // an hour without rows this makes the sum of an hour that of all its rows.
  lemma {:induction false} HourSumCounts(minutes: Table, h: nat, k: nat)
    requires h % HOUR == 0 && k in minutes && HourOf(k) == h
    ensures HourSum(minutes, h) == Plus(HourSum(minutes - {k}, h), minutes[k])
  {
    HourIs(k, h);
    SumWithout(minutes, h, h + HOUR, k);
  }

  // A minute row of another hour does not count.
  lemma {:induction false} HourSumIgnores(minutes: Table, h: nat, k: nat)
    requires h % HOUR == 0 && HourOf(k) != h
    ensures HourSum(minutes - {k}, h) == HourSum(minutes, h)
  {
    HourIs(k, h);
    SumFrame(minutes - {k}, minutes, h, h + HOUR);
  }

  // The hour row is the sum of the hour's minute rows, and exists exactly when one of them does.
  ghost predicate Fresh(minutes: Table, hours: Table, h: nat) {
    && (h in hours <==> HasMinute(minutes, h))
    && (h in hours ==> hours[h] == HourSum(minutes, h))
  }

  ghost predicate SameHour(m: Table, n: Table, h: nat) {
    forall t | HourOf(t) == h :: (t in m <==> t in n) && Get(m, t) == Get(n, t)
  }

  lemma FreshFrame(m: Table, n: Table, hours: Table, hours': Table, h: nat)
    requires h % HOUR == 0 && Fresh(m, hours, h) && SameHour(m, n, h)
    requires (h in hours <==> h in hours') && (h in hours ==> hours[h] == hours'[h])
    ensures Fresh(n, hours', h)
  {
    forall t | h <= t < h + HOUR ensures Get(m, t) == Get(n, t) {
      HourIs(t, h);
    }
    SumFrame(m, n, h, h + HOUR);
  }

  // The Go refresh: the hour rows from lo to hi are deleted and rebuilt from their minutes.
  ghost function RefreshRange(minutes: Table, hours: Table, lo: nat, hi: nat): Table {
    map h | h in hours.Keys + (set t | t in minutes :: HourOf(t)) && (if lo <= h <= hi then HasMinute(minutes, h) else h in hours) ::
      if lo <= h <= hi then HourSum(minutes, h) else hours[h]
  }

  // The Python refresh: each listed hour on its own.
  ghost function RefreshHours(minutes: Table, hours: Table, listed: set<nat>): Table {
    map h | h in hours.Keys + (set t | t in minutes :: HourOf(t)) && (if h in listed then HasMinute(minutes, h) else h in hours) ::
      if h in listed then HourSum(minutes, h) else hours[h]
  }

  lemma RefreshRangeFresh(minutes: Table, hours: Table, lo: nat, hi: nat, h: nat)
    ensures lo <= h <= hi ==> Fresh(minutes, RefreshRange(minutes, hours, lo, hi), h)
    ensures !(lo <= h <= hi) ==>
              var r := RefreshRange(minutes, hours, lo, hi);
              (h in r <==> h in hours) && (h in hours ==> r[h] == hours[h])
  {
  }

  lemma RefreshHoursFresh(minutes: Table, hours: Table, listed: set<nat>, h: nat)
    ensures h in listed ==> Fresh(minutes, RefreshHours(minutes, hours, listed), h)
    ensures h !in listed ==>
              var r := RefreshHours(minutes, hours, listed);
              (h in r <==> h in hours) && (h in hours ==> r[h] == hours[h])
  {
  }

  lemma FreshUnique(minutes: Table, a: Table, b: Table, h: nat)
    requires Fresh(minutes, a, h) && Fresh(minutes, b, h)
    ensures (h in a <==> h in b) && (h in a ==> a[h] == b[h])
  {
  }

  // The Python refresh of some hours and the Go refresh of a range around them give the same
  // table exactly when no other hour of the range was out of date.
  lemma RefreshesAgreeIff(minutes: Table, hours: Table, lo: nat, hi: nat, listed: set<nat>)
    requires forall h | h in listed :: lo <= h <= hi
    ensures RefreshHours(minutes, hours, listed) == RefreshRange(minutes, hours, lo, hi)
       <==> forall h | lo <= h <= hi && h !in listed :: Fresh(minutes, hours, h)
  {
    var p, g := RefreshHours(minutes, hours, listed), RefreshRange(minutes, hours, lo, hi);
    forall h: nat ensures (h in listed || !(lo <= h <= hi) || Fresh(minutes, hours, h)) <==> SameAt(p, g, h) {
      RefreshHoursFresh(minutes, hours, listed, h);
      RefreshRangeFresh(minutes, hours, lo, hi, h);
      if lo <= h <= hi && (h in listed || Fresh(minutes, hours, h)) {
        assert Fresh(minutes, p, h);
        FreshUnique(minutes, p, g, h);
      }
    }
    if forall h :: SameAt(p, g, h) {
      SameTables(p, g);
    }
  }

  ghost predicate SameAt(a: Table, b: Table, h: nat) {
    (h in a <==> h in b) && (h in a ==> a[h] == b[h])
  }

  lemma SameTables(a: Table, b: Table)
    requires forall h :: SameAt(a, b, h)
    ensures a == b
  {
    forall h: nat ensures h in a <==> h in b {
      assert SameAt(a, b, h);
    }
    forall h: nat | h in a ensures a[h] == b[h] {
      assert SameAt(a, b, h);
    }
  }

  // ------------------------------------------------------------------ the ledger's steps

  // A flush under way: the drained rows still to be written, those written, and the range of
  // minutes written so far, over which it will refresh the rollups.
  datatype Job = Job(todo: Table, done: set<nat>, from: nat, to: nat, live: bool)

  // pending, minutes and hours are the program's; jobs its flushes.  added, dropped, lost, expired
  // and replaced account for what happened to each bucket.  excused are the hours whose minutes
  // changed without a refresh being due: by retention, by a failed flush, or by a direct write.
  datatype State = State(
    pending: Table, jobs: seq<Job>, minutes: Table, hours: Table,
    added: Table, dropped: Table, lost: Table, expired: Table, replaced: Table, excused: set<nat>)

  datatype Step =
    | Add(k: nat, delta: Row)
    | Drop(k: nat)
    | Drain(now: int, all: bool)
    | Store(job: nat, k: nat)
    | Fail(job: nat)
    | Refresh(job: nat)
    | RefreshFail(job: nat)
    | Retain(cutoff: int)
    | Observe(k: nat, row: Row)
    | RefreshListed(listed: set<nat>)

  // A bucket is complete a second after it ended.
  predicate Drained(k: nat, now: int, all: bool) {
    all || k <= now - MINUTE - 1
  }

  function Taken(pending: Table, now: int, all: bool): Table {
    map k | k in pending && Drained(k, now, all) :: pending[k]
  }

  function HoursOf(ks: set<nat>): set<nat> {
    set k | k in ks :: HourOf(k)
  }

  function DoDrain(s: State, now: int, all: bool): State {
    var taken := Taken(s.pending, now, all);
    if taken == map[] then s else s.(pending := s.pending - taken.Keys, jobs := s.jobs + [Job(taken, {}, 0, 0, true)])
  }

  function Written(j: Job, k: nat): Job {
    j.(todo := j.todo - {k}, done := j.done + {k},
       from := if j.done == {} || k < j.from then k else j.from, to := if j.done == {} || k > j.to then k else j.to)
  }

  function DoStore(s: State, i: nat, k: nat): State
    requires i < |s.jobs| && k in s.jobs[i].todo
  {
    s.(minutes := Bump(s.minutes, k, s.jobs[i].todo[k]), jobs := s.jobs[i := Written(s.jobs[i], k)])
  }

  // A write failed: Flush returns and the rows it had not written are gone.
  function DoFail(s: State, i: nat): State
    requires i < |s.jobs|
  {
    s.(lost := Merge(s.lost, s.jobs[i].todo), jobs := s.jobs[i := s.jobs[i].(todo := map[], live := false)],
       excused := s.excused + HoursOf(s.jobs[i].done))
  }

  ghost function DoRefresh(s: State, i: nat): State
    requires i < |s.jobs|
  {
    var lo, hi := HourOf(s.jobs[i].from), HourOf(s.jobs[i].to);
    s.(hours := RefreshRange(s.minutes, s.hours, lo, hi), jobs := s.jobs[i := s.jobs[i].(live := false)],
       excused := set h | h in s.excused && !(lo <= h <= hi))
  }

  function DoRetain(s: State, cutoff: int): State {
    var old_ := Expired(s.minutes, cutoff);
    s.(minutes := s.minutes - old_.Keys, expired := Merge(s.expired, old_), excused := s.excused + HoursOf(old_.Keys))
  }

  function DoObserve(s: State, k: nat, row: Row): State {
    s.(minutes := s.minutes[k := row], replaced := Bump(s.replaced, k, Minus(row, Get(s.minutes, k))),
       excused := s.excused + {HourOf(k)})
  }

  ghost function Do(s: State, step: Step): State {
    match step
    case Add(k, delta) => s.(pending := Bump(s.pending, k, delta), added := Bump(s.added, k, delta))
    case Drop(k) => s.(pending := s.pending - {k}, dropped := Bump(s.dropped, k, Get(s.pending, k)))
    case Drain(now, all) => DoDrain(s, now, all)
    case Store(i, k) => if i < |s.jobs| && s.jobs[i].live && k in s.jobs[i].todo then DoStore(s, i, k) else s
    case Fail(i) => if i < |s.jobs| && s.jobs[i].live && s.jobs[i].todo != map[] then DoFail(s, i) else s
    case Refresh(i) => if i < |s.jobs| && s.jobs[i].live && s.jobs[i].todo == map[] then DoRefresh(s, i) else s
    case RefreshFail(i) => if i < |s.jobs| && s.jobs[i].live && s.jobs[i].todo == map[] then DoFail(s, i) else s
    case Retain(cutoff) => DoRetain(s, cutoff)
    case Observe(k, row) => DoObserve(s, k, row)
    case RefreshListed(listed) => s.(hours := RefreshHours(s.minutes, s.hours, listed), excused := s.excused - listed)
  }

  function Opening(minutes: Table, hours: Table): State {
    State(map[], [], minutes, hours, map[], map[], map[], map[], map[], {})
  }

  ghost function Run(init: State, steps: seq<Step>): State {
    if steps == [] then init else Do(Run(init, steps[..|steps| - 1]), steps[|steps| - 1])
  }

  // ------------------------------------------------------------------ conservation

  function InFlight(jobs: seq<Job>, k: nat, f: Field): int {
    if jobs == [] then 0 else InFlight(jobs[..|jobs| - 1], k, f) + At(jobs[|jobs| - 1].todo, k, f)
  }

  lemma {:induction false} InFlightUpdate(jobs: seq<Job>, i: nat, j: Job, k: nat, f: Field)
    requires i < |jobs|
    ensures InFlight(jobs[i := j], k, f) == InFlight(jobs, k, f) - At(jobs[i].todo, k, f) + At(j.todo, k, f)
  {
    var n := |jobs| - 1;
    if i == n {
      assert jobs[i := j][..n] == jobs[..n];
    } else {
      InFlightUpdate(jobs[..n], i, j, k, f);
      assert jobs[i := j][..n] == jobs[..n][i := j];
    }
  }

  // Everything ever added to a bucket is in exactly one place.
  ghost predicate Balanced(m0: Table, s: State, k: nat, f: Field) {
    At(m0, k, f) + At(s.added, k, f) + At(s.replaced, k, f)
    == At(s.pending, k, f) + InFlight(s.jobs, k, f) + At(s.minutes, k, f)
       + At(s.dropped, k, f) + At(s.lost, k, f) + At(s.expired, k, f)
  }

  // A drain takes, with what they hold, exactly the buckets whose minute ended a second ago or
  // earlier, or all of them, and nothing else changes; without any it starts no flush.
  lemma DrainTakes(s: State, now: int, all: bool)
    ensures var t := Do(s, Step.Drain(now, all));
            && (forall k :: k in t.pending <==> k in s.pending && !all && k + 60 + 1 > now)
            && (forall k | k in t.pending :: t.pending[k] == s.pending[k])
            && t.minutes == s.minutes && t.hours == s.hours
            && (if t.pending == s.pending then t.jobs == s.jobs
                else
                  && |t.jobs| == |s.jobs| + 1 && t.jobs[..|s.jobs|] == s.jobs
                  && var job := t.jobs[|s.jobs|];
                  && job.live && job.done == {}
                  && (forall k :: k in job.todo <==> k in s.pending && k !in t.pending)
                  && (forall k | k in job.todo :: job.todo[k] == s.pending[k]))
  {
    var taken := Taken(s.pending, now, all);
    if taken == map[] {
      assert forall k | k in s.pending :: k !in taken;
    } else {
      var k := Member(taken.Keys);
      assert k in s.pending && k !in (s.pending - taken.Keys);
    }
  }

  // Retention keeps the minutes from the cutoff on as they are, and no other.
  lemma RetainKeeps(s: State, cutoff: int)
    ensures var t := Do(s, Retain(cutoff));
            && (forall k :: k in t.minutes <==> k in s.minutes && k >= cutoff)
            && (forall k | k in t.minutes :: t.minutes[k] == s.minutes[k])
            && t.hours == s.hours && t.pending == s.pending && t.jobs == s.jobs
  {
  }

  lemma AtSplit(m: Table, part: Table, k: nat, f: Field)
    requires forall j | j in part :: j in m && m[j] == part[j]
    ensures At(m - part.Keys, k, f) + At(part, k, f) == At(m, k, f)
  {
  }

  lemma InFlightDrain(jobs: seq<Job>, j: Job, k: nat, f: Field)
    ensures InFlight(jobs + [j], k, f) == InFlight(jobs, k, f) + At(j.todo, k, f)
  {
    assert (jobs + [j])[..|jobs|] == jobs;
  }

  lemma BalancedDrain(m0: Table, s: State, now: int, all: bool, k: nat, f: Field)
    requires Balanced(m0, s, k, f)
    ensures Balanced(m0, DoDrain(s, now, all), k, f)
  {
    var taken := Taken(s.pending, now, all);
    InFlightDrain(s.jobs, Job(taken, {}, 0, 0, true), k, f);
    AtSplit(s.pending, taken, k, f);
  }

  lemma BalancedStore(m0: Table, s: State, i: nat, key: nat, k: nat, f: Field)
    requires Balanced(m0, s, k, f) && i < |s.jobs| && key in s.jobs[i].todo
    ensures Balanced(m0, DoStore(s, i, key), k, f)
  {
    AtBump(s.minutes, key, s.jobs[i].todo[key], k, f);
    InFlightUpdate(s.jobs, i, Written(s.jobs[i], key), k, f);
  }

  lemma BalancedFail(m0: Table, s: State, i: nat, k: nat, f: Field)
    requires Balanced(m0, s, k, f) && i < |s.jobs|
    ensures Balanced(m0, DoFail(s, i), k, f)
  {
    AtMerge(s.lost, s.jobs[i].todo, k, f);
    InFlightUpdate(s.jobs, i, s.jobs[i].(todo := map[], live := false), k, f);
  }

  lemma BalancedRetain(m0: Table, s: State, cutoff: int, k: nat, f: Field)
    requires Balanced(m0, s, k, f)
    ensures Balanced(m0, DoRetain(s, cutoff), k, f)
  {
    var old_ := Expired(s.minutes, cutoff);
    AtMerge(s.expired, old_, k, f);
    AtSplit(s.minutes, old_, k, f);
  }

  lemma BalancedObserve(m0: Table, s: State, key: nat, row: Row, k: nat, f: Field)
    requires Balanced(m0, s, k, f)
    ensures Balanced(m0, DoObserve(s, key, row), k, f)
  {
    AtBump(s.replaced, key, Minus(row, Get(s.minutes, key)), k, f);
  }

  lemma BalancedAdd(m0: Table, s: State, key: nat, delta: Row, k: nat, f: Field)
    requires Balanced(m0, s, k, f)
    ensures Balanced(m0, s.(pending := Bump(s.pending, key, delta), added := Bump(s.added, key, delta)), k, f)
  {
    AtBump(s.pending, key, delta, k, f);
    AtBump(s.added, key, delta, k, f);
  }

  lemma BalancedDrop(m0: Table, s: State, key: nat, k: nat, f: Field)
    requires Balanced(m0, s, k, f)
    ensures Balanced(m0, s.(pending := s.pending - {key}, dropped := Bump(s.dropped, key, Get(s.pending, key))), k, f)
  {
    AtBump(s.dropped, key, Get(s.pending, key), k, f);
  }

  lemma BalancedRefresh(m0: Table, s: State, i: nat, k: nat, f: Field)
    requires Balanced(m0, s, k, f) && i < |s.jobs|
    ensures Balanced(m0, DoRefresh(s, i), k, f)
  {
    InFlightUpdate(s.jobs, i, s.jobs[i].(live := false), k, f);
  }

  lemma BalancedTables(m0: Table, s: State, step: Step, k: nat, f: Field)
    requires Balanced(m0, s, k, f) && (step.Add? || step.Drop? || step.Drain? || step.Retain? || step.Observe?)
    ensures Balanced(m0, Do(s, step), k, f)
  {
    match step {
      case Add(key, delta) => BalancedAdd(m0, s, key, delta, k, f);
      case Drop(key) => BalancedDrop(m0, s, key, k, f);
      case Drain(now, all) => BalancedDrain(m0, s, now, all, k, f);
      case Retain(cutoff) => BalancedRetain(m0, s, cutoff, k, f);
      case Observe(key, row) => BalancedObserve(m0, s, key, row, k, f);
    }
  }

  lemma BalancedJobs(m0: Table, s: State, step: Step, k: nat, f: Field)
    requires Balanced(m0, s, k, f) && (step.Store? || step.Fail? || step.Refresh? || step.RefreshFail?)
    ensures Balanced(m0, Do(s, step), k, f)
  {
    match step {
      case Store(i, key) => if i < |s.jobs| && key in s.jobs[i].todo { BalancedStore(m0, s, i, key, k, f); }
      case Fail(i) => if i < |s.jobs| { BalancedFail(m0, s, i, k, f); }
      case Refresh(i) => if i < |s.jobs| { BalancedRefresh(m0, s, i, k, f); }
      case RefreshFail(i) => if i < |s.jobs| { BalancedFail(m0, s, i, k, f); }
    }
  }

  lemma BalancedListed(m0: Table, s: State, listed: set<nat>, k: nat, f: Field)
    requires Balanced(m0, s, k, f)
    ensures Balanced(m0, Do(s, RefreshListed(listed)), k, f)
  {
  }

  lemma BalancedKept(m0: Table, s: State, step: Step, k: nat, f: Field)
    requires Balanced(m0, s, k, f)
    ensures Balanced(m0, Do(s, step), k, f)
  {
    match step {
      case Add(_, _) | Drop(_) | Drain(_, _) | Retain(_) | Observe(_, _) => BalancedTables(m0, s, step, k, f);
      case RefreshListed(listed) => BalancedListed(m0, s, listed, k, f);
      case _ => BalancedJobs(m0, s, step, k, f);
    }
  }

  // For every interleaving of adds, drops, flushes and retention, field by field: what was stored
  // at first, added and corrected is pending, drained, stored, dropped, lost or expired, once.
  lemma {:induction false} LedgerConserved(m0: Table, h0: Table, steps: seq<Step>, k: nat, f: Field)
    ensures Balanced(m0, Run(Opening(m0, h0), steps), k, f)
  {
    if steps != [] {
      LedgerConserved(m0, h0, steps[..|steps| - 1], k, f);
      BalancedKept(m0, Run(Opening(m0, h0), steps[..|steps| - 1]), steps[|steps| - 1], k, f);
    }
  }

  // The step is a store write that fails in a flush with rows still to be written.
  predicate Loses(s: State, step: Step) {
    step.Fail? && step.job < |s.jobs| && s.jobs[step.job].live && s.jobs[step.job].todo != map[]
  }

  // What the failed writes of a run lost of a bucket: all that their flushes had left to write.
  ghost function LostBy(init: State, steps: seq<Step>, k: nat, f: Field): int {
    if steps == [] then 0
    else
      var s, step := Run(init, steps[..|steps| - 1]), steps[|steps| - 1];
      LostBy(init, steps[..|steps| - 1], k, f) + if Loses(s, step) then At(s.jobs[step.job].todo, k, f) else 0
  }

  lemma MergeNothing(m: Table, k: nat, f: Field)
    ensures Merge(m, map[]).Keys == m.Keys && At(Merge(m, map[]), k, f) == At(m, k, f)
  {
  }

  lemma LostByFail(s: State, i: nat)
    ensures Do(s, Fail(i)).lost == if Loses(s, Fail(i)) then Merge(s.lost, s.jobs[i].todo) else s.lost
  {
  }

  lemma LostByRefreshFail(s: State, i: nat)
    ensures Do(s, RefreshFail(i)).lost == if i < |s.jobs| && s.jobs[i].live && s.jobs[i].todo == map[] then Merge(s.lost, map[]) else s.lost
  {
  }

  lemma LostElsewhere(s: State, step: Step)
    requires !step.Fail? && !step.RefreshFail?
    ensures Do(s, step).lost == s.lost
  {
    if step.Drain? {
      assert DoDrain(s, step.now, step.all).lost == s.lost;
    }
  }

  lemma LostStep(s: State, step: Step, k: nat, f: Field)
    ensures var lost := Do(s, step).lost;
            && (if Loses(s, step) then lost == Merge(s.lost, s.jobs[step.job].todo) else lost.Keys == s.lost.Keys)
            && At(lost, k, f) == At(s.lost, k, f) + if Loses(s, step) then At(s.jobs[step.job].todo, k, f) else 0
  {
    match step {
      case Fail(i) => LostByFail(s, i);
      case RefreshFail(i) => LostByRefreshFail(s, i);
      case _ => LostElsewhere(s, step);
    }
    MergeNothing(s.lost, k, f);
    if Loses(s, step) {
      AtMerge(s.lost, s.jobs[step.job].todo, k, f);
    }
  }

  // Over any run the rows lost are those that failed writes left unwritten, no more and no less.
  lemma {:induction false} LostExactly(init: State, steps: seq<Step>, k: nat, f: Field)
    ensures At(Run(init, steps).lost, k, f) == At(init.lost, k, f) + LostBy(init, steps, k, f)
  {
    if steps != [] {
      LostExactly(init, steps[..|steps| - 1], k, f);
      LostStep(Run(init, steps[..|steps| - 1]), steps[|steps| - 1], k, f);
    }
  }

  ghost predicate NeverLoses(init: State, steps: seq<Step>) {
    forall i | 0 <= i < |steps| :: !LosesAt(init, steps, i)
  }

  ghost predicate LosesAt(init: State, steps: seq<Step>, i: nat)
    requires i < |steps|
  {
    Loses(Run(init, steps[..i]), steps[i])
  }

  lemma NeverLosesLast(init: State, steps: seq<Step>, n: nat)
    requires |steps| == n + 1
    ensures NeverLoses(init, steps) <==> NeverLoses(init, steps[..n]) && !LosesAt(init, steps, n)
  {
    forall i | 0 <= i < n ensures LosesAt(init, steps[..n], i) <==> LosesAt(init, steps, i) {
      assert steps[..n][..i] == steps[..i];
    }
  }

  // Over any run nothing is lost if and only if no store write failed in a flush with rows left.
  lemma {:induction false} NothingLostIff(init: State, steps: seq<Step>)
    requires init.lost == map[]
    ensures Run(init, steps).lost == map[] <==> NeverLoses(init, steps)
  {
    if steps != [] {
      var n := |steps| - 1;
      NothingLostIff(init, steps[..n]);
      NeverLosesLast(init, steps, n);
      LostMoreIff(Run(init, steps[..n]), steps[n]);
    }
  }

  lemma LostMoreIff(s: State, step: Step)
    ensures Do(s, step).lost == map[] <==> s.lost == map[] && !Loses(s, step)
  {
    LostStep(s, step, 0, Tx);
    var t := Do(s, step);
    if Loses(s, step) {
      var k := Member(s.jobs[step.job].todo.Keys);
      assert k in t.lost;
    } else {
      assert t.lost.Keys == s.lost.Keys;
    }
  }

  // The step drops, loses, expires or overwrites nothing of minute k.
  predicate Spares(step: Step, k: nat) {
    match step
    case Drop(j) => j != k
    case Fail(_) => false
    case Retain(cutoff) => cutoff <= k
    case Observe(j, _) => j != k
    case _ => true
  }

  ghost predicate AllSpare(steps: seq<Step>, k: nat) {
    forall i | 0 <= i < |steps| :: Spares(steps[i], k)
  }

  // Nothing of minute k is waiting to be drained or written.
  ghost predicate Settled(s: State, k: nat) {
    k !in s.pending && forall i | 0 <= i < |s.jobs| :: k !in s.jobs[i].todo
  }

  ghost predicate Untaken(s: State, k: nat, f: Field) {
    At(s.dropped, k, f) == 0 && At(s.lost, k, f) == 0 && At(s.expired, k, f) == 0 && At(s.replaced, k, f) == 0
  }

  // Nothing was taken from any bucket.
  ghost predicate SameTaken(s: State, t: State) {
    t.dropped == s.dropped && t.lost == s.lost && t.expired == s.expired && t.replaced == s.replaced
  }

  lemma JobsTakeNothing(s: State, i: nat, k: nat)
    requires i < |s.jobs|
    ensures SameTaken(s, DoRefresh(s, i)) && (k in s.jobs[i].todo ==> SameTaken(s, DoStore(s, i, k)))
  {
  }

  lemma DrainTakesNothing(s: State, now: int, all: bool)
    ensures SameTaken(s, DoDrain(s, now, all))
  {
  }

  lemma TakesNothing(s: State, step: Step)
    requires step.Add? || step.Drain? || step.Store? || step.Refresh? || step.RefreshListed?
    ensures SameTaken(s, Do(s, step))
  {
    match step {
      case Drain(now, all) => DrainTakesNothing(s, now, all);
      case Store(i, k) => if i < |s.jobs| { JobsTakeNothing(s, i, k); }
      case Refresh(i) => if i < |s.jobs| { JobsTakeNothing(s, i, 0); }
      case _ =>
    }
  }

  lemma UntakenTaking(s: State, step: Step, k: nat, f: Field)
    requires Untaken(s, k, f) && Spares(step, k) && (step.Drop? || step.Observe? || step.Retain?)
    ensures Untaken(Do(s, step), k, f)
  {
    match step {
      case Drop(j) => AtBump(s.dropped, j, Get(s.pending, j), k, f);
      case Observe(j, row) => AtBump(s.replaced, j, Minus(row, Get(s.minutes, j)), k, f);
      case Retain(cutoff) => AtMerge(s.expired, Expired(s.minutes, cutoff), k, f);
    }
  }

  lemma UntakenRefreshFail(s: State, i: nat, k: nat, f: Field)
    requires Untaken(s, k, f)
    ensures Untaken(Do(s, RefreshFail(i)), k, f)
  {
    MergeNothing(s.lost, k, f);
  }

  lemma UntakenKept(s: State, step: Step, k: nat, f: Field)
    requires Untaken(s, k, f) && Spares(step, k)
    ensures Untaken(Do(s, step), k, f)
  {
    match step {
      case Drop(_) | Observe(_, _) | Retain(_) => UntakenTaking(s, step, k, f);
      case RefreshFail(i) => UntakenRefreshFail(s, i, k, f);
      case _ => TakesNothing(s, step);
    }
  }

  lemma {:induction false} UntakenReachable(init: State, steps: seq<Step>, k: nat, f: Field)
    requires Untaken(init, k, f) && AllSpare(steps, k)
    ensures Untaken(Run(init, steps), k, f)
  {
    if steps != [] {
      UntakenReachable(init, steps[..|steps| - 1], k, f);
      UntakenKept(Run(init, steps[..|steps| - 1]), steps[|steps| - 1], k, f);
    }
  }

  lemma {:induction false} NothingInFlight(jobs: seq<Job>, k: nat, f: Field)
    requires forall i | 0 <= i < |jobs| :: k !in jobs[i].todo
    ensures InFlight(jobs, k, f) == 0
  {
    if jobs != [] {
      NothingInFlight(jobs[..|jobs| - 1], k, f);
    }
  }

  // A settled minute of a run that took nothing of it has stored all that was added.
  lemma SettledMinute(m0: Table, h0: Table, steps: seq<Step>, k: nat, f: Field)
    requires AllSpare(steps, k) && Settled(Run(Opening(m0, h0), steps), k)
    ensures var s := Run(Opening(m0, h0), steps); At(s.minutes, k, f) == At(m0, k, f) + At(s.added, k, f)
  {
    LedgerConserved(m0, h0, steps, k, f);
    UntakenReachable(Opening(m0, h0), steps, k, f);
    NothingInFlight(Run(Opening(m0, h0), steps).jobs, k, f);
  }

  // ------------------------------------------------------------------ the rollup invariant

  // A flush under way has written into the hour and will refresh it.
  ghost predicate Due(jobs: seq<Job>, h: nat) {
    exists i :: 0 <= i < |jobs| && jobs[i].live && h in HoursOf(jobs[i].done)
  }

  ghost predicate RangeCovers(j: Job) {
    forall k | k in j.done :: j.from <= k <= j.to
  }

  ghost predicate HourOk(s: State, h: nat) {
    h % HOUR == 0 ==> Fresh(s.minutes, s.hours, h) || h in s.excused || Due(s.jobs, h)
  }

  ghost predicate RolledUp(s: State) {
    && (forall i | 0 <= i < |s.jobs| :: RangeCovers(s.jobs[i]))
    && (forall h: nat :: HourOk(s, h))
  }

  // An hour stays in order when its rows and its flushes do.
  lemma HourKept(s: State, t: State, h: nat)
    requires HourOk(s, h) && SameHour(s.minutes, t.minutes, h)
    requires (h in s.hours <==> h in t.hours) && (h in s.hours ==> s.hours[h] == t.hours[h])
    requires h in s.excused ==> h in t.excused
    requires Due(s.jobs, h) ==> Due(t.jobs, h) || h in t.excused
    ensures HourOk(t, h)
  {
    if h % HOUR == 0 && Fresh(s.minutes, s.hours, h) {
      FreshFrame(s.minutes, t.minutes, s.hours, t.hours, h);
    }
  }

  lemma DueAfter(jobs: seq<Job>, i: nat, j: Job, h: nat)
    requires i < |jobs| && Due(jobs, h)
    requires jobs[i].live && h in HoursOf(jobs[i].done) ==> j.live && h in HoursOf(j.done)
    ensures Due(jobs[i := j], h)
  {
    var n :| 0 <= n < |jobs| && jobs[n].live && h in HoursOf(jobs[n].done);
    assert jobs[i := j][n].live && h in HoursOf(jobs[i := j][n].done);
  }

  lemma WrittenCovers(j: Job, k: nat)
    requires RangeCovers(j)
    ensures RangeCovers(Written(j, k)) && HoursOf(Written(j, k).done) == HoursOf(j.done) + {HourOf(k)}
  {
    assert k in Written(j, k).done;
    assert forall x | x in j.done :: x in Written(j, k).done;
  }

  lemma RolledUpStore(s: State, i: nat, k: nat)
    requires RolledUp(s) && i < |s.jobs| && s.jobs[i].live && k in s.jobs[i].todo
    ensures RolledUp(DoStore(s, i, k))
  {
    var t, j := DoStore(s, i, k), Written(s.jobs[i], k);
    WrittenCovers(s.jobs[i], k);
    forall h: nat ensures HourOk(t, h) {
      assert HourOk(s, h);
      if h == HourOf(k) {
        assert t.jobs[i] == j && j.live && h in HoursOf(j.done);
      } else {
        if Due(s.jobs, h) { DueAfter(s.jobs, i, j, h); }
        HourKept(s, t, h);
      }
    }
  }

  lemma RolledUpFail(s: State, i: nat)
    requires RolledUp(s) && i < |s.jobs|
    ensures RolledUp(DoFail(s, i))
  {
    var t, j := DoFail(s, i), s.jobs[i].(todo := map[], live := false);
    forall h: nat ensures HourOk(t, h) {
      assert HourOk(s, h);
      if Due(s.jobs, h) && h !in HoursOf(s.jobs[i].done) { DueAfter(s.jobs, i, j, h); }
      HourKept(s, t, h);
    }
  }

  lemma CoversHours(j: Job)
    requires RangeCovers(j)
    ensures forall h | h in HoursOf(j.done) :: HourOf(j.from) <= h <= HourOf(j.to)
  {
  }

  lemma RolledUpRefresh(s: State, i: nat)
    requires RolledUp(s) && i < |s.jobs|
    ensures RolledUp(DoRefresh(s, i))
  {
    var t, j := DoRefresh(s, i), s.jobs[i].(live := false);
    var lo, hi := HourOf(s.jobs[i].from), HourOf(s.jobs[i].to);
    CoversHours(s.jobs[i]);
    forall h: nat ensures HourOk(t, h) {
      assert HourOk(s, h);
      RefreshRangeFresh(s.minutes, s.hours, lo, hi, h);
      if !(lo <= h <= hi) {
        if Due(s.jobs, h) { DueAfter(s.jobs, i, j, h); }
        HourKept(s, t, h);
      }
    }
  }

  lemma RolledUpListed(s: State, listed: set<nat>)
    requires RolledUp(s)
    ensures RolledUp(Do(s, RefreshListed(listed)))
  {
    var t := Do(s, RefreshListed(listed));
    forall h: nat ensures HourOk(t, h) {
      assert HourOk(s, h);
      RefreshHoursFresh(s.minutes, s.hours, listed, h);
      if h !in listed {
        HourKept(s, t, h);
      }
    }
  }

  // Minutes changed only within excused hours.
  lemma RolledUpExcused(s: State, t: State)
    requires RolledUp(s) && t.jobs == s.jobs && t.hours == s.hours && s.excused <= t.excused
    requires forall h: nat | h !in t.excused :: SameHour(s.minutes, t.minutes, h)
    ensures RolledUp(t)
  {
    forall h: nat ensures HourOk(t, h) {
      assert HourOk(s, h);
      if h !in t.excused {
        HourKept(s, t, h);
      }
    }
  }

  lemma RolledUpDrain(s: State, now: int, all: bool)
    requires RolledUp(s)
    ensures RolledUp(DoDrain(s, now, all))
  {
    var t := DoDrain(s, now, all);
    forall h: nat ensures HourOk(t, h) {
      assert HourOk(s, h);
      DueMore(s.jobs, t.jobs, h);
      HourKept(s, t, h);
    }
  }

  lemma DueMore(jobs: seq<Job>, more: seq<Job>, h: nat)
    requires jobs <= more
    ensures Due(jobs, h) ==> Due(more, h)
  {
    if Due(jobs, h) {
      var n :| 0 <= n < |jobs| && jobs[n].live && h in HoursOf(jobs[n].done);
      assert more[n] == jobs[n];
    }
  }

  lemma RolledUpKept(s: State, step: Step)
    requires RolledUp(s)
    ensures RolledUp(Do(s, step))
  {
    match step {
      case Add(k, delta) => RolledUpExcused(s, Do(s, step));
      case Drop(k) => RolledUpExcused(s, Do(s, step));
      case Drain(now, all) => RolledUpDrain(s, now, all);
      case Store(i, k) => if i < |s.jobs| && s.jobs[i].live && k in s.jobs[i].todo { RolledUpStore(s, i, k); }
      case Fail(i) => if i < |s.jobs| { RolledUpFail(s, i); }
      case Refresh(i) => if i < |s.jobs| { RolledUpRefresh(s, i); }
      case RefreshFail(i) => if i < |s.jobs| { RolledUpFail(s, i); }
      case Retain(cutoff) => RolledUpExcused(s, Do(s, step));
      case Observe(k, row) => RolledUpExcused(s, Do(s, step));
      case RefreshListed(listed) => RolledUpListed(s, listed);
    }
  }

  lemma {:induction false} RollupReachable(init: State, steps: seq<Step>)
    requires RolledUp(init)
    ensures RolledUp(Run(init, steps))
  {
    if steps != [] {
      RollupReachable(init, steps[..|steps| - 1]);
      RolledUpKept(Run(init, steps[..|steps| - 1]), steps[|steps| - 1]);
    }
  }

  // Once every flush has ended, each hour that no retention, failed flush or direct write has
  // touched since its last refresh is the sum of its minutes and exists exactly when one does.
  lemma {:induction false} RollupInvariant(m0: Table, h0: Table, steps: seq<Step>, h: nat)
    requires forall g: nat | g % HOUR == 0 :: Fresh(m0, h0, g)
    requires var s := Run(Opening(m0, h0), steps); h % HOUR == 0 && h !in s.excused && forall i | 0 <= i < |s.jobs| :: !s.jobs[i].live
    ensures var s := Run(Opening(m0, h0), steps); Fresh(s.minutes, s.hours, h)
  {
    assert forall g: nat :: HourOk(Opening(m0, h0), g);
    RollupReachable(Opening(m0, h0), steps);
    assert HourOk(Run(Opening(m0, h0), steps), h);
  }

  // ------------------------------------------------------------------ retention

  // The minutes that retention deletes.
  function Expired(minutes: Table, cutoff: int): Table {
    map k | k in minutes && k < cutoff :: minutes[k]
  }

  lemma SameFields(a: Row, b: Row)
    requires forall f: Field :: Of(a, f) == Of(b, f)
    ensures a == b
  {
    assert Of(a, Tx) == Of(b, Tx) && Of(a, Blk) == Of(b, Blk) && Of(a, Ord) == Of(b, Ord);
    assert Of(a, Plc) == Of(b, Plc) && Of(a, Cxl) == Of(b, Cxl) && Of(a, Field.Err) == Of(b, Field.Err);
  }

  lemma {:induction false} SumSplit(m: Table, part: Table, lo: nat, hi: nat, f: Field)
    requires lo <= hi && forall j | j in part :: j in m && m[j] == part[j]
    ensures Of(SumTo(m - part.Keys, lo, hi), f) + Of(SumTo(part, lo, hi), f) == Of(SumTo(m, lo, hi), f)
    decreases hi - lo
  {
    if lo < hi {
      SumSplit(m, part, lo, hi - 1, f);
      SumSplitLast(m, part, lo, hi, f);
    } else {
      SumEmpty(m - part.Keys, lo, f);
      SumEmpty(part, lo, f);
      SumEmpty(m, lo, f);
    }
  }

  lemma SumSplitLast(m: Table, part: Table, lo: nat, hi: nat, f: Field)
    requires lo < hi && forall j | j in part :: j in m && m[j] == part[j]
    requires Of(SumTo(m - part.Keys, lo, hi - 1), f) + Of(SumTo(part, lo, hi - 1), f) == Of(SumTo(m, lo, hi - 1), f)
    ensures Of(SumTo(m - part.Keys, lo, hi), f) + Of(SumTo(part, lo, hi), f) == Of(SumTo(m, lo, hi), f)
  {
    AtSplit(m, part, hi - 1, f);
    SumLast(m - part.Keys, lo, hi, f);
    SumLast(part, lo, hi, f);
    SumLast(m, lo, hi, f);
  }

  lemma SumEmpty(m: Table, lo: nat, f: Field)
    ensures Of(SumTo(m, lo, lo), f) == 0
  {
  }

  lemma SumLast(m: Table, lo: nat, hi: nat, f: Field)
    requires lo < hi
    ensures Of(SumTo(m, lo, hi), f) == Of(SumTo(m, lo, hi - 1), f) + At(m, hi - 1, f)
  {
  }

  // What is left of an hour sums to the same row exactly when what is gone sums to nothing.
  lemma SumKeptIff(m: Table, part: Table, h: nat)
    requires forall j | j in part :: j in m && m[j] == part[j]
    ensures HourSum(m - part.Keys, h) == HourSum(m, h) <==> HourSum(part, h) == ZERO
  {
    var kept, all, gone := HourSum(m - part.Keys, h), HourSum(m, h), HourSum(part, h);
    forall f: Field ensures Of(kept, f) + Of(gone, f) == Of(all, f) {
      SumSplit(m, part, h, h + HOUR, f);
    }
    if kept == all {
      forall f: Field ensures Of(gone, f) == Of(ZERO, f) {
        assert Of(kept, f) + Of(gone, f) == Of(all, f);
      }
      SameFields(gone, ZERO);
    }
    if gone == ZERO {
      forall f: Field ensures Of(kept, f) == Of(all, f) {
        assert Of(kept, f) + Of(gone, f) == Of(all, f);
      }
      SameFields(kept, all);
    }
  }

  // Retention deletes minutes and leaves the hour rows.  An hour that agreed with its minutes still
  // does exactly when it had none, or when it keeps one and the rows it loses sum to nothing.
  lemma RetentionIff(s: State, cutoff: int, h: nat)
    requires h % HOUR == 0 && Fresh(s.minutes, s.hours, h)
    ensures var t, gone := Do(s, Retain(cutoff)), Expired(s.minutes, cutoff);
            && t.hours == s.hours
            && (Fresh(t.minutes, t.hours, h) <==> h !in s.hours || (HasMinute(s.minutes - gone.Keys, h) && HourSum(gone, h) == ZERO))
  {
    var t, gone := Do(s, Retain(cutoff)), Expired(s.minutes, cutoff);
    assert t.minutes == s.minutes - gone.Keys;
    SumKeptIff(s.minutes, gone, h);
    if h !in s.hours {
      assert !HasMinute(t.minutes, h);
    }
  }

  // ------------------------------------------------------------------ runs on which it happens

  const BLANK := Opening(map[], map[])

  lemma AddDrained(r: Row)
    ensures var s := Run(BLANK, [Add(0, r), Drain(0, true)]);
            s.jobs == [Job(map[0 := r], {}, 0, 0, true)] && s.pending == map[] && s.minutes == map[] && s.hours == map[] && s.lost == map[]
  {
    RunMore(BLANK, [], Add(0, r));
    RunMore(BLANK, [Add(0, r)], Drain(0, true));
    assert [] + [Add(0, r)] == [Add(0, r)] && [Add(0, r)] + [Drain(0, true)] == [Add(0, r), Drain(0, true)];
    var s := Run(BLANK, [Add(0, r)]);
    assert s.pending == map[0 := r];
    assert Taken(s.pending, 0, true) == s.pending;
  }

  // A row is added and drained, and its write fails: it is lost.
  lemma LossHappens(r: Row)
    ensures var s := Run(BLANK, [Add(0, r), Drain(0, true), Fail(0)]);
            s.lost == map[0 := r] && s.pending == map[] && s.minutes == map[] && s.jobs == [Job(map[], {}, 0, 0, false)]
  {
    AddDrained(r);
    var steps := [Add(0, r), Drain(0, true)];
    RunMore(BLANK, steps, Fail(0));
    assert steps + [Fail(0)] == [Add(0, r), Drain(0, true), Fail(0)];
    WholeFlushFails(Run(BLANK, steps), r);
  }

  lemma WholeFlushFails(s: State, r: Row)
    requires s.jobs == [Job(map[0 := r], {}, 0, 0, true)] && s.lost == map[]
    ensures var t := Do(s, Fail(0));
            && t.lost == map[0 := r] && t.pending == s.pending && t.minutes == s.minutes
            && t.jobs == [Job(map[], {}, 0, 0, false)]
  {
    assert 0 in s.jobs[0].todo;
    assert Merge(map[], map[0 := r]) == map[0 := r];
    assert s.jobs[0 := s.jobs[0].(todo := map[], live := false)] == [Job(map[], {}, 0, 0, false)];
  }

  // A minute is written directly in the hour between two hours that are then refreshed: the range
  // refresh makes that hour's row, the per-hour refresh does not.
  lemma RefreshesDiffer(r: Row)
    ensures var s := Run(BLANK, [Observe(3600, r)]);
            && 3600 in RefreshRange(s.minutes, s.hours, 0, 7200)
            && 3600 !in RefreshHours(s.minutes, s.hours, {0, 7200})
  {
    RunMore(BLANK, [], Observe(3600, r));
    assert [] + [Observe(3600, r)] == [Observe(3600, r)];
    var s := Run(BLANK, [Observe(3600, r)]);
    assert 3600 in s.minutes && HourOf(3600) == 3600;
    assert HasMinute(s.minutes, 3600);
  }

  lemma {:induction false} SumOfFirst(r: Row, hi: nat)
    requires hi >= 1
    ensures SumTo(map[0 := r], 0, hi) == r
  {
    if hi > 1 {
      SumOfFirst(r, hi - 1);
    } else {
      assert SumTo(map[0 := r], 0, 0) == ZERO;
    }
  }

  lemma TwoMinutes(r: Row, q: Row)
    ensures var s := Run(BLANK, [Observe(0, r), Observe(60, q)]); s.minutes == map[0 := r, 60 := q] && s.hours == map[]
  {
    RunMore(BLANK, [], Observe(0, r));
    RunMore(BLANK, [Observe(0, r)], Observe(60, q));
    assert [] + [Observe(0, r)] == [Observe(0, r)] && [Observe(0, r)] + [Observe(60, q)] == [Observe(0, r), Observe(60, q)];
  }

  lemma TwoMinutesRolledUp(r: Row, q: Row)
    ensures var s := Run(BLANK, [Observe(0, r), Observe(60, q), RefreshListed({0})]);
            s.minutes == map[0 := r, 60 := q] && 0 in s.hours && Fresh(s.minutes, s.hours, 0)
  {
    var b := [Observe(0, r), Observe(60, q)];
    TwoMinutes(r, q);
    RunMore(BLANK, b, RefreshListed({0}));
    assert b + [RefreshListed({0})] == [Observe(0, r), Observe(60, q), RefreshListed({0})];
    FirstHourRefreshed(Run(BLANK, b));
  }

  lemma FirstHourRefreshed(s: State)
    requires 0 in s.minutes
    ensures var t := Do(s, RefreshListed({0})); t.minutes == s.minutes && 0 in t.hours && Fresh(t.minutes, t.hours, 0)
  {
    RefreshHoursFresh(s.minutes, s.hours, {0}, 0);
    assert HourOf(0) == 0;
    assert HasMinute(s.minutes, 0);
  }

  // Two minutes of an hour are stored and rolled up, and the cutoff falls between them: the hour
  // row still counts both.
  lemma RetentionDisagrees(r: Row, q: Row)
    requires r != ZERO
    ensures var s := Run(BLANK, [Observe(0, r), Observe(60, q), RefreshListed({0}), Retain(60)]);
            0 in s.hours && s.minutes == map[60 := q] && !Fresh(s.minutes, s.hours, 0)
  {
    var c := [Observe(0, r), Observe(60, q), RefreshListed({0})];
    TwoMinutesRolledUp(r, q);
    RunMore(BLANK, c, Retain(60));
    assert c + [Retain(60)] == [Observe(0, r), Observe(60, q), RefreshListed({0}), Retain(60)];
    FirstExpires(Run(BLANK, c), r, q);
  }

  lemma FirstExpires(s: State, r: Row, q: Row)
    requires r != ZERO && s.minutes == map[0 := r, 60 := q] && 0 in s.hours && Fresh(s.minutes, s.hours, 0)
    ensures var t := Do(s, Retain(60)); 0 in t.hours && t.minutes == map[60 := q] && !Fresh(t.minutes, t.hours, 0)
  {
    ExpiredFirst(r, q);
    SumOfFirst(r, HOUR);
    RetentionIff(s, 60, 0);
  }

  lemma ExpiredFirst(r: Row, q: Row)
    ensures Expired(map[0 := r, 60 := q], 60) == map[0 := r]
    ensures map[0 := r, 60 := q] - map[0 := r].Keys == map[60 := q]
  {
    var m: Table := map[0 := r, 60 := q];
    forall k: nat ensures SameAt(Expired(m, 60), map[0 := r], k) && SameAt(m - map[0 := r].Keys, map[60 := q], k) {
    }
    SameTables(Expired(m, 60), map[0 := r]);
    SameTables(m - map[0 := r].Keys, map[60 := q]);
  }

  // ------------------------------------------------------------------ the aggregator and the store

  // The start of the minute of a timestamp in milliseconds; a missing timestamp stands for now.
  function BucketOf(timestampMs: int, nowMs: nat): nat {
    var ms := if timestampMs <= 0 then nowMs else timestampMs;
    ms / 1000 / MINUTE * MINUTE
  }

  lemma BucketIsFloor(ms: nat)
    ensures FloorUnix(ms / 1000, MINUTE) == BucketOf(ms, ms) && BucketOf(ms, ms) % MINUTE == 0
  {
  }

  // The bucket is the whole minute that the timestamp lies in, or now where it is missing.
  lemma BucketHolds(timestampMs: int, nowMs: nat)
    ensures var b := BucketOf(timestampMs, nowMs);
            && b % 60 == 0
            && (timestampMs > 0 ==> b * 1000 <= timestampMs < (b + 60) * 1000)
            && (timestampMs <= 0 ==> b * 1000 <= nowMs < (b + 60) * 1000)
  {
  }

  datatype Action = PlaceOrder | PlaceStrategy | CancelOrder | CancelOrders | CountdownCancelAll | OtherAction

  predicate IsPlace(a: Action) {
    a.PlaceOrder? || a.PlaceStrategy?
  }

  predicate IsCancel(a: Action) {
    a.CancelOrder? || a.CancelOrders? || a.CountdownCancelAll?
  }

  // Every order counts as a place or as a cancel, and nothing else is recorded but errors.
  function Counted(action: Action, failed: bool): (d: Row)
    ensures d.ord == d.plc + d.cxl && d.tx == d.blk == 0
    ensures d.plc == 1 <==> action in {PlaceOrder, PlaceStrategy}
    ensures d.cxl == 1 <==> action in {CancelOrder, CancelOrders, CountdownCancelAll}
    ensures d.err == 1 <==> failed
    ensures 0 <= d.plc <= 1 && 0 <= d.cxl <= 1 && 0 <= d.err <= 1
  {
    Row(0, 0, if action.OtherAction? then 0 else 1, if IsPlace(action) then 1 else 0, if IsCancel(action) then 1 else 0, if failed then 1 else 0)
  }

  predicate Aligned(m: Table) {
    forall k | k in m :: k % MINUTE == 0
  }

  class Aggregator {
    var pending: Table

    predicate Valid()
      reads this
    {
      Aligned(pending)
    }

    constructor ()
      ensures Valid() && pending == map[]
    {
      pending := map[];
    }

    method Add(timestampMs: int, delta: Row, nowMs: nat)
      requires Valid()
      modifies this
      ensures Valid() && pending == Bump(old(pending), BucketOf(timestampMs, nowMs), delta)
    {
      var ms := if timestampMs <= 0 then nowMs else timestampMs;
      BucketIsFloor(ms);
      var start := FloorUnix(ms / 1000, MINUTE);
      var current := Get(pending, start);
      current := current.(tx := current.tx + delta.tx, blk := current.blk + delta.blk);
      current := current.(ord := current.ord + delta.ord, plc := current.plc + delta.plc);
      current := current.(cxl := current.cxl + delta.cxl, err := current.err + delta.err);
      pending := pending[start := current];
    }

    method AddBlock(timestampMs: int, txCount: int, nowMs: nat)
      requires Valid()
      modifies this
      ensures Valid() && pending == Bump(old(pending), BucketOf(timestampMs, nowMs), Row(txCount, 1, 0, 0, 0, 0))
    {
      Add(timestampMs, ZERO.(tx := txCount, blk := 1), nowMs);
    }

    method AddTransaction(timestampMs: int, action: Action, failed: bool, nowMs: nat)
      requires Valid()
      modifies this
      ensures Valid()
      ensures pending == if Counted(action, failed) == ZERO then old(pending)
                         else Bump(old(pending), BucketOf(timestampMs, nowMs), Counted(action, failed))
    {
      var delta := ZERO;
      if IsPlace(action) || IsCancel(action) {
        delta := delta.(ord := 1);
      }
      if IsPlace(action) {
        delta := delta.(plc := 1);
      }
      if IsCancel(action) {
        delta := delta.(cxl := 1);
      }
      if failed {
        delta := delta.(err := 1);
      }
      assert delta == Counted(action, failed);
      if delta.ord == 0 && delta.err == 0 {
        return;
      }
      Add(timestampMs, delta, nowMs);
    }

    method DropBucketAt(ms: nat)
      requires Valid()
      modifies this
      ensures Valid() && pending == old(pending) - {BucketOf(ms, ms)}
    {
      BucketIsFloor(ms);
      pending := pending - {FloorUnix(ms / 1000, MINUTE)};
    }

    method Drain(now: int, all: bool) returns (taken: Table)
      requires Valid()
      modifies this
      ensures Valid() && taken == Taken(old(pending), now, all) && pending == old(pending) - taken.Keys
    {
      var finalizedBefore := now - MINUTE - 1;
      taken := map[];
      var left := pending.Keys;
      while left != {}
        invariant left <= old(pending).Keys
        invariant taken == map k | k in old(pending) && k !in left && Drained(k, now, all) :: old(pending)[k]
        invariant pending == old(pending) - taken.Keys
      {
        var k := Choose(left);
        left := left - {k};
        if all || k <= finalizedBefore {
          taken := taken[k := pending[k]];
          pending := pending - {k};
        }
      }
    }
  }

  class Store {
    var minutes: Table
    var hours: Table

    // The additive upsert of live deltas and the overwriting one of observed buckets.
    method Write1m(k: nat, row: Row, additive: bool)
      modifies this`minutes
      ensures var b := k / MINUTE * MINUTE; minutes == if additive then Bump(old(minutes), b, row) else old(minutes)[b := row]
    {
      var b := FloorUnix(k, MINUTE);
      if b in minutes && additive {
        minutes := minutes[b := Plus(minutes[b], row)];
      } else {
        minutes := minutes[b := row];
      }
    }

    // Deletes the hour rows of the range and inserts the sums of its minutes, grouped by hour.
    method RefreshRollups(from: nat, to: nat)
      modifies this`hours
      ensures hours == if to < from then old(hours) else RefreshRange(minutes, old(hours), HourOf(from), HourOf(to))
    {
      if to < from {
        return;
      }
      var fromHour, toHour := FloorUnix(from, HOUR), FloorUnix(to, HOUR);
      RebuiltRange(minutes, hours, fromHour, toHour);
      hours := map h | h in hours && !(fromHour <= h <= toHour) :: hours[h];
      hours := hours + Groups(minutes, fromHour, toHour + 3599);
    }

    method ApplyRetention(cutoff: int)
      modifies this`minutes
      ensures minutes == map k | k in old(minutes) && k >= cutoff :: old(minutes)[k]
    {
      minutes := map k | k in minutes && !(k < cutoff) :: minutes[k];
    }

    // The Python refresh of the hours of some minutes, one by one.
    method RefreshTouched(touched: seq<nat>)
      modifies this`hours
      ensures hours == RefreshHours(minutes, old(hours), set i | 0 <= i < |touched| :: HourOf(touched[i]))
    {
      var left := set i | 0 <= i < |touched| :: HourOf(touched[i]);
      ghost var listed := left;
      RefreshNone(minutes, hours);
      while left != {}
        invariant left <= listed && forall h | h in left :: h % HOUR == 0
        invariant hours == RefreshHours(minutes, old(hours), listed - left)
      {
        var h := Choose(left);
        RebuiltHour(minutes, old(hours), listed - left, h);
        assert listed - (left - {h}) == listed - left + {h};
        hours := hours - {h};
        hours := hours + Groups(minutes, h, h + 3599);
        left := left - {h};
      }
      assert listed - left == listed;
    }
  }

  // The sums of the minutes from lo to hi, grouped by hour.
  function Groups(minutes: Table, lo: nat, hi: nat): Table {
    map h | h in (set t | t in minutes && lo <= t <= hi :: t / HOUR * HOUR) :: HourSum(minutes, h)
  }

  lemma GroupsAre(minutes: Table, lo: nat, hi: nat, h: nat)
    requires lo % HOUR == 0 && hi % HOUR == 0
    ensures h in Groups(minutes, lo, hi + 3599) <==> lo <= h <= hi && HasMinute(minutes, h)
    ensures h in Groups(minutes, lo, hi + 3599) ==> Groups(minutes, lo, hi + 3599)[h] == HourSum(minutes, h)
  {
    var groups := set t | t in minutes && lo <= t <= hi + 3599 :: t / HOUR * HOUR;
    if h in groups {
      var t :| t in minutes && lo <= t <= hi + 3599 && t / HOUR * HOUR == h;
      HourInRange(t, lo, hi);
      assert HourOf(t) == h;
    }
    if lo <= h <= hi && HasMinute(minutes, h) {
      var t :| t in minutes && HourOf(t) == h;
      HourInRange(t, lo, hi);
      assert t / HOUR * HOUR in groups;
    }
  }

  lemma HourInRange(t: nat, lo: nat, hi: nat)
    requires lo % HOUR == 0 && hi % HOUR == 0
    ensures lo <= t <= hi + 3599 <==> lo <= HourOf(t) <= hi
  {
  }

  lemma RebuiltRange(minutes: Table, hours: Table, lo: nat, hi: nat)
    requires lo % HOUR == 0 && hi % HOUR == 0
    ensures (map h | h in hours && !(lo <= h <= hi) :: hours[h]) + Groups(minutes, lo, hi + 3599) == RefreshRange(minutes, hours, lo, hi)
  {
    var a := (map h | h in hours && !(lo <= h <= hi) :: hours[h]) + Groups(minutes, lo, hi + 3599);
    var b := RefreshRange(minutes, hours, lo, hi);
    forall h: nat ensures SameAt(a, b, h) {
      GroupsAre(minutes, lo, hi, h);
    }
    SameTables(a, b);
  }

  lemma RebuiltHour(minutes: Table, hours: Table, done: set<nat>, h: nat)
    requires h % HOUR == 0
    ensures RefreshHours(minutes, hours, done) - {h} + Groups(minutes, h, h + 3599) == RefreshHours(minutes, hours, done + {h})
  {
    var a := RefreshHours(minutes, hours, done) - {h} + Groups(minutes, h, h + 3599);
    var b := RefreshHours(minutes, hours, done + {h});
    forall g: nat ensures SameAt(a, b, g) {
      GroupsAre(minutes, h, h, g);
      RefreshHoursFresh(minutes, hours, done, g);
      RefreshHoursFresh(minutes, hours, done + {h}, g);
      if g in done { FreshUnique(minutes, b, RefreshHours(minutes, hours, done), g); }
    }
    SameTables(a, b);
  }

  lemma RefreshNone(minutes: Table, hours: Table)
    ensures RefreshHours(minutes, hours, {}) == hours
  {
  }

  // ------------------------------------------------------------------ a flush

  ghost predicate Matches(a: Aggregator, store: Store, s: State)
    reads a, store
  {
    a.pending == s.pending && store.minutes == s.minutes && store.hours == s.hours
  }

  lemma RunMore(init: State, steps: seq<Step>, step: Step)
    ensures Run(init, steps + [step]) == Do(Run(init, steps), step)
  {
    assert (steps + [step])[..|steps|] == steps;
  }

  // The state t of a flush that drained taken from s and has come as far as job says.
  ghost predicate UnderWay(s: State, t: State, taken: Table, job: Job) {
    && t.jobs == s.jobs + [job] && job.live
    && RangeCovers(job) && job.todo == taken - job.done && job.done <= taken.Keys
  }

  lemma DrainStep(s: State, now: int, all: bool)
    requires Taken(s.pending, now, all) != map[]
    ensures var t, taken := Do(s, Step.Drain(now, all)), Taken(s.pending, now, all);
            UnderWay(s, t, taken, Job(taken, {}, 0, 0, true))
            && t.pending == s.pending - taken.Keys && t.minutes == s.minutes && t.hours == s.hours
  {
    var taken := Taken(s.pending, now, all);
    assert taken - {} == taken;
  }

  lemma StoreStep(s: State, t: State, taken: Table, job: Job, k: nat)
    requires UnderWay(s, t, taken, job) && k in job.todo
    ensures var u := Do(t, Step.Store(|s.jobs|, k));
            && UnderWay(s, u, taken, Written(job, k)) && Written(job, k).done == job.done + {k}
            && u.minutes == Bump(t.minutes, k, job.todo[k]) && u.pending == t.pending && u.hours == t.hours
  {
    WrittenCovers(job, k);
    assert (s.jobs + [job])[|s.jobs| := Written(job, k)] == s.jobs + [Written(job, k)];
    assert taken - job.done - {k} == taken - (job.done + {k});
  }

  // The flush is over: the other flushes are as before, and its own is done with nothing in hand.
  ghost predicate Over(s: State, t: State) {
    && |t.jobs| == |s.jobs| + 1 && t.jobs[..|s.jobs|] == s.jobs
    && !t.jobs[|s.jobs|].live && t.jobs[|s.jobs|].todo == map[]
  }

  lemma FailStep(s: State, t: State, taken: Table, job: Job)
    requires UnderWay(s, t, taken, job) && job.todo != map[]
    ensures var u := Do(t, Fail(|s.jobs|));
            Over(s, u) && u.lost == Merge(t.lost, job.todo) && u.minutes == t.minutes && u.pending == t.pending && u.hours == t.hours
  {
    assert (s.jobs + [job])[|s.jobs| := job.(todo := map[], live := false)] == s.jobs + [job.(todo := map[], live := false)];
  }

  lemma RefreshStep(s: State, t: State, taken: Table, job: Job)
    requires UnderWay(s, t, taken, job) && job.todo == map[]
    ensures var u := Do(t, Refresh(|s.jobs|));
            && Over(s, u) && u.minutes == t.minutes && u.pending == t.pending
            && u.hours == RefreshRange(t.minutes, t.hours, HourOf(job.from), HourOf(job.to))
  {
    assert (s.jobs + [job])[|s.jobs| := job.(live := false)] == s.jobs + [job.(live := false)];
  }

  lemma RefreshFailStep(s: State, t: State, taken: Table, job: Job)
    requires UnderWay(s, t, taken, job) && job.todo == map[]
    ensures var u := Do(t, RefreshFail(|s.jobs|));
            Over(s, u) && u.minutes == t.minutes && u.pending == t.pending && u.hours == t.hours
  {
    var last := job.(todo := map[], live := false);
    assert (s.jobs + [job])[|s.jobs| := last] == s.jobs + [last];
  }

  // The hours of everything written are refreshed with the range.
  lemma AllRefreshed(s: State, t: State, taken: Table, job: Job)
    requires UnderWay(s, t, taken, job) && job.todo == map[] && taken != map[]
    ensures job.from <= job.to
    ensures AllFresh(taken, t.minutes, RefreshRange(t.minutes, t.hours, HourOf(job.from), HourOf(job.to)))
  {
    AllDone(taken, job.done);
    CoversHours(job);
    RangeFresh(taken, t.minutes, t.hours, job);
    var k := Member(taken.Keys);
    assert k in job.done;
  }

  lemma RangeFresh(taken: Table, minutes: Table, hours: Table, job: Job)
    requires job.done == taken.Keys && forall h | h in HoursOf(job.done) :: HourOf(job.from) <= h <= HourOf(job.to)
    ensures AllFresh(taken, minutes, RefreshRange(minutes, hours, HourOf(job.from), HourOf(job.to)))
  {
    forall k | k in taken ensures Fresh(minutes, RefreshRange(minutes, hours, HourOf(job.from), HourOf(job.to)), HourOf(k)) {
      assert HourOf(k) in HoursOf(job.done);
      RefreshRangeFresh(minutes, hours, HourOf(job.from), HourOf(job.to), HourOf(k));
    }
  }

  ghost predicate AllFresh(taken: Table, minutes: Table, hours: Table) {
    forall k | k in taken :: Fresh(minutes, hours, HourOf(k))
  }

  // A flush's steps: a drain, stores, and then a failure or the refresh.
  ghost predicate FlushSteps(more: seq<Step>, ok: bool) {
    && more != [] && more[0].Drain?
    && (forall i | 0 < i < |more| - 1 :: more[i].Store?)
    && (ok <==> !more[|more| - 1].Fail? && !more[|more| - 1].RefreshFail?)
  }

  // Writes a drained bucket and widens the range to refresh.
  method StoreNext(store: Store, job: Job, k: nat) returns (next: Job)
    requires k in job.todo && k % MINUTE == 0
    modifies store`minutes
    ensures next == Written(job, k) && store.minutes == Bump(old(store.minutes), k, job.todo[k])
  {
    store.Write1m(k, job.todo[k], true);
    next := job.(todo := job.todo - {k}, done := job.done + {k});
    if job.done == {} || k < job.from {
      next := next.(from := k);
    }
    if job.done == {} || k > job.to {
      next := next.(to := k);
    }
  }

  // Writes the drained buckets one by one; the write numbered failAt fails, if it comes to that.
  method WriteAll(store: Store, taken: Table, failAt: nat, ghost s: State, ghost t0: State)
    returns (job: Job, ghost t: State, ghost stores: seq<Step>)
    requires UnderWay(s, t0, taken, Job(taken, {}, 0, 0, true)) && Aligned(taken)
    requires store.minutes == t0.minutes
    modifies store`minutes
    ensures UnderWay(s, t, taken, job) && t == Run(t0, stores) && (forall i | 0 <= i < |stores| :: stores[i].Store?)
    ensures t.pending == t0.pending && t.hours == t0.hours && store.minutes == t.minutes
    ensures job.todo == map[] <==> |taken| <= failAt
  {
    job, t, stores := Job(taken, {}, 0, 0, true), t0, [];
    var i := 0;
    while job.todo != map[]
      invariant UnderWay(s, t, taken, job) && |job.done| == i <= failAt
      invariant t == Run(t0, stores) && forall i | 0 <= i < |stores| :: stores[i].Store?
      invariant t.pending == t0.pending && t.hours == t0.hours && store.minutes == t.minutes
      decreases job.todo.Keys
    {
      var k := Choose(job.todo.Keys);
      if i == failAt {
        SubsetSize(job.done, taken.Keys, k);
        return;
      }
      StoreStep(s, t, taken, job, k);
      RunMore(t0, stores, Step.Store(|s.jobs|, k));
      t, stores := Do(t, Step.Store(|s.jobs|, k)), stores + [Step.Store(|s.jobs|, k)];
      job := StoreNext(store, job, k);
      i := i + 1;
    }
    AllDone(taken, job.done);
  }

  lemma AllDone(taken: Table, done: set<nat>)
    requires taken - done == map[] && done <= taken.Keys
    ensures done == taken.Keys
  {
    assert forall k | k in taken :: k !in taken - done;
  }

  lemma {:induction false} RunConcat(init: State, steps: seq<Step>, more: seq<Step>)
    ensures Run(init, steps + more) == Run(Run(init, steps), more)
  {
    if more == [] {
      assert steps + more == steps;
    } else {
      var n := |more| - 1;
      RunConcat(init, steps, more[..n]);
      assert (steps + more)[..|steps + more| - 1] == steps + more[..n];
    }
  }

  // One step, then several, then one.
  lemma RunThree(s: State, first: Step, stores: seq<Step>, last: Step)
    ensures Run(s, [first] + stores + [last]) == Do(Run(Do(s, first), stores), last)
  {
    var more := [first] + stores + [last];
    assert more[..|more| - 1] == [first] + stores;
    RunConcat(s, [first], stores);
    assert [first][..0] == [];
  }

  // The write numbered failAt fails, if the flush gets that far; so does the refresh if
  // refreshFails.  From a ledger at s the flush goes through the steps in more.  It succeeds exactly
  // when nothing failed, and then the hours of everything it drained are up to date.
  method Flush(a: Aggregator, store: Store, now: int, all: bool, failAt: nat, refreshFails: bool, ghost s: State)
    returns (ok: bool, ghost more: seq<Step>)
    requires a.Valid() && Matches(a, store, s)
    modifies a, store
    ensures Matches(a, store, Run(s, more)) && FlushSteps(more, ok)
    ensures var taken := Taken(s.pending, now, all);
            && (if taken == map[] then Run(s, more) == s else Over(s, Run(s, more)))
            && (ok <==> taken == map[] || (|taken| <= failAt && !refreshFails))
            && (ok ==> AllFresh(taken, store.minutes, store.hours))
  {
    var taken := a.Drain(now, all);
    ghost var t := Do(s, Step.Drain(now, all));
    if taken == map[] {
      DrainOnly(s, now, all);
      return true, [Step.Drain(now, all)];
    }
    DrainStep(s, now, all);
    ghost var t1, stores;
    var job;
    job, t1, stores := WriteAll(store, taken, failAt, s, t);
    ghost var last;
    ok, last := Finish(store, taken, job, refreshFails, s, t1);
    more := FlushRun(s, now, all, stores, last, ok);
  }

  lemma {:induction false} FlushRun(s: State, now: int, all: bool, stores: seq<Step>, last: Step, ok: bool) returns (more: seq<Step>)
    requires forall i | 0 <= i < |stores| :: stores[i].Store?
    requires !last.Drain? && (ok <==> !last.Fail? && !last.RefreshFail?)
    ensures Run(s, more) == Do(Run(Do(s, Step.Drain(now, all)), stores), last) && FlushSteps(more, ok)
  {
    more := [Step.Drain(now, all)] + stores + [last];
    RunThree(s, Step.Drain(now, all), stores, last);
    assert forall i | 0 < i < |more| - 1 :: more[i] == stores[i - 1];
  }

  lemma DrainOnly(s: State, now: int, all: bool)
    requires Taken(s.pending, now, all) == map[]
    ensures Run(s, [Step.Drain(now, all)]) == s && s.pending - Taken(s.pending, now, all).Keys == s.pending
    ensures FlushSteps([Step.Drain(now, all)], true)
  {
    assert [Step.Drain(now, all)][..0] == [];
  }

  // The end of a flush: it returns the error of the write that failed, or refreshes the rollups.
  method Finish(store: Store, taken: Table, job: Job, refreshFails: bool, ghost s: State, ghost t: State) returns (ok: bool, ghost last: Step)
    requires UnderWay(s, t, taken, job) && taken != map[] && store.minutes == t.minutes && store.hours == t.hours
    modifies store`hours
    ensures var u := Do(t, last); Over(s, u) && store.minutes == u.minutes && store.hours == u.hours && u.pending == t.pending
    ensures !last.Drain? && (ok <==> !last.Fail? && !last.RefreshFail?)
    ensures ok <==> job.todo == map[] && !refreshFails
    ensures ok ==> AllFresh(taken, store.minutes, store.hours)
  {
    if job.todo != map[] {
      FailStep(s, t, taken, job);
      return false, Fail(|s.jobs|);
    }
    if refreshFails {
      RefreshFailStep(s, t, taken, job);
      return false, RefreshFail(|s.jobs|);
    }
    RefreshStep(s, t, taken, job);
    AllRefreshed(s, t, taken, job);
    store.RefreshRollups(job.from, job.to);
    return true, Refresh(|s.jobs|);
  }

  lemma SubsetSize(a: set<nat>, b: set<nat>, k: nat)
    requires a <= b && k in b && k !in a
    ensures |a| < |b|
  {
    assert a + {k} <= b;
    SizeOfSubset(a + {k}, b);
  }

  lemma {:induction false} SizeOfSubset(a: set<nat>, b: set<nat>)
    requires a <= b
    ensures |a| <= |b|
  {
    if a != {} {
      var x := Member(a);
      SizeOfSubset(a - {x}, b - {x});
    }
  }
}
