// The historical backfill of scripts/hyperliquid_tps_backfill.py: a binary search for the block to
// start at, and a descending walk that rebuilds the missing minutes.
module Backfill {
  import opened Common
  import Ledger

  const HIGHEST: nat := 2_000_000_000

  datatype Block = Block(timeMs: nat, txs: nat)

  // What the explorer answers for a height: the block's time and size, or an error.
  type Meta = nat -> Result<Block, string>

  function Minute(b: Block): nat {
    b.timeMs / 1000 / 60 * 60
  }

  // The minute of a block is a whole one, and the block lies in it.
  lemma MinuteHolds(b: Block)
    ensures Minute(b) % 60 == 0 && Minute(b) * 1000 <= b.timeMs < (Minute(b) + 60) * 1000
  {
  }

  // ------------------------------------------------------------------ the search

  predicate Before(meta: Meta, h: nat, targetMs: nat) {
    meta(h).Ok? && meta(h).value.timeMs < targetMs
  }

  // The blocks before the target are the lowest ones.
  ghost predicate LowestBefore(meta: Meta, targetMs: nat) {
    forall g: nat, h: nat | 1 <= g <= h <= HIGHEST && Before(meta, h, targetMs) :: Before(meta, g, targetMs)
  }

  // Heights up to the tip have blocks, those above give an error, and times never fall.
  ghost predicate Chain(meta: Meta, tip: nat) {
    && (forall h | 1 <= h <= HIGHEST :: meta(h).Ok? <==> h <= tip)
    && Monotone(meta)
  }

  ghost predicate Monotone(meta: Meta) {
    forall g: nat, h: nat | 1 <= g <= h && meta(g).Ok? && meta(h).Ok? :: meta(g).value.timeMs <= meta(h).value.timeMs
  }

  lemma ChainLowestBefore(meta: Meta, tip: nat, targetMs: nat)
    requires Chain(meta, tip)
    ensures LowestBefore(meta, targetMs)
  {
    forall g: nat, h: nat | 1 <= g <= h <= HIGHEST && Before(meta, h, targetMs) ensures Before(meta, g, targetMs) {
      assert meta(h).Ok? && meta(g).Ok?;
    }
  }

  // Finds the greatest height before the target, or nothing exactly when there is none, as long as
  // the blocks before the target are the lowest; in any case a block before the target whose
  // successor is not.
  method FindLastBlockBefore(meta: Meta, targetMs: nat) returns (best: Option<nat>)
    ensures best.Some? ==> 1 <= best.value <= HIGHEST && Before(meta, best.value, targetMs)
    ensures best.Some? ==> best.value == HIGHEST || !Before(meta, best.value + 1, targetMs)
    ensures best.None? ==> !Before(meta, 1, targetMs)
    ensures best.Some? ==> meta(best.value).Ok? && meta(best.value).value.timeMs < targetMs
    ensures best.Some? && best.value < 2_000_000_000 && meta(best.value + 1).Ok? ==> meta(best.value + 1).value.timeMs >= targetMs
    ensures best.None? && meta(1).Ok? ==> meta(1).value.timeMs >= targetMs
    ensures LowestBefore(meta, targetMs) ==>
              forall h | 1 <= h <= 2_000_000_000 :: Before(meta, h, targetMs) <==> best.Some? && h <= best.value
  {
    var low, high := 1, HIGHEST;
    best := None;
    while low <= high
      invariant 1 <= low <= high + 1 <= HIGHEST + 1
      invariant if best.None? then low == 1 else best.value == low - 1 >= 1 && Before(meta, best.value, targetMs)
      invariant high == HIGHEST || !Before(meta, high + 1, targetMs)
      decreases high - low
    {
      var mid := (low + high) / 2;
      var answer := meta(mid);
      if answer.Err? {
        high := mid - 1;
      } else if answer.value.timeMs < targetMs {
        best := Some(mid);
        low := mid + 1;
      } else {
        high := mid - 1;
      }
    }
    if LowestBefore(meta, targetMs) {
      var cut := if best.Some? then best.value else 0;
      assert cut < HIGHEST ==> !Before(meta, cut + 1, targetMs);
    }
  }

  // ------------------------------------------------------------------ sums over blocks

  predicate In(meta: Meta, h: nat, m: nat) {
    meta(h).Ok? && Minute(meta(h).value) == m
  }

  // The transactions and the number of the blocks of minute m among the heights lo + 1 to hi.
  function TxSum(meta: Meta, lo: nat, hi: nat, m: nat): nat
    decreases hi - lo
  {
    if lo >= hi then 0 else TxSum(meta, lo + 1, hi, m) + if In(meta, lo + 1, m) then meta(lo + 1).value.txs else 0
  }

  function BlkSum(meta: Meta, lo: nat, hi: nat, m: nat): nat
    decreases hi - lo
  {
    if lo >= hi then 0 else BlkSum(meta, lo + 1, hi, m) + if In(meta, lo + 1, m) then 1 else 0
  }

  function RowOf(meta: Meta, lo: nat, hi: nat, m: nat): Ledger.Row {
    Ledger.Row(TxSum(meta, lo, hi, m), BlkSum(meta, lo, hi, m), 0, 0, 0, 0)
  }

  lemma {:induction false} SumsSplit(meta: Meta, lo: nat, mid: nat, hi: nat, m: nat)
    requires lo <= mid <= hi
    ensures TxSum(meta, lo, hi, m) == TxSum(meta, lo, mid, m) + TxSum(meta, mid, hi, m)
    ensures BlkSum(meta, lo, hi, m) == BlkSum(meta, lo, mid, m) + BlkSum(meta, mid, hi, m)
    decreases mid - lo
  {
    if lo < mid {
      SumsSplit(meta, lo + 1, mid, hi, m);
    }
  }

  // One height adds its block's transactions and one block to the minute the block lies in, and
  // nothing else to a row.
  lemma SumsOne(meta: Meta, h: nat, m: nat)
    requires m % 60 == 0
    ensures var row := RowOf(meta, h, h + 1, m);
            if meta(h + 1).Ok? && m * 1000 <= meta(h + 1).value.timeMs < (m + 60) * 1000
            then row == Ledger.Row(meta(h + 1).value.txs, 1, 0, 0, 0, 0) else row == Ledger.Row(0, 0, 0, 0, 0, 0)
  {
    if meta(h + 1).Ok? {
      MinuteHolds(meta(h + 1).value);
    }
    assert TxSum(meta, h + 1, h + 1, m) == 0 && BlkSum(meta, h + 1, h + 1, m) == 0;
  }

  lemma {:induction false} NoneSum(meta: Meta, lo: nat, hi: nat, m: nat)
    requires forall h | lo < h <= hi :: !In(meta, h, m)
    ensures TxSum(meta, lo, hi, m) == 0 && BlkSum(meta, lo, hi, m) == 0
    decreases hi - lo
  {
    if lo < hi {
      NoneSum(meta, lo + 1, hi, m);
    }
  }

  // ------------------------------------------------------------------ the walk

  // All heights from lo + 1 to hi have blocks, none earlier than minute m.
  ghost predicate From(meta: Meta, lo: nat, hi: nat, m: nat) {
    forall h | lo < h <= hi :: meta(h).Ok? && Minute(meta(h).value) >= m
  }

  // The missing minutes from m on with blocks among the heights are in written and hold the sums
  // of those blocks, and every other minute is as before.
  ghost predicate Written(meta: Meta, lo: nat, hi: nat, missing: set<nat>, m: nat, written: set<nat>, before: Ledger.Table, after: Ledger.Table) {
    forall k: nat :: WrittenAt(meta, lo, hi, missing, m, written, before, after, k)
  }

  ghost predicate WrittenAt(meta: Meta, lo: nat, hi: nat, missing: set<nat>, m: nat, written: set<nat>, before: Ledger.Table, after: Ledger.Table, k: nat) {
    if k in missing && k >= m && BlkSum(meta, lo, hi, k) > 0 then k in written && k in after && after[k] == RowOf(meta, lo, hi, k)
    else (k in after <==> k in before) && (k in after ==> after[k] == before[k])
  }

  // What was gathered for the current minute.
  ghost predicate Gathered(meta: Meta, lo: nat, hi: nat, missing: set<nat>, m: nat, tx: nat, blocks: nat) {
    if m in missing then tx == TxSum(meta, lo, hi, m) && blocks == BlkSum(meta, lo, hi, m) else tx == 0 && blocks == 0
  }

  // The minute c is complete: written with what was gathered for it, if it is missing.
  lemma MinuteDone(meta: Meta, lo: nat, hi: nat, missing: set<nat>, c: nat, written: set<nat>,
                   before: Ledger.Table, after: Ledger.Table, tx: nat, blocks: nat)
    requires lo < hi && In(meta, lo + 1, c) && c in missing
    requires Written(meta, lo, hi, missing, c + 1, written, before, after) && Gathered(meta, lo, hi, missing, c, tx, blocks)
    ensures Written(meta, lo, hi, missing, c, written + {c}, before, after[c := Ledger.Row(tx, blocks, 0, 0, 0, 0)])
  {
    var now := after[c := Ledger.Row(tx, blocks, 0, 0, 0, 0)];
    assert BlkSum(meta, lo, hi, c) > 0;
    forall k: nat ensures WrittenAt(meta, lo, hi, missing, c, written + {c}, before, now, k) {
      assert WrittenAt(meta, lo, hi, missing, c + 1, written, before, after, k);
    }
  }

  lemma MinuteSkipped(meta: Meta, lo: nat, hi: nat, missing: set<nat>, c: nat, written: set<nat>, before: Ledger.Table, after: Ledger.Table)
    requires c !in missing && Written(meta, lo, hi, missing, c + 1, written, before, after)
    ensures Written(meta, lo, hi, missing, c, written, before, after)
  {
    forall k: nat ensures WrittenAt(meta, lo, hi, missing, c, written, before, after, k) {
      assert WrittenAt(meta, lo, hi, missing, c + 1, written, before, after, k);
    }
  }

  // No block lies in the minutes from n up to c.
  lemma NextMinute(meta: Meta, lo: nat, hi: nat, missing: set<nat>, c: nat, n: nat, written: set<nat>, before: Ledger.Table, after: Ledger.Table)
    requires From(meta, lo, hi, c) && n < c && Written(meta, lo, hi, missing, c, written, before, after)
    ensures Written(meta, lo, hi, missing, n + 1, written, before, after) && Gathered(meta, lo, hi, missing, n, 0, 0)
  {
    NoneSum(meta, lo, hi, n);
    var next := n + 1;
    forall k: nat ensures WrittenAt(meta, lo, hi, missing, next, written, before, after, k) {
      assert WrittenAt(meta, lo, hi, missing, c, written, before, after, k);
      if n < k < c {
        NoneSum(meta, lo, hi, k);
      }
    }
  }

  lemma NoBlocksYet(meta: Meta, hi: nat, missing: set<nat>, m: nat, before: Ledger.Table)
    ensures Written(meta, hi, hi, missing, m, {}, before, before) && Gathered(meta, hi, hi, missing, m, 0, 0)
  {
    forall k: nat ensures WrittenAt(meta, hi, hi, missing, m, {}, before, before, k) {
    }
  }

  // One more block of the current minute.
  lemma BlockAdded(meta: Meta, lo: nat, hi: nat, missing: set<nat>, n: nat, written: set<nat>,
                   before: Ledger.Table, after: Ledger.Table, tx: nat, blocks: nat)
    requires 0 < lo <= hi && In(meta, lo, n) && From(meta, lo, hi, n)
    requires Written(meta, lo, hi, missing, n + 1, written, before, after) && Gathered(meta, lo, hi, missing, n, tx, blocks)
    ensures From(meta, lo - 1, hi, n) && Written(meta, lo - 1, hi, missing, n + 1, written, before, after)
    ensures if n in missing then Gathered(meta, lo - 1, hi, missing, n, tx + meta(lo).value.txs, blocks + 1)
            else Gathered(meta, lo - 1, hi, missing, n, tx, blocks)
  {
    var below, next := lo - 1, n + 1;
    forall k: nat ensures WrittenAt(meta, below, hi, missing, next, written, before, after, k) {
      assert WrittenAt(meta, lo, hi, missing, next, written, before, after, k);
    }
  }

  // With times that never fall, a block below has no later minute.
  lemma EarlierBelow(meta: Meta, lo: nat, hi: nat)
    requires Monotone(meta) && 0 < lo < hi && meta(lo).Ok? && meta(lo + 1).Ok?
    ensures Minute(meta(lo).value) <= Minute(meta(lo + 1).value)
  {
    MinuteMono(meta(lo).value, meta(lo + 1).value);
  }

  lemma MinuteMono(a: Block, b: Block)
    requires a.timeMs <= b.timeMs
    ensures Minute(a) <= Minute(b)
  {
  }

  // ------------------------------------------------------------------ the rollups of what was written

  ghost predicate FreshOrTouched(minutes: Ledger.Table, hours: Ledger.Table, written: set<nat>, touched: seq<nat>) {
    forall m | m in written :: FreshOrListed(minutes, hours, Ledger.HourOf(m), touched)
  }

  ghost predicate FreshOrListed(minutes: Ledger.Table, hours: Ledger.Table, h: nat, touched: seq<nat>) {
    Ledger.Fresh(minutes, hours, h) || h in ListedHours(touched)
  }

  ghost function ListedHours(touched: seq<nat>): set<nat> {
    set i | 0 <= i < |touched| :: Ledger.HourOf(touched[i])
  }

  lemma TouchedByWrite(minutes: Ledger.Table, hours: Ledger.Table, written: set<nat>, touched: seq<nat>, m: nat, row: Ledger.Row)
    requires FreshOrTouched(minutes, hours, written, touched)
    ensures FreshOrTouched(minutes[m := row], hours, written + {m}, touched + [m])
  {
    forall k | k in written + {m} ensures FreshOrListed(minutes[m := row], hours, Ledger.HourOf(k), touched + [m]) {
      var h := Ledger.HourOf(k);
      assert (touched + [m])[|touched|] == m;
      if h != Ledger.HourOf(m) {
        if Ledger.Fresh(minutes, hours, h) {
          Ledger.FreshFrame(minutes, minutes[m := row], hours, hours, h);
        } else {
          var i :| 0 <= i < |touched| && Ledger.HourOf(touched[i]) == h;
          assert (touched + [m])[i] == touched[i];
        }
      }
    }
  }

  lemma TouchedRefreshed(minutes: Ledger.Table, hours: Ledger.Table, written: set<nat>, touched: seq<nat>)
    requires FreshOrTouched(minutes, hours, written, touched)
    ensures FreshOrTouched(minutes, Ledger.RefreshHours(minutes, hours, ListedHours(touched)), written, [])
  {
    var after := Ledger.RefreshHours(minutes, hours, ListedHours(touched));
    forall k | k in written ensures FreshOrListed(minutes, after, Ledger.HourOf(k), []) {
      var h := Ledger.HourOf(k);
      assert FreshOrListed(minutes, hours, h, touched);
      Ledger.RefreshHoursFresh(minutes, hours, ListedHours(touched), h);
      if h !in ListedHours(touched) {
        Ledger.FreshFrame(minutes, minutes, hours, after, h);
      }
    }
  }

  // Writes one rebuilt minute, replacing any row it had.
  method WriteBucket(store: Ledger.Store, minute: nat, tx: nat, blocks: nat, touched: seq<nat>, ghost written: set<nat>) returns (more: seq<nat>)
    requires minute % 60 == 0 && FreshOrTouched(store.minutes, store.hours, written, touched)
    modifies store`minutes
    ensures store.minutes == old(store.minutes)[minute := Ledger.Row(tx, blocks, 0, 0, 0, 0)]
    ensures FreshOrTouched(store.minutes, store.hours, written + {minute}, more)
  {
    TouchedByWrite(store.minutes, store.hours, written, touched, minute, Ledger.Row(tx, blocks, 0, 0, 0, 0));
    store.Write1m(minute, Ledger.Row(tx, blocks, 0, 0, 0, 0), false);
    more := touched + [minute];
  }

  method RefreshRollups(store: Ledger.Store, touched: seq<nat>, ghost written: set<nat>)
    requires FreshOrTouched(store.minutes, store.hours, written, touched)
    modifies store`hours
    ensures FreshOrTouched(store.minutes, store.hours, written, [])
  {
    if touched == [] {
      return;
    }
    TouchedRefreshed(store.minutes, store.hours, written, touched);
    store.RefreshTouched(touched);
  }

  // Where the walk stands: heights down to lo are done, current is the minute of the lowest.
  ghost predicate Walking(meta: Meta, lo: nat, hi: nat, missing: set<nat>, current: Option<nat>, written: set<nat>,
                          before: Ledger.Table, after: Ledger.Table, tx: nat, blocks: nat) {
    if current == None then lo == hi && after == before && written == {} && tx == 0 && blocks == 0
    else
      && lo < hi && In(meta, lo + 1, current.value) && From(meta, lo, hi, current.value)
      && Written(meta, lo, hi, missing, current.value + 1, written, before, after)
      && Gathered(meta, lo, hi, missing, current.value, tx, blocks)
  }

  // Moves the walk to the minute of the next block, writing the one left behind.
  method EnterMinute(meta: Meta, store: Ledger.Store, lo: nat, hi: nat, missing: set<nat>, current: Option<nat>, minute: nat,
                     tx0: nat, blocks0: nat, touched0: seq<nat>, ghost written0: set<nat>, ghost before: Ledger.Table)
    returns (tx: nat, blocks: nat, touched: seq<nat>, ghost written: set<nat>)
    requires Monotone(meta) && 0 < lo <= hi && In(meta, lo, minute) && forall m | m in missing :: m % 60 == 0
    requires Walking(meta, lo, hi, missing, current, written0, before, store.minutes, tx0, blocks0)
    requires FreshOrTouched(store.minutes, store.hours, written0, touched0)
    modifies store
    ensures From(meta, lo, hi, minute) && Written(meta, lo, hi, missing, minute + 1, written, before, store.minutes)
    ensures Gathered(meta, lo, hi, missing, minute, tx, blocks) && FreshOrTouched(store.minutes, store.hours, written, touched)
  {
    tx, blocks, touched, written := tx0, blocks0, touched0, written0;
    if current == None {
      NoBlocksYet(meta, hi, missing, minute + 1, before);
      NoBlocksYet(meta, hi, missing, minute, before);
      return;
    }
    var c := current.value;
    EarlierBelow(meta, lo, hi + 1);
    if minute != c {
      if c !in missing {
        MinuteSkipped(meta, lo, hi, missing, c, written, before, store.minutes);
      } else {
        MinuteDone(meta, lo, hi, missing, c, written, before, store.minutes, tx, blocks);
        touched := WriteBucket(store, c, tx, blocks, touched, written);
        written := written + {c};
        if |touched| >= 60 {
          RefreshRollups(store, touched, written);
          touched := [];
        }
      }
      NextMinute(meta, lo, hi, missing, c, minute, written, before, store.minutes);
      tx, blocks := 0, 0;
    }
  }

  // Walks down from a height and rebuilds every missing minute with blocks on the way: from first
  // on, until a height gives an error, as those in failing do besides, or a block is earlier than
  // that.  Every minute written is rolled up at the end.
  method Walk(meta: Meta, failing: set<nat>, store: Ledger.Store, end: nat, missing: set<nat>, first: nat) returns (stop: nat, ghost written: set<nat>)
    requires Monotone(meta) && forall m | m in missing :: m % 60 == 0
    modifies store
    ensures stop <= end && From(meta, stop, end, first) && (forall h | stop < h <= end :: h !in failing)
    ensures stop == 0 || stop in failing || meta(stop).Err? || Minute(meta(stop).value) < first
    ensures Written(meta, stop, end, missing, 0, written, old(store.minutes), store.minutes)
    ensures forall m | m in written :: Ledger.Fresh(store.minutes, store.hours, Ledger.HourOf(m))
  {
    var current: Option<nat>, tx: nat, blocks: nat, touched := None, 0, 0, [];
    var h: nat := end;
    written := {};
    while h > 0
      invariant h <= end && From(meta, h, end, first) && (forall g | h < g <= end :: g !in failing)
      invariant Walking(meta, h, end, missing, current, written, old(store.minutes), store.minutes, tx, blocks)
      invariant FreshOrTouched(store.minutes, store.hours, written, touched)
    {
      var answer := meta(h);
      if h in failing || answer.Err? {
        break;
      }
      var minute := Minute(answer.value);
      if minute < first {
        break;
      }
      tx, blocks, touched, written := EnterMinute(meta, store, h, end, missing, current, minute, tx, blocks, touched, written, old(store.minutes));
      BlockAdded(meta, h, end, missing, minute, written, old(store.minutes), store.minutes, tx, blocks);
      current := Some(minute);
      if minute in missing {
        tx, blocks := tx + answer.value.txs, blocks + 1;
      }
      h := h - 1;
    }
    stop := h;
    written := EndWalk(meta, store, h, end, missing, current, tx, blocks, touched, written, old(store.minutes));
  }

  // Writes the minute the walk ended in, and refreshes the rollups of what is still touched.
  method EndWalk(meta: Meta, store: Ledger.Store, lo: nat, hi: nat, missing: set<nat>, current: Option<nat>,
                 tx: nat, blocks: nat, touched0: seq<nat>, ghost written0: set<nat>, ghost before: Ledger.Table)
    returns (ghost written: set<nat>)
    requires forall m | m in missing :: m % 60 == 0
    requires Walking(meta, lo, hi, missing, current, written0, before, store.minutes, tx, blocks)
    requires FreshOrTouched(store.minutes, store.hours, written0, touched0)
    modifies store
    ensures Written(meta, lo, hi, missing, 0, written, before, store.minutes)
    ensures forall m | m in written :: Ledger.Fresh(store.minutes, store.hours, Ledger.HourOf(m))
  {
    var touched := touched0;
    written := written0;
    if current == None {
      NoBlocksYet(meta, hi, missing, 0, store.minutes);
    } else {
      var c := current.value;
      if c !in missing {
        MinuteSkipped(meta, lo, hi, missing, c, written, before, store.minutes);
      } else {
        MinuteDone(meta, lo, hi, missing, c, written, before, store.minutes, tx, blocks);
        touched := WriteBucket(store, c, tx, blocks, touched, written);
        written := written + {c};
      }
      AllMinutes(meta, lo, hi, missing, c, written, before, store.minutes);
    }
    RefreshRollups(store, touched, written);
    assert forall m | m in written :: FreshOrListed(store.minutes, store.hours, Ledger.HourOf(m), []);
  }

  lemma AllMinutes(meta: Meta, lo: nat, hi: nat, missing: set<nat>, c: nat, written: set<nat>, before: Ledger.Table, after: Ledger.Table)
    requires From(meta, lo, hi, c) && Written(meta, lo, hi, missing, c, written, before, after)
    ensures Written(meta, lo, hi, missing, 0, written, before, after)
  {
    forall k: nat ensures WrittenAt(meta, lo, hi, missing, 0, written, before, after, k) {
      assert WrittenAt(meta, lo, hi, missing, c, written, before, after, k);
      if k < c {
        NoneSum(meta, lo, hi, k);
      }
    }
  }

  // ------------------------------------------------------------------ the whole backfill

  // The search region: the blocks before the end of the latest missing minute.
  ghost predicate InRegion(meta: Meta, missing: set<nat>, h: nat) {
    1 <= h <= HIGHEST && exists q :: q in missing && Before(meta, h, (q + 60) * 1000)
  }

  // No height fails at or above a block of minute m, as far down as the walk may come.
  ghost predicate Unbroken(meta: Meta, failing: set<nat>, missing: set<nat>, m: nat) {
    forall h | h in failing && InRegion(meta, missing, h) :: BlkSum(meta, 0, h, m) == 0
  }

  // What the walk from end to stop gathers of a minute is all of it exactly when nothing of it
  // lies at or below stop.
  lemma RowExactIff(meta: Meta, stop: nat, end: nat, tip: nat, targetMs: nat, m: nat)
    requires stop <= end <= tip <= HIGHEST && (m + 60) * 1000 <= targetMs && m % 60 == 0
    requires forall h | end < h <= tip :: !Before(meta, h, targetMs)
    ensures RowOf(meta, stop, end, m) == RowOf(meta, 0, tip, m) <==> BlkSum(meta, 0, stop, m) == 0
    ensures BlkSum(meta, 0, tip, m) == BlkSum(meta, 0, stop, m) + BlkSum(meta, stop, end, m)
  {
    forall h | end < h <= tip ensures !In(meta, h, m) {
      assert !Before(meta, h, targetMs);
    }
    NoneSum(meta, end, tip, m);
    SumsSplit(meta, 0, stop, tip, m);
    SumsSplit(meta, stop, end, tip, m);
    NoBlocksNoTx(meta, 0, stop, m);
  }

  // Nothing of a missing minute lies below the stop exactly when no failing height kept the walk
  // from it.
  lemma StopUnbroken(meta: Meta, failing: set<nat>, missing: set<nat>, stop: nat, end: nat, first: nat, m: nat)
    requires Monotone(meta) && first <= m && stop <= end
    requires forall h | stop < h <= end :: h !in failing
    requires stop == 0 || stop in failing || (meta(stop).Ok? && Minute(meta(stop).value) < first)
    requires forall h: nat | InRegion(meta, missing, h) :: h <= end
    requires stop >= 1 ==> InRegion(meta, missing, stop)
    ensures BlkSum(meta, 0, stop, m) == 0 <==> Unbroken(meta, failing, missing, m)
  {
    if stop !in failing {
      NothingBelow(meta, stop, first, m);
    }
    forall h | h in failing && InRegion(meta, missing, h) ensures BlkSum(meta, 0, h, m) <= BlkSum(meta, 0, stop, m) {
      assert h <= stop;
      SumsSplit(meta, 0, h, stop, m);
    }
  }

  lemma {:induction false} NoBlocksNoTx(meta: Meta, lo: nat, hi: nat, m: nat)
    ensures BlkSum(meta, lo, hi, m) == 0 ==> TxSum(meta, lo, hi, m) == 0
    decreases hi - lo
  {
    if lo < hi {
      NoBlocksNoTx(meta, lo + 1, hi, m);
    }
  }

  // A walk that did not stop on an error has visited every block from the first minute on.
  lemma NothingBelow(meta: Meta, stop: nat, first: nat, m: nat)
    requires Monotone(meta) && m >= first && (stop == 0 || (meta(stop).Ok? && Minute(meta(stop).value) < first))
    ensures BlkSum(meta, 0, stop, m) == 0
  {
    forall h | 0 < h <= stop ensures !In(meta, h, m) {
      if meta(h).Ok? {
        MinuteMono(meta(h).value, meta(stop).value);
      }
    }
    NoneSum(meta, 0, stop, m);
  }

  // The minutes of the window without a row, up to two minutes ago and before the newest row.
  method MissingMinutes(minutes: Ledger.Table, now: nat, hours: nat, newest: Option<nat>) returns (missing: set<nat>)
    requires now % 60 == 0 && hours * 3600 <= now
    requires if newest == None then minutes == map[] else newest.value in minutes && forall k | k in minutes :: k <= newest.value
    ensures forall t: nat :: t in missing <==>
              t % 60 == 0 && now - hours * 3600 <= t <= now - 120 && t !in minutes && (newest == None || t <= newest.value - 60)
  {
    var start: int := now - hours * 3600;
    var end: int := now - 120;
    if newest.Some? && newest.value - 60 < end {
      end := newest.value - 60;
    }
    missing := {};
    var t := start;
    assert t % 60 == 0;
    while t <= end
      invariant start <= t && t % 60 == 0
      invariant forall k: nat :: k in missing <==> k % 60 == 0 && start <= k < t && k <= end && k !in minutes
      decreases end - t
    {
      if t !in minutes {
        missing := missing + {t};
      }
      t := t + 60;
    }
  }

  method Bounds(missing: set<nat>) returns (first: nat, latest: nat)
    requires missing != {}
    ensures first in missing && latest in missing && forall m | m in missing :: first <= m <= latest
  {
    var m := Choose(missing);
    first, latest := m, m;
    var left := missing - {m};
    while left != {}
      invariant left <= missing && first in missing && latest in missing
      invariant forall k | k in missing && k !in left :: first <= k <= latest
    {
      var k := Choose(left);
      left := left - {k};
      if k < first {
        first := k;
      }
      if k > latest {
        latest := k;
      }
    }
  }

  // After the backfill, for a missing minute with a block on the chain: it has an exact row, unless
  // a failing height kept the walk from one of its blocks, and a minute that was absent has an
  // exact row only then.
  ghost predicate Rebuilt(meta: Meta, tip: nat, failing: set<nat>, missing: set<nat>, m: nat, before: Ledger.Table, after: Ledger.Table) {
    var exact := m in after && after[m] == RowOf(meta, 0, tip, m);
    && (Unbroken(meta, failing, missing, m) ==> exact)
    && (m !in before && exact ==> Unbroken(meta, failing, missing, m))
  }

  lemma RegionIs(meta: Meta, missing: set<nat>, latest: nat, targetMs: nat, end: nat)
    requires latest in missing && (forall q | q in missing :: q <= latest) && targetMs == (latest + 60) * 1000
    requires end <= HIGHEST && forall h | 1 <= h <= HIGHEST :: Before(meta, h, targetMs) <==> h <= end
    ensures forall h: nat :: InRegion(meta, missing, h) <==> 1 <= h <= end
  {
    forall h: nat | 1 <= h <= HIGHEST ensures InRegion(meta, missing, h) <==> Before(meta, h, targetMs) {
      if q :| q in missing && Before(meta, h, (q + 60) * 1000) {
        assert (q + 60) * 1000 <= targetMs;
      }
    }
  }

  // The backfill of the missing minutes.  In the search the explorer answers for every block of the
  // chain; in the walk it may fail at the heights in failing, where the walk stops.  It fails
  // exactly when no block precedes the end of the latest missing minute.  Otherwise every missing
  // minute with a block on the chain is rebuilt from all its blocks and rolled up, unless a failing
  // height lies at or above one of them, and minutes that are not missing stay as they were.
  method Run(meta: Meta, tip: nat, failing: set<nat>, store: Ledger.Store, missing: set<nat>) returns (ok: bool, stop: nat, ghost end: nat, ghost written: set<nat>)
    requires tip <= HIGHEST && Chain(meta, tip) && missing != {} && forall m | m in missing :: m % 60 == 0
    modifies store
    ensures ok <==> exists m :: m in missing && tip >= 1 && meta(1).value.timeMs < (m + 60) * 1000
    ensures !ok ==> store.minutes == old(store.minutes) && store.hours == old(store.hours)
    ensures ok ==> (forall h: nat :: InRegion(meta, missing, h) <==> 1 <= h <= end) && (forall h | stop < h <= end :: h !in failing)
    ensures ok ==> stop == 0 || stop in failing || (stop <= tip && forall m | m in missing :: Minute(meta(stop).value) < m)
    ensures ok ==> stop <= end <= tip && Written(meta, stop, end, missing, 0, written, old(store.minutes), store.minutes)
    ensures ok ==> forall m | m in missing && BlkSum(meta, 0, tip, m) > 0 :: Rebuilt(meta, tip, failing, missing, m, old(store.minutes), store.minutes)
    ensures ok ==> forall m | m in missing && BlkSum(meta, stop, end, m) > 0 :: Ledger.Fresh(store.minutes, store.hours, Ledger.HourOf(m))
    ensures ok ==> forall m | m in missing && BlkSum(meta, 0, tip, m) > 0 && Unbroken(meta, failing, missing, m) ::
              Ledger.Fresh(store.minutes, store.hours, Ledger.HourOf(m))
    ensures ok && stop !in failing ==> forall m | m in missing && BlkSum(meta, 0, tip, m) > 0 ::
              m in store.minutes && store.minutes[m] == RowOf(meta, 0, tip, m)
    ensures ok ==> forall m: nat | m !in missing :: (m in store.minutes <==> m in old(store.minutes)) && (m in store.minutes ==> store.minutes[m] == old(store.minutes)[m])
  {
    var first, latest := Bounds(missing);
    var best := FindLastBlockBefore(meta, (latest + 60) * 1000);
    ChainLowestBefore(meta, tip, (latest + 60) * 1000);
    stop, end, written := 0, 0, {};
    ok := best.Some?;
    if best == None {
      return;
    }
    end := best.value;
    stop, written := Walk(meta, failing, store, best.value, missing, first);
    RegionIs(meta, missing, latest, (latest + 60) * 1000, end);
    forall m | m in missing
      ensures BlkSum(meta, 0, tip, m) > 0 ==> Rebuilt(meta, tip, failing, missing, m, old(store.minutes), store.minutes)
      ensures BlkSum(meta, stop, end, m) > 0 ==> m in written
      ensures BlkSum(meta, 0, tip, m) > 0 && Unbroken(meta, failing, missing, m) ==> m in written
      ensures stop !in failing ==> Unbroken(meta, failing, missing, m)
    {
      assert WrittenAt(meta, stop, end, missing, 0, written, old(store.minutes), store.minutes, m);
      RowExactIff(meta, stop, end, tip, (latest + 60) * 1000, m);
      StopUnbroken(meta, failing, missing, stop, end, first, m);
      if stop !in failing {
        NothingBelow(meta, stop, first, m);
      }
    }
    forall m: nat | m !in missing
      ensures (m in store.minutes <==> m in old(store.minutes)) && (m in store.minutes ==> store.minutes[m] == old(store.minutes)[m])
    {
      assert WrittenAt(meta, stop, end, missing, 0, written, old(store.minutes), store.minutes, m);
    }
  }

  // Two blocks of one minute, of five transactions each.
  const TWO_BLOCKS: Meta := h => if 1 <= h <= 2 then Ok(Block(60_000, 5)) else Err("no such block")

  // The explorer fails at the lower of two blocks of a missing minute: its row counts only the
  // upper one.
  method PartialMinute(store: Ledger.Store)
    requires store.minutes == map[]
    modifies store
    ensures 60 in store.minutes && store.minutes[60] == Ledger.Row(5, 1, 0, 0, 0, 0)
    ensures RowOf(TWO_BLOCKS, 0, 2, 60) == Ledger.Row(10, 2, 0, 0, 0, 0)
  {
    assert Before(TWO_BLOCKS, 1, (60 + 60) * 1000) && Before(TWO_BLOCKS, 2, (60 + 60) * 1000);
    var ok, stop, end, written := Run(TWO_BLOCKS, 2, {1}, store, {60});
    assert InRegion(TWO_BLOCKS, {60}, 2) && InRegion(TWO_BLOCKS, {60}, 1) && !InRegion(TWO_BLOCKS, {60}, 3);
    assert end == 2 && stop == 1;
    assert WrittenAt(TWO_BLOCKS, stop, end, {60}, 0, written, map[], store.minutes, 60);
  }
}
