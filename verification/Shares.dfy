// Category shares in parts per million: the shares of one sampled block
// (internal/exchangetps/hyperliquid.go), merged into minute rows by rounded weighted means and
// rolled up by hour (internal/exchangetps/store.go).
module Shares {
  import opened Common

  const PPM: int := 1_000_000

  // ------------------------------------------------------------------ rounding

  // SQL's ROUND of a non-negative quotient: halves go up.
  function Rounded(num: int, den: int): int
    requires num >= 0 && den > 0
  {
    (2 * num + den) / (2 * den)
  }

  lemma MulMono(a: int, b: int, c: int)
    requires a <= b && c >= 0
    ensures a * c <= b * c
  {
    assert (b - a) * c >= 0;
  }

  lemma RoundedNear(num: int, den: int)
    requires num >= 0 && den > 0
    ensures 2 * num - den < 2 * (Rounded(num, den) * den) <= 2 * num + den
  {
    var q, d := 2 * num + den, 2 * den;
    assert q == q / d * d + q % d;
    assert q / d * d == 2 * (q / d * den);
  }

  // A rounded mean of values between lo and hi lies between them.
  lemma RoundedWithin(num: int, den: int, lo: int, hi: int)
    requires num >= 0 && den > 0 && lo * den <= num <= hi * den
    ensures lo <= Rounded(num, den) <= hi
  {
    RoundedNear(num, den);
    NearWithin(Rounded(num, den), num, den, lo, hi);
  }

  lemma NearWithin(r: int, num: int, den: int, lo: int, hi: int)
    requires den > 0 && lo * den <= num <= hi * den && 2 * num - den < 2 * (r * den) <= 2 * num + den
    ensures lo <= r <= hi
  {
    if r < lo {
      MulMono(r + 1, lo, den);
      OneMoreTimes(r, den);
    }
    if r > hi {
      MulMono(hi + 1, r, den);
      OneMoreTimes(hi, den);
    }
  }

  lemma OneMoreTimes(a: int, c: int)
    ensures (a + 1) * c == a * c + c
  {
  }

  // ------------------------------------------------------------------ minute rows

  datatype Row = Row(share: int, tx: int, blk: int)

  datatype Sample = Sample(minute: int, name: string, share: int, tx: int, blk: int)

  type Table = map<(int, string), Row>

  function Clamped(share: int): int {
    if share > PPM then PPM else share
  }

  // A sample that the store records; the others leave the table alone.
  predicate Recorded(x: Sample) {
    x.tx > 0 && x.blk > 0 && x.name != "" && x.share >= 0
  }

  function Merged(r: Row, x: Sample): Row
    requires r.share >= 0 && r.tx > 0 && Recorded(x)
  {
    MulMono(0, r.share, r.tx);
    MulMono(0, Clamped(x.share), x.tx);
    Row(Rounded(r.share * r.tx + Clamped(x.share) * x.tx, r.tx + x.tx), r.tx + x.tx, r.blk + x.blk)
  }

  function Upsert(r: Option<Row>, x: Sample): Option<Row>
    requires r.Some? ==> r.value.share >= 0 && r.value.tx > 0
  {
    if !Recorded(x) then r
    else if r == None then Some(Row(Clamped(x.share), x.tx, x.blk))
    else Some(Merged(r.value, x))
  }

  // The row of one category and minute after its samples in order, as the store computes it.
  function RowAfter(xs: seq<Sample>): (r: Option<Row>)
    ensures r.Some? ==> 0 <= r.value.share <= PPM && r.value.tx > 0
  {
    if xs == [] then None
    else
      var before, x := RowAfter(xs[..|xs| - 1]), xs[|xs| - 1];
      if before.Some? && Recorded(x) then
        MergedWithin(before.value, x, 0, PPM);
        Upsert(before, x)
      else Upsert(before, x)
  }

  lemma MergedWithin(r: Row, x: Sample, lo: int, hi: int)
    requires r.tx > 0 && Recorded(x) && 0 <= lo <= r.share <= hi && lo <= Clamped(x.share) <= hi
    ensures lo <= Merged(r, x).share <= hi
  {
    MulMono(0, r.share, r.tx);
    MulMono(0, Clamped(x.share), x.tx);
    MulMono(lo, r.share, r.tx);
    MulMono(r.share, hi, r.tx);
    MulMono(lo, Clamped(x.share), x.tx);
    MulMono(Clamped(x.share), hi, x.tx);
    Distributes(lo, r.tx, x.tx);
    Distributes(hi, r.tx, x.tx);
    RoundedWithin(r.share * r.tx + Clamped(x.share) * x.tx, r.tx + x.tx, lo, hi);
  }

  lemma Distributes(a: int, m: int, n: int)
    ensures a * (m + n) == a * m + a * n
  {
  }

  // ------------------------------------------------------------------ the exact mean

  function TxOf(xs: seq<Sample>): int {
    if xs == [] then 0
    else
      var x := xs[|xs| - 1];
      TxOf(xs[..|xs| - 1]) + if x.tx > 0 && x.blk > 0 && x.name != "" && x.share >= 0 then x.tx else 0
  }

  function WeightOf(xs: seq<Sample>): int {
    if xs == [] then 0
    else
      var x := xs[|xs| - 1];
      WeightOf(xs[..|xs| - 1]) + if Recorded(x) then (if x.share > 1_000_000 then 1_000_000 else x.share) * x.tx else 0
  }

  function CountOf(xs: seq<Sample>): nat {
    if xs == [] then 0 else CountOf(xs[..|xs| - 1]) + if Recorded(xs[|xs| - 1]) then 1 else 0
  }

  // A sample counts, once, when it has transactions, blocks, a name and no negative share, and its
  // share counts as at most a million.
  lemma SamplesGrow(xs: seq<Sample>, x: Sample)
    ensures var counts := x.tx > 0 && x.blk > 0 && x.name != "" && x.share >= 0;
            && CountOf(xs + [x]) == CountOf(xs) + (if counts then 1 else 0)
            && TxOf(xs + [x]) == TxOf(xs) + (if counts then x.tx else 0)
            && WeightOf(xs + [x]) == WeightOf(xs) + (if counts then (if x.share > 1_000_000 then 1_000_000 else x.share) * x.tx else 0)
    ensures CountOf([]) == TxOf([]) == WeightOf([]) == 0
  {
    assert (xs + [x])[..|xs|] == xs;
  }

  // share * tx and the exact weighted sum differ by at most (k - 1) / 2 for every transaction.
  ghost predicate Drifts(product: int, weight: int, k: int, tx: int) {
    -((k - 1) * tx) <= 2 * (product - weight) <= (k - 1) * tx
  }

  lemma DriftStep(r: Row, x: Sample, weight: int, k: nat)
    requires r.share >= 0 && r.tx > 0 && Recorded(x) && k >= 1
    requires Drifts(r.share * r.tx, weight, k, r.tx)
    ensures Drifts(Merged(r, x).share * Merged(r, x).tx, weight + Clamped(x.share) * x.tx, k + 1, Merged(r, x).tx)
  {
    MulMono(0, r.share, r.tx);
    MulMono(0, Clamped(x.share), x.tx);
    RoundedNear(r.share * r.tx + Clamped(x.share) * x.tx, r.tx + x.tx);
    DriftBound(r.tx, x.tx, k);
  }

  lemma DriftBound(m: int, n: int, k: nat)
    requires m > 0 && n > 0 && k >= 1
    ensures (k - 1) * m + (m + n) <= k * (m + n)
  {
    MulMono(0, k - 1, n);
    Distributes(k - 1, m, n);
  }

  // After k merged samples a share is within (k - 1) / 2 ppm of the exact mean of the shares
  // weighted by transactions, whatever came in between, and the row holds all their transactions.
  lemma {:induction false} ShareTracksMean(xs: seq<Sample>)
    requires RowAfter(xs).Some?
    ensures var r := RowAfter(xs).value;
            r.tx == TxOf(xs) && CountOf(xs) >= 1 && Drifts(r.share * r.tx, WeightOf(xs), CountOf(xs), r.tx)
  {
    var rest, x := xs[..|xs| - 1], xs[|xs| - 1];
    if RowAfter(rest).Some? {
      ShareTracksMean(rest);
      if Recorded(x) {
        DriftStep(RowAfter(rest).value, x, WeightOf(rest), CountOf(rest));
      }
    } else {
      NothingRecorded(rest);
    }
  }

  lemma {:induction false} NothingRecorded(xs: seq<Sample>)
    requires RowAfter(xs).None?
    ensures TxOf(xs) == 0 && WeightOf(xs) == 0 && CountOf(xs) == 0
  {
    if xs != [] {
      NothingRecorded(xs[..|xs| - 1]);
    }
  }

  // A share stays between the least and the greatest share merged into it.
  lemma {:induction false} ShareInHull(xs: seq<Sample>, lo: int, hi: int)
    requires 0 <= lo <= hi && forall i | 0 <= i < |xs| && Recorded(xs[i]) :: lo <= Clamped(xs[i].share) <= hi
    ensures RowAfter(xs).Some? ==> lo <= RowAfter(xs).value.share <= hi
  {
    if xs != [] {
      var rest, x := xs[..|xs| - 1], xs[|xs| - 1];
      ShareInHull(rest, lo, hi);
      if RowAfter(rest).Some? && Recorded(x) {
        MergedWithin(RowAfter(rest).value, x, lo, hi);
      }
    }
  }

  lemma OneMore(xs: seq<Sample>, x: Sample, r: Row)
    requires RowAfter(xs) == Some(r) && Recorded(x)
    ensures RowAfter(xs + [x]) == Some(Merged(r, x))
  {
    assert (xs + [x])[..|xs|] == xs;
  }

  // The merge is not the exact mean: the same samples in another order can give another share.
  lemma OrderMatters(minute: int, name: string)
    requires name != ""
    ensures var a, b := Sample(minute, name, 0, 1, 1), Sample(minute, name, 1, 1, 1);
            RowAfter([a, b] + [a]) == Some(Row(1, 3, 3)) && RowAfter([a, a] + [b]) == Some(Row(0, 3, 3))
  {
    var a, b := Sample(minute, name, 0, 1, 1), Sample(minute, name, 1, 1, 1);
    assert [a][..0] == [] && [a] + [b] == [a, b] && [a] + [a] == [a, a];
    OneMore([a], b, Row(0, 1, 1));
    OneMore([a], a, Row(0, 1, 1));
    OneMore([a, b], a, Row(1, 2, 2));
    OneMore([a, a], b, Row(0, 2, 2));
  }

  // ------------------------------------------------------------------ the table

  function Space(c: char): bool {
    c == ' ' || 9 as char <= c <= 13 as char
  }

  function TrimLeft(s: string): string {
    if s != "" && Space(s[0]) then TrimLeft(s[1..]) else s
  }

  function TrimRight(s: string): string {
    if s != "" && Space(s[|s| - 1]) then TrimRight(s[..|s| - 1]) else s
  }

  function TrimSpace(s: string): string {
    TrimRight(TrimLeft(s))
  }

  // Only these six characters are cut off.
  lemma SpaceIff(c: char)
    ensures Space(c) <==> c in {' ', 9 as char, 10 as char, 11 as char, 12 as char, 13 as char}
  {
  }

  ghost predicate Blank(s: string) {
    forall i | 0 <= i < |s| :: Space(s[i])
  }

  lemma {:induction false} TrimLeftIs(s: string) returns (a: string)
    ensures s == a + TrimLeft(s) && Blank(a) && (TrimLeft(s) != "" ==> !Space(TrimLeft(s)[0]))
  {
    a := "";
    if s != "" && Space(s[0]) {
      var rest := TrimLeftIs(s[1..]);
      a := [s[0]] + rest;
    }
  }

  lemma {:induction false} TrimRightIs(s: string) returns (b: string)
    ensures s == TrimRight(s) + b && Blank(b) && (TrimRight(s) != "" ==> !Space(TrimRight(s)[|TrimRight(s)| - 1]))
  {
    b := "";
    if s != "" && Space(s[|s| - 1]) {
      var rest := TrimRightIs(s[..|s| - 1]);
      b := rest + [s[|s| - 1]];
      assert s == s[..|s| - 1] + [s[|s| - 1]];
    }
  }

  // Trimming cuts exactly the white space at both ends.
  lemma TrimIs(s: string) returns (a: string, b: string)
    ensures s == a + TrimSpace(s) + b && Blank(a) && Blank(b)
    ensures var r := TrimSpace(s); r != "" ==> !Space(r[0]) && !Space(r[|r| - 1])
  {
    a := TrimLeftIs(s);
    b := TrimRightIs(TrimLeft(s));
    var r := TrimSpace(s);
    assert r != "" ==> r[0] == TrimLeft(s)[0];
  }

  // The samples of one row among all samples.
  function Of(xs: seq<Sample>, key: (int, string)): seq<Sample> {
    if xs == [] then []
    else
      var rest, x := Of(xs[..|xs| - 1], key), xs[|xs| - 1];
      if (x.minute, x.name) == key then rest + [x] else rest
  }

  // They are exactly those of its minute and category, each as often as it was recorded.
  lemma {:induction false} OfCounts(xs: seq<Sample>, key: (int, string), x: Sample)
    ensures multiset(Of(xs, key))[x] == if x.minute == key.0 && x.name == key.1 then multiset(xs)[x] else 0
  {
    if xs != [] {
      var n := |xs| - 1;
      OfCounts(xs[..n], key, x);
      assert xs == xs[..n] + [xs[n]];
    }
  }

  // Every row of the table is what its own samples make it.
  ghost predicate Holds(table: Table, log: seq<Sample>) {
    forall key :: (if key in table then Some(table[key]) else None) == RowAfter(Of(log, key))
  }

  lemma HoldsNext(table: Table, log: seq<Sample>, x: Sample, next: Table)
    requires Holds(table, log)
    requires var key := (x.minute, x.name);
             && (forall k | k != key :: (k in table <==> k in next) && (k in table ==> table[k] == next[k]))
             && (if key in next then Some(next[key]) else None) == Upsert(RowAfter(Of(log, key)), x)
    ensures Holds(next, log + [x])
  {
    var key := (x.minute, x.name);
    assert (log + [x])[..|log|] == log;
    forall k ensures (if k in next then Some(next[k]) else None) == RowAfter(Of(log + [x], k)) {
      if k == key {
        assert Of(log + [x], k) == Of(log, k) + [x];
        assert (Of(log, k) + [x])[..|Of(log, k)|] == Of(log, k);
      } else {
        assert Of(log + [x], k) == Of(log, k);
      }
    }
  }

  // Every stored share is within (k - 1) / 2 ppm of the exact mean of the k samples recorded for
  // it, and its row holds all their transactions.
  lemma TableTracksMean(table: Table, log: seq<Sample>, key: (int, string))
    requires Holds(table, log) && key in table
    ensures var r, xs := table[key], Of(log, key);
            r.tx == TxOf(xs) && Drifts(r.share * r.tx, WeightOf(xs), CountOf(xs), r.tx) && 0 <= r.share <= PPM
  {
    assert RowAfter(Of(log, key)) == Some(table[key]);
    ShareTracksMean(Of(log, key));
  }

  // A delta to record: the shares of one block, by category.
  datatype Delta = Delta(venue: string, bucketStart: Option<nat>, tx: int, blk: int, shares: map<string, int>)

  datatype DeltaError = VenueRequired | BucketStartRequired

  // The delta has samples to record.
  predicate Recordable(delta: Delta) {
    delta.venue != "" && delta.bucketStart.Some? && delta.tx > 0 && delta.blk > 0
  }

  class Splits {
    var table: Table
    ghost var log: seq<Sample>

    ghost predicate Valid()
      reads this
    {
      Holds(table, log)
    }

    constructor ()
      ensures Valid() && log == [] && table == map[]
    {
      table, log := map[], [];
    }

    // The upsert of one category.
    method Record(x: Sample)
      requires Valid() && Recorded(x)
      modifies this
      ensures Valid() && log == old(log) + [x]
    {
      var key := (x.minute, x.name);
      assert (if key in table then Some(table[key]) else None) == RowAfter(Of(log, key));
      var row := if key in table then Merged(table[key], x) else Row(Clamped(x.share), x.tx, x.blk);
      HoldsNext(table, log, x, table[key := row]);
      table := table[key := row];
      log := log + [x];
    }

    // Records every category with a name and a non-negative share, in the order the map is walked.
    method RecordCategorySplitDelta1m(delta: Delta) returns (error: Option<DeltaError>)
      requires Valid()
      modifies this
      ensures Valid() && old(log) <= log
      ensures error == if delta.venue == "" then Some(VenueRequired) else if delta.bucketStart == None then Some(BucketStartRequired) else None
      ensures !Recordable(delta) ==> log == old(log) && table == old(table)
      ensures Recordable(delta) ==> |log| == |old(log)| + |KeptOf(delta, {})|
      ensures Recordable(delta) ==> AllFrom(delta, log[|old(log)|..]) && Logged(delta, {}, log[|old(log)|..])
    {
      error := None;
      if delta.venue == "" {
        return Some(VenueRequired);
      }
      if delta.bucketStart == None {
        return Some(BucketStartRequired);
      }
      if delta.tx <= 0 || delta.blk <= 0 {
        return;
      }
      var left := delta.shares.Keys;
      ghost var added: seq<Sample> := [];
      while left != {}
        invariant Valid() && left <= delta.shares.Keys && log == old(log) + added
        invariant AllFrom(delta, added) && Logged(delta, left, added) && |added| == |KeptOf(delta, left)|
      {
        var name := Choose(left);
        LoggedNext(delta, left, added, name);
        left := left - {name};
        var category, share := TrimSpace(name), delta.shares[name];
        if category != "" && share >= 0 {
          Record(Entry(delta, name));
          added := added + [Entry(delta, name)];
        }
      }
    }
  }

  // The category is one the store records.
  predicate Kept(delta: Delta, name: string) {
    name in delta.shares && TrimSpace(name) != "" && delta.shares[name] >= 0
  }

  function KeptOf(delta: Delta, left: set<string>): set<string> {
    set name | name in delta.shares && name !in left && Kept(delta, name)
  }

  // Every category to record but those left has its sample.
  ghost predicate Logged(delta: Delta, left: set<string>, added: seq<Sample>)
    requires delta.bucketStart.Some?
  {
    forall name | Kept(delta, name) && name !in left :: Entry(delta, name) in added
  }

  ghost predicate AllFrom(delta: Delta, added: seq<Sample>)
    requires delta.bucketStart.Some?
  {
    forall i | 0 <= i < |added| :: FromDelta(added[i], delta)
  }

  lemma LoggedNext(delta: Delta, left: set<string>, added: seq<Sample>, name: string)
    requires name in left && left <= delta.shares.Keys && Recordable(delta)
    requires Logged(delta, left, added) && AllFrom(delta, added)
    ensures if Kept(delta, name) then Logged(delta, left - {name}, added + [Entry(delta, name)]) && AllFrom(delta, added + [Entry(delta, name)])
            else Logged(delta, left - {name}, added)
    ensures |KeptOf(delta, left - {name})| == |KeptOf(delta, left)| + if Kept(delta, name) then 1 else 0
  {
    assert KeptOf(delta, left - {name}) == KeptOf(delta, left) + if Kept(delta, name) then {name} else {};
    if Kept(delta, name) {
      assert FromDelta(Entry(delta, name), delta);
    }
  }

  function Entry(delta: Delta, name: string): Sample
    requires name in delta.shares && delta.bucketStart.Some?
  {
    Sample(delta.bucketStart.value / 60 * 60, TrimSpace(name), delta.shares[name], delta.tx, delta.blk)
  }

  // A category's sample stands at the whole minute of its bucket, under the trimmed name, with the
  // share told and the sizes of the sampled part; it is recorded unless its name is blank or its
  // share negative.
  lemma EntryIs(delta: Delta, name: string)
    requires name in delta.shares && delta.bucketStart.Some?
    ensures var x, at := Entry(delta, name), delta.bucketStart.value;
            && x.minute % 60 == 0 && x.minute <= at < x.minute + 60 && x.name == TrimSpace(name)
            && x.share == delta.shares[name] && x.tx == delta.tx && x.blk == delta.blk
    ensures Kept(delta, name) <==> !Blank(name) && !(delta.shares[name] < 0)
  {
    var a, b := TrimIs(name);
    if TrimSpace(name) == "" {
      assert name == a + b;
    } else {
      assert name[|a|] == TrimSpace(name)[0];
    }
  }

  ghost predicate FromDelta(x: Sample, delta: Delta)
    requires delta.bucketStart.Some?
  {
    Recorded(x) && exists name :: name in delta.shares && x == Entry(delta, name)
  }

  // ------------------------------------------------------------------ one block's shares

  datatype Action = EvmRawTx | Order | Cancel | CancelByCloid | ScheduleCancel | Modify | BatchModify | UpdateLeverage | Other

  datatype Category = CoreOrder | CoreCancel | CoreModify | Evm | CoreOther

  function CategoryOf(a: Action): Category {
    match a
    case EvmRawTx => Evm
    case Order => CoreOrder
    case Cancel | CancelByCloid | ScheduleCancel => CoreCancel
    case Modify | BatchModify | UpdateLeverage => CoreModify
    case Other => CoreOther
  }

  lemma Categories(a: Action)
    ensures CategoryOf(a) == CoreOrder <==> a == Order
    ensures CategoryOf(a) == CoreCancel <==> a in {Cancel, CancelByCloid, ScheduleCancel}
    ensures CategoryOf(a) == CoreModify <==> a in {Modify, BatchModify, UpdateLeverage}
    ensures CategoryOf(a) == Evm <==> a == EvmRawTx
    ensures CategoryOf(a) == CoreOther <==> a == Other
  {
  }

  function Counts(txs: seq<Action>, c: Category): nat {
    if txs == [] then 0 else Counts(txs[..|txs| - 1], c) + if CategoryOf(txs[|txs| - 1]) == c then 1 else 0
  }

  lemma CountsGrow(txs: seq<Action>, a: Action, c: Category)
    ensures Counts(txs + [a], c) == Counts(txs, c) + (if CategoryOf(a) == c then 1 else 0) && Counts([], c) == 0
  {
    assert (txs + [a])[..|txs|] == txs;
  }

  lemma {:induction false} CountsSum(txs: seq<Action>)
    ensures Counts(txs, CoreOrder) + Counts(txs, CoreCancel) + Counts(txs, CoreModify) + Counts(txs, Evm) + Counts(txs, CoreOther) == |txs|
  {
    if txs != [] {
      CountsSum(txs[..|txs| - 1]);
    }
  }

  function FlooredShare(count: nat, sampled: int): int {
    if sampled > 0 then count * PPM / sampled else 0
  }

  predicate Complete(s: map<Category, int>) {
    CoreOrder in s && CoreCancel in s && CoreModify in s && Evm in s && CoreOther in s
  }

  function Total(s: map<Category, int>): int
    requires Complete(s)
  {
    s[CoreOrder] + s[CoreCancel] + s[CoreModify] + s[Evm] + s[CoreOther]
  }

  lemma FloorNear(count: nat, n: int)
    requires n > 0
    ensures count * PPM - n < FlooredShare(count, n) * n <= count * PPM
  {
    var p := count * PPM;
    assert p == p / n * n + p % n;
  }

  // The five shares of a block add up to the counted transactions' part of a million for every
  // sampled one, less fewer than five floors.
  lemma FiveFloors(a: nat, b: nat, c: nat, d: nat, e: nat, n: int)
    requires n > 0
    ensures var total := FlooredShare(a, n) + FlooredShare(b, n) + FlooredShare(c, n) + FlooredShare(d, n) + FlooredShare(e, n);
            (a + b + c + d + e) * PPM - 5 * n < total * n <= (a + b + c + d + e) * PPM
  {
    FloorNear(a, n);
    FloorNear(b, n);
    FloorNear(c, n);
    FloorNear(d, n);
    FloorNear(e, n);
    var fa, fb, fc, fd, fe := FlooredShare(a, n), FlooredShare(b, n), FlooredShare(c, n), FlooredShare(d, n), FlooredShare(e, n);
    assert (fa + fb + fc + fd + fe) * n == fa * n + fb * n + fc * n + fd * n + fe * n;
  }

  lemma FactorBetween(total: int, n: int)
    requires n > 0 && n * PPM - 5 * n < total * n <= n * PPM
    ensures 999_996 <= total <= PPM
  {
    if total <= 999_995 {
      MulMono(total, 999_995, n);
    }
    if total > PPM {
      MulMono(PPM + 1, total, n);
    }
  }

  ghost predicate CountedAs(counts: map<Category, nat>, txs: seq<Action>) {
    forall c: Category :: (if c in counts then counts[c] else 0) == Counts(txs, c)
  }

  method CountCategories(txs: seq<Action>) returns (counts: map<Category, nat>)
    ensures CountedAs(counts, txs)
  {
    counts := map[];
    var i := 0;
    while i < |txs|
      invariant 0 <= i <= |txs| && CountedAs(counts, txs[..i])
    {
      assert txs[..i + 1][..i] == txs[..i];
      var c := CategoryOf(txs[i]);
      counts := counts[c := (if c in counts then counts[c] else 0) + 1];
      i := i + 1;
    }
    assert txs[..|txs|] == txs;
  }

  method FloorShares(counts: map<Category, nat>, sampled: int) returns (shares: map<Category, int>)
    ensures Complete(shares)
    ensures forall c | c in shares :: shares[c] == FlooredShare(if c in counts then counts[c] else 0, sampled)
  {
    shares := map[CoreOrder := 0, CoreCancel := 0, CoreModify := 0, Evm := 0, CoreOther := 0];
    if sampled > 0 {
      assert 0 * PPM / sampled == 0;
      var left := counts.Keys;
      while left != {}
        invariant left <= counts.Keys && Complete(shares)
        invariant forall c | c in shares :: shares[c] == if c in counts && c !in left then FlooredShare(counts[c], sampled) else 0
      {
        var c := Choose(left);
        left := left - {c};
        shares := shares[c := counts[c] * PPM / sampled];
      }
    }
  }

  // The category shares of a sampled block.  numTxs is what the explorer says, zero if nothing.
  // When the counts add up to it, the five shares add up to a million less at most four.
  method SampleShares(txs: seq<Action>, numTxs: int) returns (sampled: int, shares: map<Category, int>)
    ensures sampled == if numTxs == 0 then |txs| else numTxs
    ensures Complete(shares) && forall c | c in shares :: shares[c] == FlooredShare(Counts(txs, c), sampled)
    ensures sampled == |txs| > 0 ==> 999_996 <= Total(shares) <= PPM
    ensures sampled > 0 ==> |txs| * PPM - 5 * sampled < Total(shares) * sampled <= |txs| * PPM
  {
    var counts := CountCategories(txs);
    sampled := if numTxs == 0 then |txs| else numTxs;
    shares := FloorShares(counts, sampled);
    if sampled > 0 {
      CountsSum(txs);
      FiveFloors(Counts(txs, CoreOrder), Counts(txs, CoreCancel), Counts(txs, CoreModify), Counts(txs, Evm), Counts(txs, CoreOther), sampled);
      if sampled == |txs| {
        FactorBetween(Total(shares), sampled);
      }
    }
  }

  // ------------------------------------------------------------------ hour rows

  function SumTx(rows: seq<Row>): int {
    if rows == [] then 0 else SumTx(rows[..|rows| - 1]) + rows[|rows| - 1].tx
  }

  function SumWeight(rows: seq<Row>): int {
    if rows == [] then 0 else SumWeight(rows[..|rows| - 1]) + rows[|rows| - 1].share * rows[|rows| - 1].tx
  }

  // Every minute row counts once, with its transactions and its share of them.
  lemma HourSumsGrow(rows: seq<Row>, r: Row)
    ensures SumTx(rows + [r]) == SumTx(rows) + r.tx && SumWeight(rows + [r]) == SumWeight(rows) + r.share * r.tx
    ensures SumTx([]) == 0 && SumWeight([]) == 0
  {
    assert (rows + [r])[..|rows|] == rows;
  }

  lemma {:induction false} WeightBetween(rows: seq<Row>, lo: int, hi: int)
    requires 0 <= lo <= hi && forall i | 0 <= i < |rows| :: rows[i].tx > 0 && lo <= rows[i].share <= hi
    ensures SumTx(rows) >= |rows| && lo * SumTx(rows) <= SumWeight(rows) <= hi * SumTx(rows) && SumWeight(rows) >= 0
  {
    if rows != [] {
      var rest, r := rows[..|rows| - 1], rows[|rows| - 1];
      WeightBetween(rest, lo, hi);
      MulMono(lo, r.share, r.tx);
      MulMono(r.share, hi, r.tx);
      MulMono(0, r.share, r.tx);
      Distributes(lo, SumTx(rest), r.tx);
      Distributes(hi, SumTx(rest), r.tx);
    }
  }

  // The hour's share of a category is the mean of its minute shares weighted by transactions,
  // rounded: within half a ppm of that mean, and between the least and the greatest of them.
  function HourShare(rows: seq<Row>): (share: int)
    requires rows != [] && forall i | 0 <= i < |rows| :: rows[i].tx > 0 && 0 <= rows[i].share <= PPM
    ensures 2 * SumWeight(rows) - SumTx(rows) < 2 * (share * SumTx(rows)) <= 2 * SumWeight(rows) + SumTx(rows)
    ensures 0 <= share <= PPM
  {
    WeightBetween(rows, 0, PPM);
    RoundedNear(SumWeight(rows), SumTx(rows));
    RoundedWithin(SumWeight(rows), SumTx(rows), 0, PPM);
    Rounded(SumWeight(rows), SumTx(rows))
  }

  lemma HourShareInHull(rows: seq<Row>, lo: int, hi: int)
    requires rows != [] && 0 <= lo <= hi <= PPM && forall i | 0 <= i < |rows| :: rows[i].tx > 0 && lo <= rows[i].share <= hi
    ensures lo <= HourShare(rows) <= hi
  {
    WeightBetween(rows, lo, hi);
    RoundedWithin(SumWeight(rows), SumTx(rows), lo, hi);
  }
}
