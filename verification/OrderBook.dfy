// The incremental order books of internal/booktop/booktop.go: two parsers keep a 15-level
// trimmed book per side under replacing and incremental messages.  The trimmed book is related
// here to the untrimmed book that the same messages describe.
module OrderBook {
  import opened Common

  datatype Side = Bids | Asks

  datatype Level = Level(price: real, size: real)

  type Book = map<real, real>

  const MAX_SNAPSHOT_LEVELS: nat := 15

  // p stands before q on its side of the book.
  predicate Better(side: Side, p: real, q: real) {
    if side.Bids? then p > q else p < q
  }

  predicate Positive(book: Book) {
    forall p | p in book :: p > 0.0 && book[p] > 0.0
  }

  // One decoded level object: the numbers found under the price, size and current-size keys, in
  // the order in which the keys are tried; a value that is no number decodes to zero.
  datatype LevelMsg = LevelMsg(price: seq<real>, size: seq<real>, current: seq<real>)

  function FirstNumber(values: seq<real>): (r: real)
    ensures r >= 0.0
    ensures r == 0.0 <==> forall i | 0 <= i < |values| :: values[i] <= 0.0
    ensures r > 0.0 ==> exists i :: 0 <= i < |values| && values[i] == r && forall j | 0 <= j < i :: values[j] <= 0.0
  {
    if values == [] then 0.0
    else if values[0] > 0.0 then values[0]
    else
      var r := FirstNumber(values[1..]);
      assert forall i | 1 <= i < |values| :: values[i] == values[1..][i - 1];
      assert r > 0.0 ==>
               var n :| 0 <= n < |values| - 1 && values[1..][n] == r && forall j | 0 <= j < n :: values[1..][j] <= 0.0;
               values[n + 1] == r && forall j | 0 <= j < n + 1 :: values[j] <= 0.0;
      r
  }

  function MsgPrice(level: LevelMsg): real {
    FirstNumber(level.price)
  }

  function MsgSize(level: LevelMsg, delta: bool): real {
    if delta && level.current != [] then FirstNumber(level.current) else FirstNumber(level.size)
  }

  function ApplyLevel(book: Book, level: LevelMsg, delta: bool): Book {
    var price := MsgPrice(level);
    if price <= 0.0 then book
    else if MsgSize(level, delta) <= 0.0 then book - {price}
    else book[price := MsgSize(level, delta)]
  }

  function ApplyLevels(book: Book, levels: seq<LevelMsg>, delta: bool): Book {
    if levels == [] then book
    else ApplyLevel(ApplyLevels(book, levels[..|levels| - 1], delta), levels[|levels| - 1], delta)
  }

  // The message names price p: one of its levels carries it.
  predicate Names(levels: seq<LevelMsg>, p: real) {
    exists i | 0 <= i < |levels| :: MsgPrice(levels[i]) == p
  }

  // i is the last level of the message that names price p.
  predicate LastNaming(levels: seq<LevelMsg>, p: real, i: int) {
    && 0 <= i < |levels|
    && MsgPrice(levels[i]) == p
    && forall j | i < j < |levels| :: MsgPrice(levels[j]) != p
  }

  lemma LevelDecides(book: Book, level: LevelMsg, delta: bool, p: real)
    requires MsgPrice(level) == p > 0.0
    ensures p in ApplyLevel(book, level, delta) <==> MsgSize(level, delta) > 0.0
    ensures p in ApplyLevel(book, level, delta) ==> ApplyLevel(book, level, delta)[p] == MsgSize(level, delta)
  {
  }

  lemma LevelKeeps(book: Book, level: LevelMsg, delta: bool, p: real)
    requires MsgPrice(level) != p
    ensures p in ApplyLevel(book, level, delta) <==> p in book
    ensures p in book ==> ApplyLevel(book, level, delta)[p] == book[p]
  {
  }

  // A message leaves the prices it does not name as they were.
  lemma {:induction false} UnnamedIsKept(book: Book, levels: seq<LevelMsg>, delta: bool, p: real)
    requires !Names(levels, p)
    ensures p in ApplyLevels(book, levels, delta) <==> p in book
    ensures p in book ==> ApplyLevels(book, levels, delta)[p] == book[p]
  {
    if levels != [] {
      var n := |levels| - 1;
      LevelKeeps(ApplyLevels(book, levels[..n], delta), levels[n], delta, p);
      assert forall i | 0 <= i < n :: levels[..n][i] == levels[i];
      UnnamedIsKept(book, levels[..n], delta, p);
    }
  }

  // For a named price the last level that names it decides: its size, or absence when not positive.
  lemma {:induction false} LastNamingDecides(book: Book, levels: seq<LevelMsg>, delta: bool, p: real, i: int)
    requires p > 0.0 && LastNaming(levels, p, i)
    ensures p in ApplyLevels(book, levels, delta) <==> MsgSize(levels[i], delta) > 0.0
    ensures p in ApplyLevels(book, levels, delta) ==> ApplyLevels(book, levels, delta)[p] == MsgSize(levels[i], delta)
  {
    var n := |levels| - 1;
    if i < n {
      LevelKeeps(ApplyLevels(book, levels[..n], delta), levels[n], delta, p);
      assert forall j | 0 <= j < n :: levels[..n][j] == levels[j];
      LastNamingDecides(book, levels[..n], delta, p, i);
    } else {
      LevelDecides(ApplyLevels(book, levels[..n], delta), levels[n], delta, p);
    }
  }

  // The j-th number is the first positive one.
  predicate FirstPositive(values: seq<real>, j: int) {
    0 <= j < |values| && values[j] > 0.0 && forall k | 0 <= k < j :: values[k] <= 0.0
  }

  // The level carries price p: the first positive number under its price keys.
  ghost predicate Carries(level: LevelMsg, p: real) {
    exists j :: FirstPositive(level.price, j) && level.price[j] == p
  }

  // The last level of the message that carries price p.
  ghost predicate LastCarrying(levels: seq<LevelMsg>, p: real, i: int) {
    0 <= i < |levels| && Carries(levels[i], p) && forall j | i < j < |levels| :: !Carries(levels[j], p)
  }

  // The book has at p the first positive of the numbers, or lacks p when none is positive.
  ghost predicate SetTo(book: Book, p: real, numbers: seq<real>) {
    && (forall j | FirstPositive(numbers, j) :: p in book && book[p] == numbers[j])
    && ((forall j | 0 <= j < |numbers| :: numbers[j] <= 0.0) ==> p !in book)
  }

  lemma FirstPositiveUnique(values: seq<real>, j: int)
    requires FirstPositive(values, j)
    ensures FirstNumber(values) == values[j]
  {
  }

  lemma CarriesIff(level: LevelMsg, p: real)
    requires p > 0.0
    ensures Carries(level, p) <==> MsgPrice(level) == p
  {
    if j :| FirstPositive(level.price, j) && level.price[j] == p {
      FirstPositiveUnique(level.price, j);
    }
    if MsgPrice(level) == p {
      var i :| 0 <= i < |level.price| && level.price[i] == p && forall j | 0 <= j < i :: level.price[j] <= 0.0;
      assert FirstPositive(level.price, i);
    }
  }

  lemma SizeSets(book: Book, p: real, size: real, numbers: seq<real>)
    requires size == FirstNumber(numbers) && (p in book <==> size > 0.0) && (p in book ==> book[p] == size)
    ensures SetTo(book, p, numbers)
  {
    forall j | FirstPositive(numbers, j) ensures p in book && book[p] == numbers[j] {
      FirstPositiveUnique(numbers, j);
    }
  }

  // What one message does to a price, from the numbers of its levels alone.  The last level that
  // carries the price sets it: in a delta with current numbers to the first positive of those,
  // whatever its size numbers are, and otherwise to the first positive of its size numbers; where
  // none is positive the price is deleted.
  lemma MessageSets(book: Book, levels: seq<LevelMsg>, delta: bool, p: real, i: int)
    requires LastCarrying(levels, p, i)
    ensures delta && levels[i].current != [] ==> SetTo(ApplyLevels(book, levels, delta), p, levels[i].current)
    ensures !delta || levels[i].current == [] ==> SetTo(ApplyLevels(book, levels, delta), p, levels[i].size)
  {
    forall j | i <= j < |levels| ensures Carries(levels[j], p) <==> MsgPrice(levels[j]) == p {
      CarriesIff(levels[j], p);
    }
    LastNamingDecides(book, levels, delta, p, i);
    var size := MsgSize(levels[i], delta);
    if delta && levels[i].current != [] {
      SizeSets(ApplyLevels(book, levels, delta), p, size, levels[i].current);
    } else {
      SizeSets(ApplyLevels(book, levels, delta), p, size, levels[i].size);
    }
  }

  // A price that no level carries is left as it was.
  lemma MessageKeeps(book: Book, levels: seq<LevelMsg>, delta: bool, p: real)
    requires p > 0.0 && forall i | 0 <= i < |levels| :: !Carries(levels[i], p)
    ensures p in ApplyLevels(book, levels, delta) <==> p in book
    ensures p in book ==> ApplyLevels(book, levels, delta)[p] == book[p]
  {
    forall i | 0 <= i < |levels| ensures MsgPrice(levels[i]) != p {
      CarriesIff(levels[i], p);
    }
    UnnamedIsKept(book, levels, delta, p);
  }

  lemma {:induction false} LastNamingExists(levels: seq<LevelMsg>, p: real) returns (i: int)
    requires Names(levels, p)
    ensures LastNaming(levels, p, i)
  {
    i := |levels| - 1;
    while MsgPrice(levels[i]) != p
      invariant 0 <= i < |levels|
      invariant forall j | i < j < |levels| :: MsgPrice(levels[j]) != p
      decreases i
    {
      i := i - 1;
      if i < 0 {
        assert false;
      }
    }
  }

  lemma {:induction false} ApplyLevelsPositive(book: Book, levels: seq<LevelMsg>, delta: bool)
    requires Positive(book)
    ensures Positive(ApplyLevels(book, levels, delta))
  {
    if levels != [] {
      ApplyLevelsPositive(book, levels[..|levels| - 1], delta);
    }
  }

  // ------------------------------------------------------------------ ranks, trimming, sorting

  ghost function BetterThan(book: Book, side: Side, p: real): set<real> {
    set q | q in book && Better(side, q, p)
  }

  // How many prices of the book stand before p.
  ghost function Rank(book: Book, side: Side, p: real): nat {
    |BetterThan(book, side, p)|
  }

  // The book that keeps exactly its `max` best prices.
  ghost function Kept(book: Book, side: Side, max: nat): Book {
    map p | p in book && Rank(book, side, p) < max :: book[p]
  }

  // The levels of a book in the order of its side; for one book there is exactly one such sequence.
  ghost predicate SortedLevels(ls: seq<Level>, book: Book, side: Side) {
    && (forall i | 0 <= i < |ls| :: ls[i].price in book && book[ls[i].price] == ls[i].size)
    && Ordered(ls, side)
    && (forall p | p in book :: exists i :: 0 <= i < |ls| && ls[i].price == p)
  }

  ghost function Prices(ls: seq<Level>): set<real> {
    if ls == [] then {} else Prices(ls[..|ls| - 1]) + {ls[|ls| - 1].price}
  }

  lemma {:induction false} PriceAt(ls: seq<Level>, i: nat)
    requires i < |ls|
    ensures ls[i].price in Prices(ls)
  {
    if i < |ls| - 1 {
      PriceAt(ls[..|ls| - 1], i);
    }
  }

  lemma {:induction false} PriceIndex(ls: seq<Level>, p: real) returns (i: nat)
    requires p in Prices(ls)
    ensures i < |ls| && ls[i].price == p
  {
    if p == ls[|ls| - 1].price {
      i := |ls| - 1;
    } else {
      i := PriceIndex(ls[..|ls| - 1], p);
    }
  }

  ghost predicate Ordered(ls: seq<Level>, side: Side) {
    forall i, j | 0 <= i < j < |ls| :: Better(side, ls[i].price, ls[j].price)
  }

  // Bids fall and asks rise.
  lemma OrderedIff(ls: seq<Level>)
    ensures Ordered(ls, Bids) <==> forall i, j | 0 <= i < j < |ls| :: ls[i].price > ls[j].price
    ensures Ordered(ls, Asks) <==> forall i, j | 0 <= i < j < |ls| :: ls[i].price < ls[j].price
  {
  }

  lemma {:induction false} PricesCount(ls: seq<Level>, side: Side)
    requires Ordered(ls, side)
    ensures |Prices(ls)| == |ls|
  {
    if ls != [] {
      var n := |ls| - 1;
      PricesCount(ls[..n], side);
      forall i | 0 <= i < n ensures ls[i].price != ls[n].price {
        assert Better(side, ls[i].price, ls[n].price);
      }
      if ls[n].price in Prices(ls[..n]) {
        var i := PriceIndex(ls[..n], ls[n].price);
      }
    }
  }

  // The place of a level in the sorted sequence is the rank of its price.
  lemma RankIsIndex(ls: seq<Level>, book: Book, side: Side, i: nat)
    requires SortedLevels(ls, book, side) && i < |ls|
    ensures Rank(book, side, ls[i].price) == i
  {
    var head := ls[..i];
    PricesCount(head, side);
    forall j | i < j < |ls| ensures !Better(side, ls[j].price, ls[i].price) {
      assert Better(side, ls[i].price, ls[j].price);
    }
    forall q | q in BetterThan(book, side, ls[i].price) ensures q in Prices(head) {
      var j :| 0 <= j < |ls| && ls[j].price == q;
      PriceAt(head, j);
    }
    forall q | q in Prices(head) ensures q in BetterThan(book, side, ls[i].price) {
      var j := PriceIndex(head, q);
      assert Better(side, ls[j].price, ls[i].price);
    }
    assert BetterThan(book, side, ls[i].price) == Prices(head);
  }

  lemma SortedLevelsSize(ls: seq<Level>, book: Book, side: Side)
    requires SortedLevels(ls, book, side)
    ensures |ls| == |book|
  {
    PricesCount(ls, side);
    forall p | p in Prices(ls) ensures p in book {
      var i := PriceIndex(ls, p);
    }
    forall p | p in book ensures p in Prices(ls) {
      var i :| 0 <= i < |ls| && ls[i].price == p;
      PriceAt(ls, i);
    }
    assert Prices(ls) == book.Keys;
  }

  function Head<T>(s: seq<T>, max: nat): seq<T> {
    if |s| <= max then s else s[..max]
  }

  // Keeping the ranks below max is dropping the tail of the sorted sequence.
  lemma KeptIsPrefix(ls: seq<Level>, book: Book, side: Side, max: nat)
    requires SortedLevels(ls, book, side)
    ensures SortedLevels(Head(ls, max), Kept(book, side, max), side)
  {
    var kept := Kept(book, side, max);
    var top := Head(ls, max);
    forall i | 0 <= i < |top| ensures top[i].price in kept {
      RankIsIndex(ls, book, side, i);
    }
    forall p | p in kept ensures exists i :: 0 <= i < |top| && top[i].price == p {
      var i :| 0 <= i < |ls| && ls[i].price == p;
      RankIsIndex(ls, book, side, i);
      assert top[i].price == p;
    }
  }

  lemma KeptAll(ls: seq<Level>, book: Book, side: Side, max: nat)
    requires SortedLevels(ls, book, side) && |book| <= max
    ensures Kept(book, side, max) == book
  {
    SortedLevelsSize(ls, book, side);
    forall p | p in book ensures Rank(book, side, p) < max {
      var i :| 0 <= i < |ls| && ls[i].price == p;
      RankIsIndex(ls, book, side, i);
    }
  }

  lemma KeptSize(ls: seq<Level>, book: Book, side: Side, max: nat)
    requires SortedLevels(ls, book, side)
    ensures |Kept(book, side, max)| == if |book| <= max then |book| else max
  {
    KeptIsPrefix(ls, book, side, max);
    SortedLevelsSize(ls, book, side);
    SortedLevelsSize(Head(ls, max), Kept(book, side, max), side);
  }

  lemma {:induction false} SortedLevelsExist(book: Book, side: Side) returns (ls: seq<Level>)
    ensures SortedLevels(ls, book, side)
    decreases |book|
  {
    if book == map[] {
      ls := [];
    } else {
      var p := Member(book.Keys);
      var rest := SortedLevelsExist(book - {p}, side);
      var k := 0;
      while k < |rest| && Better(side, rest[k].price, p)
        invariant 0 <= k <= |rest|
        invariant forall i | 0 <= i < k :: Better(side, rest[i].price, p)
      {
        k := k + 1;
      }
      InsertSorted(rest, book, side, p, k);
      ls := rest[..k] + [Level(p, book[p])] + rest[k..];
    }
  }

  lemma InsertSorted(rest: seq<Level>, book: Book, side: Side, p: real, k: nat)
    requires p in book && SortedLevels(rest, book - {p}, side) && k <= |rest|
    requires forall i | 0 <= i < k :: Better(side, rest[i].price, p)
    requires k < |rest| ==> !Better(side, rest[k].price, p)
    ensures SortedLevels(rest[..k] + [Level(p, book[p])] + rest[k..], book, side)
  {
    var ls := rest[..k] + [Level(p, book[p])] + rest[k..];
    InsertOrdered(rest, side, Level(p, book[p]), k);
    forall q | q in book ensures exists i :: 0 <= i < |ls| && ls[i].price == q {
      InsertFound(rest, book, side, p, k, q);
    }
    forall i | 0 <= i < |ls| ensures ls[i].price in book && book[ls[i].price] == ls[i].size {
      InsertHeld(rest, book, side, p, k, i);
    }
  }

  lemma InsertHeld(rest: seq<Level>, book: Book, side: Side, p: real, k: nat, i: nat)
    requires p in book && SortedLevels(rest, book - {p}, side) && k <= |rest| && i <= |rest|
    ensures var ls := rest[..k] + [Level(p, book[p])] + rest[k..]; ls[i].price in book && book[ls[i].price] == ls[i].size
  {
    var ls := rest[..k] + [Level(p, book[p])] + rest[k..];
    assert ls[i] == if i < k then rest[i] else if i == k then Level(p, book[p]) else rest[i - 1];
  }

  lemma InsertFound(rest: seq<Level>, book: Book, side: Side, p: real, k: nat, q: real)
    requires p in book && q in book && SortedLevels(rest, book - {p}, side) && k <= |rest|
    ensures var ls := rest[..k] + [Level(p, book[p])] + rest[k..]; exists i :: 0 <= i < |ls| && ls[i].price == q
  {
    var ls := rest[..k] + [Level(p, book[p])] + rest[k..];
    if q == p {
      assert ls[k].price == q;
    } else {
      assert q in book - {p};
      var i :| 0 <= i < |rest| && rest[i].price == q;
      assert ls[if i < k then i else i + 1].price == q;
    }
  }

  lemma InsertOrdered(rest: seq<Level>, side: Side, l: Level, k: nat)
    requires Ordered(rest, side) && k <= |rest|
    requires forall i | 0 <= i < |rest| :: rest[i].price != l.price
    requires forall i | 0 <= i < k :: Better(side, rest[i].price, l.price)
    requires k < |rest| ==> !Better(side, rest[k].price, l.price)
    ensures Ordered(rest[..k] + [l] + rest[k..], side)
  {
    forall i | k <= i < |rest| ensures Better(side, l.price, rest[i].price) {
      assert k < i ==> Better(side, rest[k].price, rest[i].price);
    }
    var ls := rest[..k] + [l] + rest[k..];
    forall i, j | 0 <= i < j < |ls| ensures Better(side, ls[i].price, ls[j].price) {
      assert ls[i] == if i < k then rest[i] else if i == k then l else rest[i - 1];
      assert ls[j] == if j < k then rest[j] else if j == k then l else rest[j - 1];
    }
  }

  lemma SortedLevelsUnique(a: seq<Level>, b: seq<Level>, book: Book, side: Side)
    requires SortedLevels(a, book, side) && SortedLevels(b, book, side)
    ensures a == b
  {
    SortedLevelsSize(a, book, side);
    SortedLevelsSize(b, book, side);
    forall i | 0 <= i < |a| ensures a[i] == b[i] {
      var j :| 0 <= j < |b| && b[j].price == a[i].price;
      RankIsIndex(a, book, side, i);
      RankIsIndex(b, book, side, j);
    }
  }

  // ------------------------------------------------------------------ trimmed against untrimmed

  // One message as one side of the book sees it.
  datatype SideUpdate = SideUpdate(replace: bool, delta: bool, levels: seq<LevelMsg>)

  // kept is the parser's map; full is the same map had nothing been trimmed; trimmed holds every
  // price cut off since the last replacing message, and lost those of them not named since.
  datatype SideState = SideState(kept: Book, full: Book, trimmed: set<real>, lost: set<real>)

  const EMPTY_SIDE := SideState(map[], map[], {}, {})

  ghost function UpdateSide(s: SideState, side: Side, u: SideUpdate): SideState {
    var base := if u.replace then EMPTY_SIDE else s;
    var applied := ApplyLevels(base.kept, u.levels, u.delta);
    var kept := Kept(applied, side, MAX_SNAPSHOT_LEVELS);
    var cut := applied.Keys - kept.Keys;
    SideState(kept, ApplyLevels(base.full, u.levels, u.delta), base.trimmed + cut,
              (set p | p in base.lost && !Names(u.levels, p)) + cut)
  }

  ghost function RunSide(side: Side, updates: seq<SideUpdate>): SideState {
    if updates == [] then EMPTY_SIDE
    else UpdateSide(RunSide(side, updates[..|updates| - 1]), side, updates[|updates| - 1])
  }

  ghost predicate SubBook(kept: Book, full: Book) {
    forall p | p in kept :: p in full && full[p] == kept[p]
  }

  // The kept book is part of the full one, and exactly the lost prices are missing from it.
  ghost predicate Tracks(s: SideState) {
    && Positive(s.full)
    && SubBook(s.kept, s.full)
    && s.full.Keys - s.kept.Keys == s.lost
    && s.lost <= s.trimmed
  }

  lemma {:induction false} ApplyAgrees(kept: Book, full: Book, levels: seq<LevelMsg>, delta: bool, p: real)
    requires Positive(full) && SubBook(kept, full)
    ensures p in ApplyLevels(kept, levels, delta) ==>
              p in ApplyLevels(full, levels, delta)
              && ApplyLevels(full, levels, delta)[p] == ApplyLevels(kept, levels, delta)[p]
    ensures p in ApplyLevels(full, levels, delta) && p !in ApplyLevels(kept, levels, delta) <==>
              p in full && p !in kept && !Names(levels, p)
  {
    ApplyLevelsPositive(full, levels, delta);
    ApplyLevelsPositive(kept, levels, delta);
    if !Names(levels, p) {
      UnnamedIsKept(kept, levels, delta, p);
      UnnamedIsKept(full, levels, delta, p);
    } else if p > 0.0 {
      var i := LastNamingExists(levels, p);
      LastNamingDecides(kept, levels, delta, p, i);
      LastNamingDecides(full, levels, delta, p, i);
    }
  }

  lemma UpdateTracks(s: SideState, side: Side, u: SideUpdate)
    requires Tracks(s)
    ensures Tracks(UpdateSide(s, side, u))
  {
    var base := if u.replace then EMPTY_SIDE else s;
    var t := UpdateSide(s, side, u);
    var applied := ApplyLevels(base.kept, u.levels, u.delta);
    ApplyLevelsPositive(base.full, u.levels, u.delta);
    forall p ensures p in applied ==> p in t.full && t.full[p] == applied[p]
             ensures p in t.full && p !in applied <==> p in base.lost && !Names(u.levels, p)
    {
      ApplyAgrees(base.kept, base.full, u.levels, u.delta, p);
    }
    assert t.full.Keys - t.kept.Keys == t.lost;
  }

  // After every message sequence: the trimmed book is a part of the untrimmed book, and a price
  // of the untrimmed book is missing from it exactly when it was trimmed and not named since.
  lemma {:induction false} TrimmedTracksFull(side: Side, updates: seq<SideUpdate>)
    ensures Tracks(RunSide(side, updates))
  {
    if updates != [] {
      TrimmedTracksFull(side, updates[..|updates| - 1]);
      UpdateTracks(RunSide(side, updates[..|updates| - 1]), side, updates[|updates| - 1]);
    }
  }

  lemma KeptBounded(side: Side, updates: seq<SideUpdate>)
    ensures |RunSide(side, updates).kept| <= 15
  {
    if updates != [] {
      var u := updates[|updates| - 1];
      var s := RunSide(side, updates[..|updates| - 1]);
      var applied := ApplyLevels((if u.replace then EMPTY_SIDE else s).kept, u.levels, u.delta);
      var ls := SortedLevelsExist(applied, side);
      KeptSize(ls, applied, side, MAX_SNAPSHOT_LEVELS);
    }
  }

  ghost predicate CarriesAny(u: SideUpdate, p: real) {
    exists i | 0 <= i < |u.levels| :: Carries(u.levels[i], p)
  }

  // Since message j, which is not counted, none replaced the book or carried the price.
  ghost predicate QuietSince(updates: seq<SideUpdate>, p: real, j: nat) {
    forall k | j < k < |updates| :: !updates[k].replace && !CarriesAny(updates[k], p)
  }

  lemma {:induction false} FullNext(side: Side, updates: seq<SideUpdate>, n: nat, p: real)
    requires |updates| == n + 1 && p > 0.0 && !CarriesAny(updates[n], p)
    ensures var before, after := RunSide(side, updates[..n]).full, RunSide(side, updates).full;
            if updates[n].replace then p !in after else (p in after <==> p in before) && (p in before ==> after[p] == before[p])
  {
    var base: Book := if updates[n].replace then map[] else RunSide(side, updates[..n]).full;
    MessageKeeps(base, updates[n].levels, updates[n].delta, p);
  }

  // The untrimmed book has at a price what the last level carrying it since the last replacing
  // message says, by its own numbers, in all message sequences.
  lemma {:induction false} FullAtLast(side: Side, updates: seq<SideUpdate>, p: real, j: nat, i: int)
    requires j < |updates| && LastCarrying(updates[j].levels, p, i) && QuietSince(updates, p, j)
    ensures var u, full := updates[j], RunSide(side, updates).full;
            SetTo(full, p, if u.delta && u.levels[i].current != [] then u.levels[i].current else u.levels[i].size)
  {
    var n := |updates| - 1;
    if j == n {
      var base: Book := if updates[n].replace then map[] else RunSide(side, updates[..n]).full;
      MessageSets(base, updates[n].levels, updates[n].delta, p, i);
    } else {
      FullAtLast(side, updates[..n], p, j, i);
      assert p > 0.0;
      FullNext(side, updates, n, p);
    }
  }

  // It lacks every price that no message carried from the last replacing message on.
  lemma {:induction false} FullLacks(side: Side, updates: seq<SideUpdate>, p: real, j: nat)
    requires p > 0.0 && j <= |updates| && (j == 0 || (j < |updates| && updates[j].replace))
    requires forall k | j <= k < |updates| :: !CarriesAny(updates[k], p)
    ensures p !in RunSide(side, updates).full
  {
    if updates != [] {
      var n := |updates| - 1;
      FullNext(side, updates, n, p);
      if !updates[n].replace {
        FullLacks(side, updates[..n], p, j);
      }
    }
  }

  // p stands before every price trimmed since the last replacing message.
  ghost predicate BeyondTrim(s: SideState, side: Side, p: real) {
    forall w | w in s.trimmed :: Better(side, p, w)
  }

  lemma AgreeBeyondTrim(side: Side, updates: seq<SideUpdate>, p: real)
    requires BeyondTrim(RunSide(side, updates), side, p)
    ensures var s := RunSide(side, updates);
            (p in s.kept <==> p in s.full) && (p in s.kept ==> s.kept[p] == s.full[p])
  {
    TrimmedTracksFull(side, updates);
    var s := RunSide(side, updates);
    assert p in s.lost ==> p in s.trimmed;
  }

  lemma KeptRankGap(s: SideState, side: Side, p: real)
    requires Tracks(s)
    ensures Rank(s.kept, side, p) <= Rank(s.full, side, p)
    ensures Rank(s.kept, side, p) == Rank(s.full, side, p) <==> forall q | q in s.lost :: !Better(side, q, p)
  {
    var k, f := BetterThan(s.kept, side, p), BetterThan(s.full, side, p);
    var gap := set q | q in s.lost && Better(side, q, p);
    assert f == k + gap;
    assert |f| == |k| + |gap|;
    if |gap| == 0 {
      forall q | q in s.lost ensures !Better(side, q, p) {
        assert q !in gap;
      }
    } else {
      assert gap != {};
      var q :| q in gap;
    }
  }

  // The i-th snapshot level is the i-th level of the untrimmed book exactly when no lost price
  // stands before it.
  lemma SnapshotLevelTrueIff(side: Side, updates: seq<SideUpdate>, ks: seq<Level>, fs: seq<Level>, i: nat)
    requires SortedLevels(ks, RunSide(side, updates).kept, side)
    requires SortedLevels(fs, RunSide(side, updates).full, side)
    requires i < |ks|
    ensures |ks| <= |fs|
    ensures ks[i] == fs[i] <==> forall q | q in RunSide(side, updates).lost :: !Better(side, q, ks[i].price)
  {
    var s := RunSide(side, updates);
    SnapshotSizes(side, updates, ks, fs);
    TrimmedTracksFull(side, updates);
    RankIsIndex(ks, s.kept, side, i);
    KeptRankGap(s, side, ks[i].price);
    var j :| 0 <= j < |fs| && fs[j].price == ks[i].price;
    RankIsIndex(fs, s.full, side, j);
    RankIsIndex(fs, s.full, side, i);
  }

  lemma SubBookSize(kept: Book, full: Book)
    requires SubBook(kept, full)
    ensures |kept| <= |full|
  {
    forall p | p in kept.Keys ensures p in full.Keys {
    }
    assert full.Keys == kept.Keys + (full.Keys - kept.Keys);
    assert |full.Keys| == |kept.Keys| + |full.Keys - kept.Keys|;
  }

  // The first n levels stand before every trimmed price.
  ghost predicate FirstBeyond(s: SideState, side: Side, ks: seq<Level>, n: nat) {
    n <= |ks| && forall i | 0 <= i < n :: BeyondTrim(s, side, ks[i].price)
  }

  // The snapshot levels that stand before every trimmed price are a prefix of the true book.
  lemma SnapshotPrefix(side: Side, updates: seq<SideUpdate>, ks: seq<Level>, fs: seq<Level>, n: nat)
    requires SortedLevels(ks, RunSide(side, updates).kept, side)
    requires SortedLevels(fs, RunSide(side, updates).full, side)
    requires FirstBeyond(RunSide(side, updates), side, ks, n)
    ensures n <= |fs| && ks[..n] == fs[..n]
  {
    SnapshotSizes(side, updates, ks, fs);
    forall i | 0 <= i < n ensures ks[i] == fs[i] {
      BeyondIsTrue(side, updates, ks, fs, i);
    }
    SamePrefix(ks, fs, n);
  }

  lemma SamePrefix<T>(a: seq<T>, b: seq<T>, n: nat)
    requires n <= |a| && n <= |b| && forall i | 0 <= i < n :: a[i] == b[i]
    ensures a[..n] == b[..n]
  {
  }

  lemma SnapshotSizes(side: Side, updates: seq<SideUpdate>, ks: seq<Level>, fs: seq<Level>)
    requires SortedLevels(ks, RunSide(side, updates).kept, side)
    requires SortedLevels(fs, RunSide(side, updates).full, side)
    ensures |ks| <= |fs|
  {
    var s := RunSide(side, updates);
    TrimmedTracksFull(side, updates);
    SortedLevelsSize(ks, s.kept, side);
    SortedLevelsSize(fs, s.full, side);
    SubBookSize(s.kept, s.full);
  }

  lemma BeyondIsTrue(side: Side, updates: seq<SideUpdate>, ks: seq<Level>, fs: seq<Level>, i: nat)
    requires SortedLevels(ks, RunSide(side, updates).kept, side)
    requires SortedLevels(fs, RunSide(side, updates).full, side)
    requires i < |ks| && BeyondTrim(RunSide(side, updates), side, ks[i].price)
    ensures |ks| <= |fs| && ks[i] == fs[i]
  {
    SnapshotLevelTrueIff(side, updates, ks, fs, i);
    TrimmedTracksFull(side, updates);
    forall q | q in RunSide(side, updates).lost ensures !Better(side, q, ks[i].price) {
      assert Better(side, ks[i].price, q);
    }
  }

  // ------------------------------------------------------------------ a snapshot that is not true

  // Bids of size one at the prices 1 to n.
  function BidsUpTo(n: nat): (levels: seq<LevelMsg>)
    ensures |levels| == n && forall i | 0 <= i < n :: levels[i] == LevelMsg([(i + 1) as real], [1.0], [])
  {
    seq(n, i requires 0 <= i < n => LevelMsg([(i + 1) as real], [1.0], []))
  }

  lemma {:induction false} BidsBook(n: nat)
    ensures var book := ApplyLevels(map[], BidsUpTo(n), false);
            && |book| == n && (n >= 1 ==> 1.0 in book && n as real in book)
            && (forall p | p in book :: 1.0 <= p <= n as real && book[p] == 1.0)
  {
    if n > 0 {
      BidsBook(n - 1);
      assert BidsUpTo(n)[..n - 1] == BidsUpTo(n - 1);
      var before := ApplyLevels(map[], BidsUpTo(n - 1), false);
      assert n as real !in before;
      assert ApplyLevels(map[], BidsUpTo(n), false) == before[n as real := 1.0];
    }
  }

  // In a book of one price too many, the worst bid has the rank that is cut and the others have not.
  lemma WorstIsCut(book: Book, max: nat)
    requires |book| == max + 1 && 1.0 in book && forall p | p in book :: p >= 1.0
    ensures Kept(book, Bids, max) == book - {1.0} && |Kept(book, Bids, max)| == max
  {
    assert BetterThan(book, Bids, 1.0) == book.Keys - {1.0};
    forall p | p in book && p != 1.0 ensures Rank(book, Bids, p) < max {
      assert BetterThan(book, Bids, p) <= book.Keys - {1.0, p};
      FewerInSubset(BetterThan(book, Bids, p), book.Keys - {1.0, p});
    }
    assert (book - {1.0}).Keys == book.Keys - {1.0};
  }

  lemma {:induction false} FewerInSubset(a: set<real>, b: set<real>)
    requires a <= b
    ensures |a| <= |b|
  {
    assert b == a + (b - a);
  }

  lemma AfterReplacing(updates: seq<SideUpdate>, side: Side, levels: seq<LevelMsg>)
    requires |updates| == 1 && updates[0] == SideUpdate(true, false, levels)
    ensures var s, book := RunSide(side, updates), ApplyLevels(map[], levels, false);
            s.full == book && s.kept == Kept(book, side, MAX_SNAPSHOT_LEVELS) && s.lost == book.Keys - s.kept.Keys
  {
    assert RunSide(side, updates) == UpdateSide(RunSide(side, updates[..0]), side, updates[0]);
  }

  // The first message has one bid too many, so the worst is cut.
  lemma AfterSixteen(updates: seq<SideUpdate>, n: nat, levels: seq<LevelMsg>)
    requires n == MAX_SNAPSHOT_LEVELS + 1 && levels == BidsUpTo(n)
    requires |updates| == 1 && updates[0] == SideUpdate(true, false, levels)
    ensures CutAtOne(RunSide(Bids, updates))
  {
    BidsBook(n);
    AfterReplacing(updates, Bids, levels);
    CutOfBook(ApplyLevels(map[], levels, false), RunSide(Bids, updates));
  }

  lemma CutOfBook(book: Book, s: SideState)
    requires |book| == 16 && 1.0 in book && 16.0 in book && forall p | p in book :: p >= 1.0
    requires s.full == book && s.kept == Kept(book, Bids, MAX_SNAPSHOT_LEVELS) && s.lost == book.Keys - s.kept.Keys
    ensures CutAtOne(s)
  {
    WorstIsCut(book, MAX_SNAPSHOT_LEVELS);
    assert book.Keys - (book - {1.0}).Keys == {1.0};
  }

  // Fifteen bids are kept, with the one at 16, and of the bids from 1 on only that at 1 was cut.
  ghost predicate CutAtOne(s: SideState) {
    && s.kept == s.full - {1.0} && s.lost == {1.0} && |s.kept| == 15 && 16.0 in s.kept
    && forall p | p in s.full :: p >= 1.0
  }

  lemma OneNumber(values: seq<real>)
    requires |values| == 1
    ensures FirstNumber(values) == if values[0] > 0.0 then values[0] else 0.0
  {
  }

  lemma ApplyTwo(book: Book, levels: seq<LevelMsg>, delta: bool)
    requires |levels| == 2
    ensures ApplyLevels(book, levels, delta) == ApplyLevel(ApplyLevel(book, levels[0], delta), levels[1], delta)
  {
    var first := levels[..1];
    assert first[..0] == [];
    assert ApplyLevels(book, first, delta) == ApplyLevel(ApplyLevels(book, first[..0], delta), first[0], delta);
  }

  // A message that takes the bid at 16 away and adds one at a half.
  ghost predicate Replaces(levels: seq<LevelMsg>) {
    && |levels| == 2 && |levels[0].price| == |levels[0].size| == |levels[1].price| == |levels[1].size| == 1
    && levels[0].current == [] && levels[1].current == []
    && levels[0].price[0] == 16.0 && levels[0].size[0] == 0.0 && levels[1].price[0] == 0.5 && levels[1].size[0] == 1.0
  }

  lemma ReplacesBid(book: Book, levels: seq<LevelMsg>)
    requires Replaces(levels)
    ensures ApplyLevels(book, levels, true) == (book - {16.0})[0.5 := 1.0] && !Names(levels, 1.0)
  {
    ApplyTwo(book, levels, true);
    OneNumber(levels[0].price);
    OneNumber(levels[0].size);
    OneNumber(levels[1].price);
    OneNumber(levels[1].size);
  }

  lemma RoomFor(book: Book, p: real, q: real, size: real)
    requires |book| == MAX_SNAPSHOT_LEVELS && q in book && p !in book
    ensures p in Kept((book - {q})[p := size], Bids, MAX_SNAPSHOT_LEVELS)
  {
    var applied := (book - {q})[p := size];
    assert (book - {q}).Keys == book.Keys - {q};
    assert applied.Keys == (book - {q}).Keys + {p};
    var ls := SortedLevelsExist(applied, Bids);
    KeptAll(ls, applied, Bids, MAX_SNAPSHOT_LEVELS);
  }

  // After the second message the kept book holds the bid at a half and lacks the one cut before.
  lemma AfterReplacement(before: SideState, s: SideState, levels: seq<LevelMsg>)
    requires CutAtOne(before) && Replaces(levels)
    requires s == UpdateSide(before, Bids, SideUpdate(false, true, levels))
    ensures 0.5 in s.kept && 1.0 in s.lost
  {
    ReplacesBid(before.kept, levels);
    RoomFor(before.kept, 0.5, 16.0, 1.0);
  }

  // A snapshot level that is not the level of the untrimmed book: sixteen bids arrive, the best is
  // taken away and a worse one is added, which then stands where the bid cut before should.
  lemma SnapshotLevelFalse(updates: seq<SideUpdate>, levels: seq<LevelMsg>, ks: seq<Level>, fs: seq<Level>) returns (i: nat)
    requires |updates| == 2 && updates[0] == SideUpdate(true, false, BidsUpTo(16))
    requires Replaces(levels) && updates[1] == SideUpdate(false, true, levels)
    requires SortedLevels(ks, RunSide(Bids, updates).kept, Bids) && SortedLevels(fs, RunSide(Bids, updates).full, Bids)
    ensures i < |ks| <= |fs| && ks[i] != fs[i]
  {
    AfterSixteen(updates[..1], 16, BidsUpTo(16));
    AfterReplacement(RunSide(Bids, updates[..1]), RunSide(Bids, updates), levels);
    i :| 0 <= i < |ks| && ks[i].price == 0.5;
    SnapshotLevelTrueIff(Bids, updates, ks, fs, i);
    assert Better(Bids, 1.0, ks[i].price);
  }

  // ------------------------------------------------------------------ the parsers

  datatype Snapshot = Snapshot(bid: real, bidSize: real, ask: real, askSize: real,
                               bids: seq<Level>, asks: seq<Level>, receivedAt: int)

  // The top of a snapshot is the first level of either ladder.
  predicate Topped(s: Snapshot) {
    s.bids != [] && s.asks != [] && s.bids[0] == Level(s.bid, s.bidSize) && s.asks[0] == Level(s.ask, s.askSize)
  }

  // The snapshot's ladders are the two books in order, and its top is their first level.
  ghost predicate SnapshotOf(s: Snapshot, bids: Book, asks: Book) {
    SortedLevels(s.bids, bids, Bids) && SortedLevels(s.asks, asks, Asks) && Topped(s)
  }

  method ApplyExtendedLevels(book: Book, levels: seq<LevelMsg>, delta: bool) returns (out: Book)
    ensures out == ApplyLevels(book, levels, delta)
  {
    out := book;
    for i := 0 to |levels|
      invariant out == ApplyLevels(book, levels[..i], delta)
    {
      assert levels[..i + 1][..i] == levels[..i];
      var price := FirstNumber(levels[i].price);
      if price <= 0.0 {
        continue;
      }
      var size := FirstNumber(levels[i].size);
      if delta {
        var current := FirstNumber(levels[i].current);
        if current > 0.0 || levels[i].current != [] {
          size := current;
        }
      }
      if size <= 0.0 {
        out := out - {price};
        continue;
      }
      out := out[price := size];
    }
    assert levels[..|levels|] == levels;
  }

  // No level stands behind a strictly worse one.
  ghost predicate InOrder(ls: seq<Level>, side: Side) {
    forall i, j | 0 <= i < j < |ls| :: !Better(side, ls[j].price, ls[i].price)
  }

  // sort.Slice by price: a permutation in the order of the side.
  method SortLevels(levels: seq<Level>, side: Side) returns (out: seq<Level>)
    ensures multiset(out) == multiset(levels) && InOrder(out, side)
  {
    out := [];
    for n := 0 to |levels|
      invariant multiset(out) == multiset(levels[..n]) && InOrder(out, side)
    {
      out := InsertLevel(out, levels[n], side);
      assert levels[..n + 1] == levels[..n] + [levels[n]];
    }
    assert levels[..|levels|] == levels;
  }

  method InsertLevel(ls: seq<Level>, l: Level, side: Side) returns (out: seq<Level>)
    requires InOrder(ls, side)
    ensures multiset(out) == multiset(ls) + multiset{l} && InOrder(out, side)
  {
    var k := 0;
    while k < |ls| && !Better(side, l.price, ls[k].price)
      invariant 0 <= k <= |ls|
      invariant forall i | 0 <= i < k :: !Better(side, l.price, ls[i].price)
    {
      k := k + 1;
    }
    out := ls[..k] + [l] + ls[k..];
    InsertedMultiset(ls, k, l);
    InsertInOrder(ls, l, side, k);
  }

  lemma InsertInOrder(ls: seq<Level>, l: Level, side: Side, k: nat)
    requires InOrder(ls, side) && k <= |ls|
    requires forall i | 0 <= i < k :: !Better(side, l.price, ls[i].price)
    requires k < |ls| ==> Better(side, l.price, ls[k].price)
    ensures InOrder(ls[..k] + [l] + ls[k..], side)
  {
    forall i | k <= i < |ls| ensures !Better(side, ls[i].price, l.price) {
      assert k < i ==> !Better(side, ls[i].price, ls[k].price);
    }
    var out := ls[..k] + [l] + ls[k..];
    forall i, j | 0 <= i < j < |out| ensures !Better(side, out[j].price, out[i].price) {
      assert out[i] == if i < k then ls[i] else if i == k then l else ls[i - 1];
      assert out[j] == if j < k then ls[j] else if j == k then l else ls[j - 1];
    }
  }

  method SortedBookLevelsAll(book: Book, side: Side) returns (out: seq<Level>)
    requires Positive(book)
    ensures SortedLevels(out, book, side)
  {
    var levels: seq<Level> := [];
    var todo := book.Keys;
    while todo != {}
      invariant todo <= book.Keys
      invariant forall i | 0 <= i < |levels| :: levels[i].price in book.Keys - todo && book[levels[i].price] == levels[i].size
      invariant forall i, j | 0 <= i < j < |levels| :: levels[i].price != levels[j].price
      invariant forall p | p in book.Keys - todo :: Level(p, book[p]) in levels
    {
      var price := Choose(todo);
      todo := todo - {price};
      if price <= 0.0 || book[price] <= 0.0 {
        continue;
      }
      levels := levels + [Level(price, book[price])];
    }
    out := SortLevels(levels, side);
    SortedPermutation(levels, out, book, side);
  }

  lemma SortedPermutation(levels: seq<Level>, out: seq<Level>, book: Book, side: Side)
    requires multiset(out) == multiset(levels)
    requires forall i | 0 <= i < |levels| :: levels[i].price in book && book[levels[i].price] == levels[i].size
    requires forall i, j | 0 <= i < j < |levels| :: levels[i].price != levels[j].price
    requires forall p | p in book :: Level(p, book[p]) in levels
    requires InOrder(out, side)
    ensures SortedLevels(out, book, side)
  {
    forall l ensures l in out <==> l in levels {
      assert l in out <==> l in multiset(out);
      assert l in levels <==> l in multiset(levels);
    }
    forall i, j | 0 <= i < j < |out| ensures Better(side, out[i].price, out[j].price) {
      DistinctInPermutation(levels, out, i, j);
    }
    forall i | 0 <= i < |out| ensures out[i].price in book && book[out[i].price] == out[i].size {
      assert out[i] in levels;
    }
    forall p | p in book ensures exists i :: 0 <= i < |out| && out[i].price == p {
      assert Level(p, book[p]) in out;
      var i :| 0 <= i < |out| && out[i] == Level(p, book[p]);
    }
  }

  lemma {:induction false} MultiplicityOne(levels: seq<Level>, l: Level)
    requires forall i, j | 0 <= i < j < |levels| :: levels[i].price != levels[j].price
    ensures multiset(levels)[l] <= 1
  {
    if levels != [] {
      var n := |levels| - 1;
      MultiplicityOne(levels[..n], l);
      assert levels == levels[..n] + [levels[n]];
      assert l in multiset(levels[..n]) <==> l in levels[..n];
    }
  }

  lemma TwiceInMultiset(out: seq<Level>, i: nat, j: nat)
    requires i < j < |out| && out[i] == out[j]
    ensures multiset(out)[out[i]] >= 2
  {
    assert out == out[..i] + [out[i]] + out[i + 1..j] + [out[j]] + out[j + 1..];
  }

  lemma DistinctInPermutation(levels: seq<Level>, out: seq<Level>, i: nat, j: nat)
    requires multiset(out) == multiset(levels)
    requires forall a, b | 0 <= a < b < |levels| :: levels[a].price != levels[b].price
    requires i < j < |out|
    ensures out[i].price != out[j].price
  {
    assert out[i] in multiset(out) && out[j] in multiset(out);
    assert out[i] in levels && out[j] in levels;
    MultiplicityOne(levels, out[i]);
    if out[i] == out[j] {
      TwiceInMultiset(out, i, j);
    } else {
      var a :| 0 <= a < |levels| && levels[a] == out[i];
      var b :| 0 <= b < |levels| && levels[b] == out[j];
    }
  }

  method TrimBook(book: Book, side: Side, max: nat) returns (out: Book)
    requires Positive(book) && max > 0
    ensures out == Kept(book, side, max)
  {
    out := book;
    if |book| <= max {
      ghost var ls := SortedLevelsExist(book, side);
      KeptAll(ls, book, side, max);
      return;
    }
    var ls := SortedBookLevelsAll(book, side);
    SortedLevelsSize(ls, book, side);
    for i := max to |ls|
      invariant out == CutFrom(book, ls, max, i)
    {
      CutNext(book, side, ls, max, i);
      out := out - {ls[i].price};
    }
    CutIsKept(book, side, ls, max);
  }

  // The book without the levels max..n of its ladder.
  ghost function CutFrom(book: Book, ls: seq<Level>, max: nat, n: nat): Book
    requires max <= n <= |ls|
  {
    map p | p in book && (forall j | max <= j < n :: ls[j].price != p) :: book[p]
  }

  lemma CutNext(book: Book, side: Side, ls: seq<Level>, max: nat, n: nat)
    requires max <= n < |ls|
    ensures CutFrom(book, ls, max, n + 1) == CutFrom(book, ls, max, n) - {ls[n].price}
  {
  }

  lemma CutIsKept(book: Book, side: Side, ls: seq<Level>, max: nat)
    requires SortedLevels(ls, book, side) && max <= |ls|
    ensures CutFrom(book, ls, max, |ls|) == Kept(book, side, max)
  {
    forall p | p in book ensures p in CutFrom(book, ls, max, |ls|) <==> p in Kept(book, side, max) {
      var j :| 0 <= j < |ls| && ls[j].price == p;
      RankIsIndex(ls, book, side, j);
      forall i | max <= i < |ls| && j < max ensures ls[i].price != p {
        RankIsIndex(ls, book, side, i);
      }
    }
  }

  // bestBid and bestAsk: the map walked in any order, zero meaning that nothing was found yet.
  method BestLevel(book: Book, side: Side) returns (price: real, size: real)
    requires Positive(book)
    ensures price == 0.0 <==> book == map[]
    ensures price != 0.0 ==> price in book && book[price] == size && BetterThan(book, side, price) == {}
  {
    price, size := 0.0, 0.0;
    var todo := book.Keys;
    ghost var done: Book := map[];
    while todo != {}
      invariant todo <= book.Keys && done.Keys == book.Keys - todo
      invariant price == 0.0 <==> done == map[]
      invariant price != 0.0 ==> price in book && book[price] == size
      invariant forall p | p in done :: !Better(side, p, price)
    {
      var candidate := Choose(todo);
      todo := todo - {candidate};
      done := done[candidate := book[candidate]];
      if book[candidate] <= 0.0 {
        continue;
      }
      if price == 0.0 || Better(side, candidate, price) {
        price, size := candidate, book[candidate];
      }
    }
    assert done.Keys == book.Keys;
  }

  lemma BestIsFirst(ls: seq<Level>, book: Book, side: Side, p: real)
    requires SortedLevels(ls, book, side) && p in book && BetterThan(book, side, p) == {}
    ensures ls != [] && ls[0] == Level(p, book[p])
  {
    var i :| 0 <= i < |ls| && ls[i].price == p;
    RankIsIndex(ls, book, side, i);
  }

  method MakeSnapshot(bids: Book, asks: Book) returns (r: Option<Snapshot>)
    requires Positive(bids) && Positive(asks)
    requires |bids| <= MAX_SNAPSHOT_LEVELS && |asks| <= MAX_SNAPSHOT_LEVELS
    ensures r.Some? <==> bids != map[] && asks != map[]
    ensures r.Some? ==> SnapshotOf(r.value, bids, asks)
  {
    var bid, bidSize := BestLevel(bids, Bids);
    var ask, askSize := BestLevel(asks, Asks);
    if bid <= 0.0 || ask <= 0.0 {
      return None;
    }
    var bidLevels := SortedBookLevelsAll(bids, Bids);
    var askLevels := SortedBookLevelsAll(asks, Asks);
    SortedLevelsSize(bidLevels, bids, Bids);
    SortedLevelsSize(askLevels, asks, Asks);
    BestIsFirst(bidLevels, bids, Bids, bid);
    BestIsFirst(askLevels, asks, Asks, ask);
    r := Some(Snapshot(bid, bidSize, ask, askSize, Head(bidLevels, MAX_SNAPSHOT_LEVELS), Head(askLevels, MAX_SNAPSHOT_LEVELS), 0));
  }

  method UpdateBook(book: Book, side: Side, levels: seq<LevelMsg>, delta: bool) returns (out: Book)
    requires Positive(book)
    ensures out == Kept(ApplyLevels(book, levels, delta), side, MAX_SNAPSHOT_LEVELS)
    ensures Positive(out) && |out| <= MAX_SNAPSHOT_LEVELS
  {
    out := ApplyExtendedLevels(book, levels, delta);
    ApplyLevelsPositive(book, levels, delta);
    ghost var ls := SortedLevelsExist(out, side);
    KeptSize(ls, out, side, MAX_SNAPSHOT_LEVELS);
    out := TrimBook(out, side, MAX_SNAPSHOT_LEVELS);
  }

  class LighterParser {
    var bids: Option<Book>
    var asks: Option<Book>
    ghost var bidLog: seq<SideUpdate>
    ghost var askLog: seq<SideUpdate>

    // The maps are what the messages received so far make of them.
    ghost predicate Valid() reads this {
      && (bids.Some? <==> asks.Some?)
      && (bids.Some? ==> bids.value == RunSide(Bids, bidLog).kept && asks.value == RunSide(Asks, askLog).kept)
    }

    constructor ()
      ensures Valid() && bids.None? && bidLog == [] && askLog == []
    {
      bids, asks := None, None;
      bidLog, askLog := [], [];
    }

    method Parse(isUpdate: bool, bidLevels: seq<LevelMsg>, askLevels: seq<LevelMsg>) returns (r: Option<Snapshot>)
      requires Valid()
      modifies this
      ensures Valid() && bids.Some?
      ensures var replace := old(bids).None? || !isUpdate;
              && bidLog == old(bidLog) + [SideUpdate(replace, false, bidLevels)]
              && askLog == old(askLog) + [SideUpdate(replace, false, askLevels)]
      ensures r.Some? <==> bids.value != map[] && asks.value != map[]
      ensures r.Some? ==> SnapshotOf(r.value, bids.value, asks.value)
    {
      TrimmedTracksFull(Bids, bidLog);
      TrimmedTracksFull(Asks, askLog);
      var replace := bids.None? || asks.None? || !isUpdate;
      if replace {
        bids, asks := Some(map[]), Some(map[]);
      }
      var newBids := UpdateBook(bids.value, Bids, bidLevels, false);
      var newAsks := UpdateBook(asks.value, Asks, askLevels, false);
      bids, asks := Some(newBids), Some(newAsks);
      bidLog := bidLog + [SideUpdate(replace, false, bidLevels)];
      askLog := askLog + [SideUpdate(replace, false, askLevels)];
      r := MakeSnapshot(newBids, newAsks);
    }
  }

  // The three kinds of message that the extended parser tells apart.
  datatype ExtendedMsg =
    | SnapshotMsg(bidLevels: seq<LevelMsg>, askLevels: seq<LevelMsg>)
    | DeltaMsg(bidLevels: seq<LevelMsg>, askLevels: seq<LevelMsg>)
    | OtherMsg(rawBids: seq<Level>, rawAsks: seq<Level>)

  predicate IsPositive(l: Level) {
    l.price > 0.0 && l.size > 0.0
  }

  function Positives(raw: seq<Level>): seq<Level> {
    if raw == [] then []
    else
      var rest := Positives(raw[..|raw| - 1]);
      if IsPositive(raw[|raw| - 1]) then rest + [raw[|raw| - 1]] else rest
  }

  // Exactly the levels of positive price and size are left, each as often as before.
  lemma {:induction false} PositivesKeep(raw: seq<Level>, l: Level)
    ensures multiset(Positives(raw))[l] == if l.price > 0.0 && l.size > 0.0 then multiset(raw)[l] else 0
  {
    if raw != [] {
      var n := |raw| - 1;
      PositivesKeep(raw[..n], l);
      assert raw == raw[..n] + [raw[n]];
    }
  }

  // The best levels of a sequence, in order, at most fifteen, repeats included.
  ghost predicate Best(out: seq<Level>, all: seq<Level>, side: Side) {
    && InOrder(out, side)
    && multiset(out) <= multiset(all)
    && (if |all| <= MAX_SNAPSHOT_LEVELS then multiset(out) == multiset(all) else |out| == MAX_SNAPSHOT_LEVELS)
    && NoneBetter(out, multiset(all) - multiset(out), side)
  }

  ghost predicate NoneBetter(out: seq<Level>, rest: multiset<Level>, side: Side) {
    forall l | l in rest :: out != [] && !Better(side, l.price, out[|out| - 1].price)
  }

  // The ladder of raw levels: the fifteen best of the positive ones.
  ghost predicate Ladder(out: seq<Level>, raw: seq<Level>, side: Side) {
    Best(out, Positives(raw), side)
  }

  lemma HeadIsBest(sorted: seq<Level>, all: seq<Level>, side: Side, out: seq<Level>)
    requires multiset(sorted) == multiset(all) && InOrder(sorted, side) && out == Head(sorted, MAX_SNAPSHOT_LEVELS)
    ensures Best(out, all, side)
  {
    SameSize(sorted, all);
    assert out == sorted[..|out|];
    HeadMultiset(sorted, |out|, out, multiset(all));
    RestNotBetter(sorted, side, |out|, out);
    HeadInOrder(sorted, side, |out|, out);
  }

  lemma HeadInOrder(sorted: seq<Level>, side: Side, n: nat, out: seq<Level>)
    requires InOrder(sorted, side) && n <= |sorted| && out == sorted[..n]
    ensures InOrder(out, side)
  {
  }

  lemma SameSize<T>(a: seq<T>, b: seq<T>)
    requires multiset(a) == multiset(b)
    ensures |a| == |b|
  {
    assert |multiset(a)| == |a| && |multiset(b)| == |b|;
  }

  lemma RestNotBetter(sorted: seq<Level>, side: Side, n: nat, out: seq<Level>)
    requires InOrder(sorted, side) && n <= |sorted| && (n > 0 || sorted == []) && out == sorted[..n]
    ensures NoneBetter(out, multiset(sorted[n..]), side)
  {
    forall l | l in multiset(sorted[n..]) ensures n > 0 && !Better(side, l.price, sorted[n - 1].price) {
      TailNotBetter(sorted, side, n, l);
    }
  }

  lemma HeadMultiset<T>(s: seq<T>, n: nat, out: seq<T>, all: multiset<T>)
    requires n <= |s| && out == s[..n] && all == multiset(s)
    ensures multiset(out) <= all && all - multiset(out) == multiset(s[n..])
    ensures n == |s| ==> multiset(out) == all
  {
    assert s == out + s[n..];
    assert all == multiset(out) + multiset(s[n..]);
    assert n == |s| ==> out == s;
  }

  lemma TailNotBetter(sorted: seq<Level>, side: Side, n: nat, l: Level)
    requires InOrder(sorted, side) && n <= |sorted| && l in multiset(sorted[n..])
    ensures n > 0 ==> !Better(side, l.price, sorted[n - 1].price)
  {
    assert l in sorted[n..];
    var i :| 0 <= i < |sorted[n..]| && sorted[n..][i] == l;
    assert sorted[n + i] == l;
  }

  method ParseLevels(raw: seq<Level>, side: Side) returns (out: seq<Level>)
    ensures Ladder(out, raw, side)
  {
    var levels: seq<Level> := [];
    for i := 0 to |raw|
      invariant levels == Positives(raw[..i])
    {
      assert raw[..i + 1][..i] == raw[..i];
      if raw[i].price <= 0.0 || raw[i].size <= 0.0 {
        continue;
      }
      levels := levels + [raw[i]];
    }
    assert raw[..|raw|] == raw;
    var sorted := SortLevels(levels, side);
    out := Head(sorted, MAX_SNAPSHOT_LEVELS);
    HeadIsBest(sorted, levels, side, out);
  }

  method ParseGeneric(rawBids: seq<Level>, rawAsks: seq<Level>) returns (r: Option<Snapshot>)
    ensures r.Some? <==> Positives(rawBids) != [] && Positives(rawAsks) != []
    ensures r.Some? ==> Ladder(r.value.bids, rawBids, Bids) && Ladder(r.value.asks, rawAsks, Asks) && Topped(r.value)
  {
    var bidLadder := ParseLevels(rawBids, Bids);
    var askLadder := ParseLevels(rawAsks, Asks);
    LadderEmpty(bidLadder, rawBids, Bids);
    LadderEmpty(askLadder, rawAsks, Asks);
    if bidLadder == [] || askLadder == [] {
      return None;
    }
    r := Some(Snapshot(bidLadder[0].price, bidLadder[0].size, askLadder[0].price, askLadder[0].size, bidLadder, askLadder, 0));
  }

  lemma LadderEmpty(out: seq<Level>, raw: seq<Level>, side: Side)
    requires Ladder(out, raw, side)
    ensures out == [] <==> Positives(raw) == []
  {
    if Positives(raw) == [] {
      SameSize(out, Positives(raw));
    } else if |Positives(raw)| <= MAX_SNAPSHOT_LEVELS {
      SameSize(out, Positives(raw));
    }
  }

  class ExtendedParser {
    var bids: Book
    var asks: Book
    ghost var bidLog: seq<SideUpdate>
    ghost var askLog: seq<SideUpdate>

    ghost predicate Valid() reads this {
      bids == RunSide(Bids, bidLog).kept && asks == RunSide(Asks, askLog).kept
    }

    constructor ()
      ensures Valid() && bidLog == [] && askLog == []
    {
      bids, asks := map[], map[];
      bidLog, askLog := [], [];
    }

    method Parse(msg: ExtendedMsg) returns (r: Option<Snapshot>)
      requires Valid()
      modifies this
      ensures Valid()
      ensures msg.OtherMsg? ==> unchanged(this)
      ensures msg.OtherMsg? ==> (r.Some? <==> Positives(msg.rawBids) != [] && Positives(msg.rawAsks) != [])
      ensures msg.OtherMsg? && r.Some? ==> Ladder(r.value.bids, msg.rawBids, Bids) && Ladder(r.value.asks, msg.rawAsks, Asks)
      ensures r.Some? ==> Topped(r.value)
      ensures !msg.OtherMsg? ==> bidLog == old(bidLog) + [SideUpdate(msg.SnapshotMsg?, msg.DeltaMsg?, msg.bidLevels)]
      ensures !msg.OtherMsg? ==> askLog == old(askLog) + [SideUpdate(msg.SnapshotMsg?, msg.DeltaMsg?, msg.askLevels)]
      ensures !msg.OtherMsg? ==> (r.Some? <==> bids != map[] && asks != map[])
      ensures !msg.OtherMsg? && r.Some? ==> SnapshotOf(r.value, bids, asks)
    {
      match msg {
        case SnapshotMsg(bidLevels, askLevels) =>
          bids, asks := map[], map[];
          bids := UpdateBook(bids, Bids, bidLevels, false);
          asks := UpdateBook(asks, Asks, askLevels, false);
          bidLog := bidLog + [SideUpdate(true, false, bidLevels)];
          askLog := askLog + [SideUpdate(true, false, askLevels)];
        case DeltaMsg(bidLevels, askLevels) =>
          TrimmedTracksFull(Bids, bidLog);
          TrimmedTracksFull(Asks, askLog);
          bids := UpdateBook(bids, Bids, bidLevels, true);
          asks := UpdateBook(asks, Asks, askLevels, true);
          bidLog := bidLog + [SideUpdate(false, true, bidLevels)];
          askLog := askLog + [SideUpdate(false, true, askLevels)];
        case OtherMsg(rawBids, rawAsks) =>
          r := ParseGeneric(rawBids, rawAsks);
          return;
      }
      r := MakeSnapshot(bids, asks);
    }
  }
}
