// Cancel confirmation end to end: the venue matchers with their shrinking id sets
// (internal/venues/*/confirmation.go), the confirmation built on the account feed
// (internal/accountfeed/confirmation.go), the open-orders fallback, and the cleanup result with its
// retries (internal/cleanup/execution.go and command.go).
module Confirmation {
  import opened Common
  import opened Feed

  datatype Venue = Hyperliquid | Extended | Aster

  // ------------------------------------------------------------------ ids and statuses

  predicate Contains(s: string, part: string) {
    exists i | 0 <= i <= |s| :: part <= s[i..]
  }

  // The status texts that count as a cancellation at each venue.
  predicate Cancelled(venue: Venue, o: Order) {
    match venue
    case Hyperliquid => Contains(Lower(o.status), "cancel")
    case Extended => EqualFold(o.status, "cancelled") || EqualFold(o.status, "canceled")
    case Aster =>
      || EqualFold(o.status, "CANCELED") || EqualFold(o.status, "CANCELLED")
      || EqualFold(o.execution, "CANCELED") || EqualFold(o.execution, "CANCELLED")
  }

  predicate Relevant(venue: Venue, v: Value) {
    match venue
    case Hyperliquid => v.channel == "orderUpdates"
    case Extended => true
    case Aster => v.channel == "ORDER_TRADE_UPDATE" && v.orders != []
  }

  // Aster messages carry one order.
  function Updates(venue: Venue, v: Value): seq<Order> {
    if !Relevant(venue, v) then [] else if venue == Aster then [v.orders[0]] else v.orders
  }

  // The first of the values that is in the set.
  function FirstMatching(ids: set<string>, values: seq<string>): (r: Option<string>)
    ensures r.Some? ==> r.value in ids && r.value in values
    ensures r.None? ==> forall x | x in values :: x !in ids
  {
    if values == [] then None else if values[0] in ids then Some(values[0]) else FirstMatching(ids, values[1..])
  }

  function AfterOrder(venue: Venue, o: Order, remaining: set<string>): set<string> {
    var id := FirstMatching(remaining, o.ids);
    if id.Some? && Cancelled(venue, o) then remaining - {id.value} else remaining
  }

  function AfterOrders(venue: Venue, orders: seq<Order>, remaining: set<string>): set<string> {
    if orders == [] then remaining
    else AfterOrder(venue, orders[|orders| - 1], AfterOrders(venue, orders[..|orders| - 1], remaining))
  }

  // What is left of the ids after a message, and whether the message confirms the whole cancel.
  function AfterMessage(venue: Venue, v: Value, remaining: set<string>): set<string> {
    AfterOrders(venue, Updates(venue, v), remaining)
  }

  predicate Completes(venue: Venue, v: Value, remaining: set<string>) {
    && Relevant(venue, v)
    && (venue == Aster ==> FirstMatching(remaining, v.orders[0].ids).Some?)
    && AfterMessage(venue, v, remaining) == {}
  }

  function RemainingAfter(venue: Venue, ids: set<string>, seen: seq<Message>): set<string> {
    if seen == [] then ids
    else AfterMessage(venue, seen[|seen| - 1].value, RemainingAfter(venue, ids, seen[..|seen| - 1]))
  }

  // The matcher handed to the feed: a closure over its own copy of the ids.
  function CancelVerdict(venue: Venue, ids: set<string>, seen: seq<Message>): Verdict {
    if seen == [] then NoMatch
    else if Completes(venue, seen[|seen| - 1].value, RemainingAfter(venue, ids, seen[..|seen| - 1])) then Match
    else NoMatch
  }

  function CancelMatcher(venue: Venue, ids: set<string>): Matcher {
    seen => CancelVerdict(venue, ids, seen)
  }

  // ------------------------------------------------------------------ what a removal means

  // The message reports id as cancelled.
  ghost predicate Reports(venue: Venue, v: Value, id: string) {
    exists o :: o in Updates(venue, v) && id in o.ids && Cancelled(venue, o)
  }

  lemma ContainsIff(s: string, part: string)
    ensures Contains(s, part) <==> exists a, b :: s == a + part + b
  {
    if Contains(s, part) {
      var i :| 0 <= i <= |s| && part <= s[i..];
      assert s == s[..i] + part + s[i..][|part|..];
    }
    if a, b :| s == a + part + b {
      assert s[|a|..] == part + b;
    }
  }

  // The status texts that count, in whatever letter case: any text with the word cancel in it at
  // Hyperliquid, and the two spellings of cancelled at the others, at Aster for either status.
  lemma CancelledIff(o: Order)
    ensures Cancelled(Hyperliquid, o) <==> exists a, b :: Lower(o.status) == a + "cancel" + b
    ensures Cancelled(Extended, o) <==> Lower(o.status) in {"cancelled", "canceled"}
    ensures Cancelled(Aster, o) <==> Lower(o.status) in {"cancelled", "canceled"} || Lower(o.execution) in {"cancelled", "canceled"}
  {
    ContainsIff(Lower(o.status), "cancel");
    assert Lower("cancelled") == "cancelled" && Lower("canceled") == "canceled";
    assert Lower("CANCELLED") == "cancelled" && Lower("CANCELED") == "canceled";
  }

  // Which messages report an id: an order update at Hyperliquid, any message at Extended, and at
  // Aster the first order of a trade update.
  lemma ReportsIff(v: Value, id: string)
    ensures Reports(Hyperliquid, v, id) <==>
              v.channel == "orderUpdates" && exists i :: 0 <= i < |v.orders| && id in v.orders[i].ids && Cancelled(Hyperliquid, v.orders[i])
    ensures Reports(Extended, v, id) <==> exists i :: 0 <= i < |v.orders| && id in v.orders[i].ids && Cancelled(Extended, v.orders[i])
    ensures Reports(Aster, v, id) <==>
              v.channel == "ORDER_TRADE_UPDATE" && v.orders != [] && id in v.orders[0].ids && Cancelled(Aster, v.orders[0])
  {
    ReportsSome(Hyperliquid, v, id);
    ReportsSome(Extended, v, id);
    if v.channel == "ORDER_TRADE_UPDATE" && v.orders != [] {
      assert Updates(Aster, v) == [v.orders[0]] && v.orders[0] in Updates(Aster, v);
    }
  }

  lemma ReportsSome(venue: Venue, v: Value, id: string)
    requires venue != Aster
    ensures Reports(venue, v, id) <==>
              Relevant(venue, v) && exists i :: 0 <= i < |v.orders| && id in v.orders[i].ids && Cancelled(venue, v.orders[i])
  {
    if o :| o in Updates(venue, v) && id in o.ids && Cancelled(venue, o) {
      var i :| 0 <= i < |v.orders| && v.orders[i] == o;
    }
    if Relevant(venue, v) {
      if i :| 0 <= i < |v.orders| && id in v.orders[i].ids && Cancelled(venue, v.orders[i]) {
        assert v.orders[i] in Updates(venue, v);
      }
    }
  }

  // No order of the message names two of the planned ids.
  ghost predicate NamesOne(venue: Venue, v: Value, ids: set<string>) {
    forall o | o in Updates(venue, v) :: OneOf(o.ids, ids)
  }

  ghost predicate OneOf(values: seq<string>, ids: set<string>) {
    forall x, y | x in values && y in values && x in ids && y in ids :: x == y
  }

  lemma AfterOrderSound(venue: Venue, o: Order, remaining: set<string>, id: string)
    requires id in remaining
    ensures AfterOrder(venue, o, remaining) <= remaining
    ensures id !in AfterOrder(venue, o, remaining) ==> id in o.ids && Cancelled(venue, o)
    ensures OneOf(o.ids, remaining) && id in o.ids && Cancelled(venue, o) ==> id !in AfterOrder(venue, o, remaining)
  {
  }

  lemma {:induction false} AfterOrdersSound(venue: Venue, orders: seq<Order>, remaining: set<string>, id: string)
    requires id in remaining
    ensures id !in AfterOrders(venue, orders, remaining) ==> exists o :: o in orders && id in o.ids && Cancelled(venue, o)
  {
    if orders != [] {
      var rest := orders[..|orders| - 1];
      AfterOrdersSound(venue, rest, remaining, id);
      var before := AfterOrders(venue, rest, remaining);
      if id in before {
        AfterOrderSound(venue, orders[|orders| - 1], before, id);
      } else {
        var o :| o in rest && id in o.ids && Cancelled(venue, o);
        assert o in orders;
      }
    }
  }

  lemma {:induction false} AfterOrdersShrink(venue: Venue, orders: seq<Order>, remaining: set<string>)
    ensures AfterOrders(venue, orders, remaining) <= remaining
  {
    if orders != [] {
      AfterOrdersShrink(venue, orders[..|orders| - 1], remaining);
    }
  }

  lemma {:induction false} AfterOrdersComplete(venue: Venue, orders: seq<Order>, remaining: set<string>, o: Order, id: string)
    requires o in orders && id in o.ids && Cancelled(venue, o)
    requires forall p | p in orders :: OneOf(p.ids, remaining)
    ensures id !in AfterOrders(venue, orders, remaining)
  {
    var rest, last := orders[..|orders| - 1], orders[|orders| - 1];
    var before := AfterOrders(venue, rest, remaining);
    AfterOrdersShrink(venue, rest, remaining);
    if o in rest {
      AfterOrdersComplete(venue, rest, remaining, o, id);
    } else if id in before {
      assert o == last && OneOf(last.ids, remaining);
      AfterOrderSound(venue, last, before, id);
    }
  }

  lemma {:induction false} RemainingShrinks(venue: Venue, ids: set<string>, seen: seq<Message>)
    ensures RemainingAfter(venue, ids, seen) <= ids
  {
    if seen != [] {
      var before := RemainingAfter(venue, ids, seen[..|seen| - 1]);
      RemainingShrinks(venue, ids, seen[..|seen| - 1]);
      AfterOrdersShrink(venue, Updates(venue, seen[|seen| - 1].value), before);
    }
  }

  // An id leaves the set only because some message shown reports it cancelled.
  lemma {:induction false} RemovedWasReported(venue: Venue, ids: set<string>, seen: seq<Message>, id: string)
    requires id in ids && id !in RemainingAfter(venue, ids, seen)
    ensures exists m :: m in seen && Reports(venue, m.value, id)
  {
    if seen != [] {
      var rest, last := seen[..|seen| - 1], seen[|seen| - 1];
      if id in RemainingAfter(venue, ids, rest) {
        AfterOrdersSound(venue, Updates(venue, last.value), RemainingAfter(venue, ids, rest), id);
        assert Reports(venue, last.value, id);
      } else {
        RemovedWasReported(venue, ids, rest, id);
        var m :| m in rest && Reports(venue, m.value, id);
        assert m in seen;
      }
    }
  }

  // When no order names two planned ids, the ids left are exactly those never reported cancelled.
  lemma {:induction false} RemainingIff(venue: Venue, ids: set<string>, seen: seq<Message>, id: string)
    requires id in ids && forall m | m in seen :: NamesOne(venue, m.value, ids)
    ensures id !in RemainingAfter(venue, ids, seen) <==> exists m :: m in seen && Reports(venue, m.value, id)
  {
    if id !in RemainingAfter(venue, ids, seen) {
      RemovedWasReported(venue, ids, seen, id);
    } else if m :| m in seen && Reports(venue, m.value, id) {
      StillThere(venue, ids, seen, id, m);
    }
  }

  lemma {:induction false} StillThere(venue: Venue, ids: set<string>, seen: seq<Message>, id: string, m: Message)
    requires id in ids && forall k | k in seen :: NamesOne(venue, k.value, ids)
    requires m in seen && Reports(venue, m.value, id)
    ensures id !in RemainingAfter(venue, ids, seen)
  {
    var rest, last := seen[..|seen| - 1], seen[|seen| - 1];
    var before := RemainingAfter(venue, ids, rest);
    AfterOrdersShrink(venue, Updates(venue, last.value), before);
    if m in rest {
      StillThere(venue, ids, rest, id, m);
    } else if id in before {
      assert m == last;
      RemainingShrinks(venue, ids, rest);
      var o :| o in Updates(venue, m.value) && id in o.ids && Cancelled(venue, o);
      assert NamesOne(venue, last.value, ids);
      forall p | p in Updates(venue, last.value) ensures OneOf(p.ids, before) {
        assert OneOf(p.ids, ids);
      }
      AfterOrdersComplete(venue, Updates(venue, last.value), before, o, id);
    }
  }

  // As long as the matcher passes over the messages, an id is left; so the message it decides on
  // is the one that completes the set.
  lemma {:induction false} UnmatchedLeavesSome(venue: Venue, ids: set<string>, seen: seq<Message>)
    requires ids != {} && Unmatched(CancelMatcher(venue, ids), seen)
    ensures RemainingAfter(venue, ids, seen) != {}
  {
    if seen != [] {
      var rest, last := seen[..|seen| - 1], seen[|seen| - 1];
      assert forall k | 0 < k <= |rest| :: rest[..k] == seen[..k];
      UnmatchedLeavesSome(venue, ids, rest);
      assert seen[..|seen|] == seen;
      var before := RemainingAfter(venue, ids, rest);
      assert !Completes(venue, last.value, before);
      if venue == Aster && Relevant(venue, last.value) {
        OneUpdate(venue, last.value.orders[0], before);
      }
    }
  }

  lemma OneUpdate(venue: Venue, o: Order, remaining: set<string>)
    ensures AfterOrders(venue, [o], remaining) == AfterOrder(venue, o, remaining)
  {
    assert [o][..0] == [];
  }

  lemma {:induction false} DecidedCompletes(venue: Venue, ids: set<string>, seen: seq<Message>)
    requires ids != {} && Decided(CancelMatcher(venue, ids), seen)
    ensures RemainingAfter(venue, ids, seen) == {} && RemainingAfter(venue, ids, seen[..|seen| - 1]) != {}
  {
    var rest := seen[..|seen| - 1];
    assert forall k | 0 < k <= |rest| :: rest[..k] == seen[..k];
    UnmatchedLeavesSome(venue, ids, rest);
  }

  // The matcher decides on every message that takes the last id away.
  lemma EmptyingDecides(venue: Venue, ids: set<string>, seen: seq<Message>)
    requires seen != [] && RemainingAfter(venue, ids, seen[..|seen| - 1]) != {} && RemainingAfter(venue, ids, seen) == {}
    ensures CancelMatcher(venue, ids)(seen) == Match
  {
    var last, before := seen[|seen| - 1], RemainingAfter(venue, ids, seen[..|seen| - 1]);
    if venue == Aster && Relevant(venue, last.value) {
      OneUpdate(venue, last.value.orders[0], before);
    }
  }

  // ------------------------------------------------------------------ the matchers

  // The closure over `remaining`; shown is every message it was called on.
  class Remaining {
    const venue: Venue
    ghost const ids: set<string>
    ghost var shown: seq<Message>
    var remaining: set<string>

    ghost predicate Valid()
      reads this
    {
      remaining == RemainingAfter(venue, ids, shown)
    }

    constructor (venue: Venue, ids: set<string>)
      ensures Valid() && shown == [] && this.venue == venue && this.ids == ids
    {
      this.venue, this.ids := venue, ids;
      shown, remaining := [], ids;
    }

    // Deletes the ids of the cancelled orders, one update at a time.
    method Delete(orders: seq<Order>)
      modifies this`remaining
      ensures remaining == AfterOrders(venue, orders, old(remaining))
    {
      var i := 0;
      while i < |orders|
        invariant 0 <= i <= |orders|
        invariant remaining == AfterOrders(venue, orders[..i], old(remaining))
      {
        assert orders[..i + 1][..i] == orders[..i];
        var id := FirstMatching(remaining, orders[i].ids);
        if id.Some? && Cancelled(venue, orders[i]) {
          remaining := remaining - {id.value};
        }
        i := i + 1;
      }
      assert orders[..|orders|] == orders;
    }

    method Match(msg: Message) returns (verdict: Verdict)
      requires Valid()
      modifies this
      ensures Valid() && shown == old(shown) + [msg]
      ensures verdict == CancelMatcher(venue, ids)(shown)
    {
      shown := shown + [msg];
      assert shown[..|shown| - 1] == old(shown);
      var v := msg.value;
      if !Relevant(venue, v) {
        return NoMatch;
      }
      if venue == Aster {
        var id := FirstMatching(remaining, v.orders[0].ids);
        OneUpdate(venue, v.orders[0], remaining);
        if id == None {
          return NoMatch;
        }
        if Cancelled(venue, v.orders[0]) {
          remaining := remaining - {id.value};
        }
      } else {
        Delete(v.orders);
      }
      verdict := if remaining == {} then Verdict.Match else NoMatch;
    }
  }

  // ------------------------------------------------------------------ the open-orders poll

  // The planned ids: every non-empty text of the list.
  method IDSet(values: seq<string>) returns (ids: set<string>)
    ensures forall x :: x in ids <==> x in values && x != ""
  {
    ids := {};
    var i := 0;
    while i < |values|
      invariant 0 <= i <= |values|
      invariant forall x :: x in ids <==> x in values[..i] && x != ""
    {
      if values[i] != "" {
        ids := ids + {values[i]};
      }
      i := i + 1;
    }
  }

  datatype VerifyReply = VerifyReply(result: NetResult, ok: bool, error: Option<string>)

  // The open orders, or the error of fetching them, come from outside.
  method VerifyByOpenOrders(open: Result<seq<string>, string>, ids: set<string>, polled: NetResult) returns (r: VerifyReply)
    ensures r.result == polled && r.error == (if open.Err? then Some(open.error) else None)
    ensures r.ok <==> open.Ok? && forall id | id in ids && id != "" :: id !in open.value
  {
    if open.Err? {
      return VerifyReply(polled, false, Some(open.error));
    }
    var cloids := IDSet(open.value);
    var left := ids;
    while left != {}
      invariant left <= ids
      invariant forall id | id in ids && id !in left :: id !in cloids
    {
      var id := Choose(left);
      if id in cloids {
        return VerifyReply(polled, false, None);
      }
      left := left - {id};
    }
    r := VerifyReply(polled, true, None);
  }

  // ------------------------------------------------------------------ the cleanup result

  datatype Submission = Submission(startedAt: int, totalNS: int, bytesRead: nat, wroteRequestAtNS: int, requestWriteNS: int)

  // The time from which messages may confirm the request: when it had been written.
  function Start(s: Submission): int {
    if s.wroteRequestAtNS > 0 then s.startedAt + s.wroteRequestAtNS
    else if s.requestWriteNS > 0 then s.startedAt + s.requestWriteNS
    else s.startedAt
  }

  datatype Confirmed = Unconfirmed | AccountFeed | StatePoll(fallback: string)

  // The note on a cleanup that was tried again; an empty first error is not noted.
  datatype RetryNote = FirstRun | Retried(count: nat, firstError: string)

  datatype Cleanup = Cleanup(
    attempted: bool, ok: bool, preparedNS: int, durationNS: int, sentAt: int, bytesRead: nat,
    error: string, description: string, confirmed: Confirmed, retry: RetryNote)

  // What the network and the classifier said about the cancel request.
  datatype Response = Response(submission: Submission, error: Option<string>, accepted: bool, reason: string)

  method ResultFromNetwork(r: Response, preparedNS: int, description: string, now: int) returns (c: Cleanup)
    ensures c.attempted && c.preparedNS == preparedNS && c.description == description
    ensures c.ok <==> r.error == None && r.accepted
    ensures c.error == if r.error.Some? then r.error.value else if r.accepted then "" else r.reason
    ensures c.sentAt == r.submission.startedAt && c.bytesRead == r.submission.bytesRead && c.confirmed == Unconfirmed
    ensures c.durationNS == if r.submission.totalNS > 0 || r.submission.startedAt == 0 then r.submission.totalNS else now - r.submission.startedAt
    ensures c.retry == FirstRun
  {
    var ok := r.error == None && r.accepted;
    c := Cleanup(true, ok, preparedNS, r.submission.totalNS, r.submission.startedAt, r.submission.bytesRead, "", description, Unconfirmed, FirstRun);
    if c.durationNS <= 0 && r.submission.startedAt != 0 {
      c := c.(durationNS := now - r.submission.startedAt);
    }
    if r.error.Some? {
      c := c.(error := r.error.value);
    } else if !ok {
      c := c.(error := r.reason);
    }
  }

  // A prepared confirmation: what its Wait answers, and its Verify where the venue has one.
  datatype Confirming = Confirming(wait: Reply, verify: Option<VerifyReply>)

  // Times and bytes of a measured result replace those of the cleanup.
  function Timed(c: Cleanup, r: NetResult): Cleanup {
    if r.totalNS > 0 then c.(durationNS := r.totalNS, sentAt := r.startedAt, bytesRead := r.bytesRead) else c
  }

  const CANCEL_CONFIRMATION := "cancel confirmation: "
  const STATE_VERIFICATION := "; state verification: "

  // What a failed confirmation reports: the feed's error, and the poll's where it has one.
  function ConfirmationError(c: Confirming): string
    requires c.wait.error.Some?
  {
    "cancel confirmation: " + c.wait.error.value
    + if c.verify.Some? && c.verify.value.error.Some? then "; state verification: " + c.verify.value.error.value else ""
  }

  // A cleanup ends OK exactly when its request was accepted and, where a confirmation was
  // prepared, the feed confirmed it or a poll after the feed's error did.
  method ResultWithConfirmation(r: Response, preparedNS: int, description: string, now: int, confirmation: Option<Confirming>)
    returns (c: Cleanup)
    ensures c.ok <==>
              && r.error == None && r.accepted
              && (confirmation.Some? && confirmation.value.wait.error.Some? ==>
                    var verify := confirmation.value.verify; verify.Some? && verify.value.error == None && verify.value.ok)
    ensures c.confirmed.AccountFeed? <==> c.ok && confirmation.Some? && confirmation.value.wait.error == None
    ensures c.confirmed.StatePoll? <==> c.ok && confirmation.Some? && confirmation.value.wait.error.Some?
    ensures c.ok && confirmation.Some? && confirmation.value.wait.error == None && confirmation.value.wait.result.totalNS > 0 ==>
              c.durationNS == confirmation.value.wait.result.totalNS && c.sentAt == confirmation.value.wait.result.startedAt
    ensures c.ok && c.confirmed.StatePoll? && confirmation.value.verify.value.result.totalNS > 0 ==>
              c.durationNS == confirmation.value.verify.value.result.totalNS && c.sentAt == confirmation.value.verify.value.result.startedAt
    ensures c.ok && confirmation.Some? && confirmation.value.wait.error == None && confirmation.value.wait.result.totalNS <= 0 ==>
              c.sentAt == r.submission.startedAt && c.bytesRead == r.submission.bytesRead
    ensures c.attempted && c.preparedNS == preparedNS && c.description == description && c.retry == FirstRun
    ensures !c.ok && confirmation.Some? && r.error == None && r.accepted ==> c.error == ConfirmationError(confirmation.value)
    ensures c.ok ==> c.error == ""
  {
    c := ResultFromNetwork(r, preparedNS, description, now);
    if confirmation == None || r.error.Some? || !c.ok {
      return;
    }
    var confirming := confirmation.value;
    c := Timed(c, confirming.wait.result);
    if confirming.wait.error.Some? {
      var failure := confirming.wait.error.value;
      if confirming.verify.Some? {
        var verified := confirming.verify.value;
        c := Timed(c, verified.result);
        if verified.error == None && verified.ok {
          c := c.(confirmed := StatePoll(failure));
          return;
        }
        if verified.error.Some? {
          c := c.(ok := false, error := CANCEL_CONFIRMATION + failure + STATE_VERIFICATION + verified.error.value);
          return;
        }
      }
      c := c.(ok := false, error := CANCEL_CONFIRMATION + failure);
      return;
    }
    c := c.(confirmed := AccountFeed);
  }

  // ------------------------------------------------------------------ end to end

  // A Wait call of a confirmation for the ids: either its matcher decided on the replayed messages
  // before it registered, or it registered as waiter id and took the answer sent to it.
  datatype Waited = Replay(steps: seq<Step>, now: int) | Registered(steps: seq<Step>, id: int)

  ghost predicate Answers(w: Waited, venue: Venue, ids: set<string>, start: int, reply: Reply) {
    match w
    case Replay(steps, now) =>
      var from := StartOf(start, now);
      var seen := Replayed(Run(steps), from, CancelMatcher(venue, ids), now);
      Decided(CancelMatcher(venue, ids), seen) && reply == DecisionReply(Waiter(from, CancelMatcher(venue, ids), seen))
    case Registered(steps, id) =>
      var s := Run(steps);
      && id in s.sent && s.sent[id] == [reply]
      && id in s.registered && s.registered[id].match_ == CancelMatcher(venue, ids)
      && s.registered[id].start == start
  }

  // Every id was reported cancelled by a message that arrived at or after the start, and the last
  // message is the one that completed the set.
  ghost predicate AllReported(venue: Venue, ids: set<string>, start: int, seen: seq<Message>) {
    && (forall id | id in ids :: exists m :: m in seen && m.receivedAt >= start && Reports(venue, m.value, id))
    && seen != [] && RemainingAfter(venue, ids, seen[..|seen| - 1]) != {}
  }

  // What a Wait call was offered: the messages retained when it began, and those dispatched from
  // then to its decision.
  ghost function Offered(w: Waited): seq<Message> {
    match w
    case Replay(steps, now) => Trim(Run(steps).recent, now)
    case Registered(steps, id) =>
      var s := Run(steps);
      if id in s.registered && id in s.decided && s.registered[id].at <= s.decided[id].at <= |s.log| then OfferedTo(s, id) else []
  }

  // Every id was reported from the given time on, and the matcher was shown every message it was
  // offered from that very time on, up to the one that completed the set.
  ghost predicate ConfirmedFrom(w: Waited, venue: Venue, ids: set<string>, from: int, seen: seq<Message>) {
    AllReported(venue, ids, from, seen) && ShownFrom(Offered(w), from, seen)
  }

  // The confirmation counts from when the request had been written, where its trace tells, or from
  // its start.
  ghost predicate ConfirmedAsWritten(s: Submission, w: Waited, venue: Venue, ids: set<string>, seen: seq<Message>) {
    && (s.wroteRequestAtNS > 0 ==> ConfirmedFrom(w, venue, ids, s.startedAt + s.wroteRequestAtNS, seen))
    && (s.wroteRequestAtNS <= 0 < s.requestWriteNS ==> ConfirmedFrom(w, venue, ids, s.startedAt + s.requestWriteNS, seen))
    && (s.wroteRequestAtNS <= 0 && s.requestWriteNS <= 0 ==> ConfirmedFrom(w, venue, ids, s.startedAt, seen))
  }

  // Nothing shown to a waiter arrived before its start.
  lemma ShownSinceStart(s: State, id: int, w: Waiter, n: nat, m: Message)
    requires ShownExactly(s, id, w, n) && m in w.seen
    ensures m.receivedAt >= w.start
  {
    var r := s.registered[id];
    if m in Since(r.retained, w.start) {
      SinceNotBefore(r.retained, w.start, m);
    } else {
      SinceNotBefore(s.log[r.at..n], w.start, m);
    }
  }

  lemma DecidedReportsAll(venue: Venue, ids: set<string>, start: int, seen: seq<Message>)
    requires ids != {} && Decided(CancelMatcher(venue, ids), seen)
    requires forall m | m in seen :: m.receivedAt >= start
    ensures AllReported(venue, ids, start, seen)
  {
    DecidedCompletes(venue, ids, seen);
    forall id | id in ids ensures exists m :: m in seen && m.receivedAt >= start && Reports(venue, m.value, id) {
      RemovedWasReported(venue, ids, seen, id);
    }
  }

  // The messages replayed to a wait whose matcher decides on them.
  lemma ReplayConfirms(kept: seq<Message>, venue: Venue, ids: set<string>, start: int, seen: seq<Message>)
    requires ids != {} && Decided(CancelMatcher(venue, ids), seen) && seen == Shown(CancelMatcher(venue, ids), Since(kept, start))
    ensures AllReported(venue, ids, start, seen) && ShownFrom(kept, start, seen) && seen[|seen| - 1].receivedAt >= start
  {
    ShownPrefix(CancelMatcher(venue, ids), Since(kept, start));
    forall m | m in seen ensures m.receivedAt >= start {
      assert m in Since(kept, start);
      SinceNotBefore(kept, start, m);
    }
    DecidedReportsAll(venue, ids, start, seen);
    PrefixShownFrom(kept, start, seen);
  }

  lemma DecisionConfirms(s: State, id: int, venue: Venue, ids: set<string>)
    requires ids != {} && id in s.decided && DecidedBy(s, id, s.decided[id]) && s.decided[id].waiter.match_ == CancelMatcher(venue, ids)
    ensures var w := s.decided[id].waiter;
            && AllReported(venue, ids, w.start, w.seen) && ShownFrom(OfferedTo(s, id), w.start, w.seen)
            && w.seen[|w.seen| - 1].receivedAt >= w.start
  {
    var w := s.decided[id].waiter;
    forall m | m in w.seen ensures m.receivedAt >= w.start {
      ShownSinceStart(s, id, w, s.decided[id].at, m);
    }
    DecidedReportsAll(venue, ids, w.start, w.seen);
    DecidedShownFrom(s, id);
  }

  lemma DecisionMeasures(w: Waiter)
    requires w.seen != [] && w.start != 0 && w.seen[|w.seen| - 1].receivedAt >= w.start
    ensures Measures(DecisionReply(w), w.start, w.seen[|w.seen| - 1].receivedAt, w.seen[|w.seen| - 1].bytes)
  {
  }

  lemma ReplayedAnswer(kept: seq<Message>, venue: Venue, ids: set<string>, start: int, reply: Reply) returns (seen: seq<Message>)
    requires ids != {} && start != 0
    requires var shown := Shown(CancelMatcher(venue, ids), Since(kept, start));
             Decided(CancelMatcher(venue, ids), shown) && reply == DecisionReply(Waiter(start, CancelMatcher(venue, ids), shown))
    ensures AllReported(venue, ids, start, seen) && ShownFrom(kept, start, seen)
    ensures Measures(reply, start, seen[|seen| - 1].receivedAt, seen[|seen| - 1].bytes)
  {
    seen := Shown(CancelMatcher(venue, ids), Since(kept, start));
    ReplayConfirms(kept, venue, ids, start, seen);
    DecisionMeasures(Waiter(start, CancelMatcher(venue, ids), seen));
  }

  lemma RegisteredAnswer(steps: seq<Step>, id: int, venue: Venue, ids: set<string>, start: int, reply: Reply) returns (seen: seq<Message>)
    requires ids != {} && start != 0 && Answers(Registered(steps, id), venue, ids, start, reply) && reply.error == None
    ensures AllReported(venue, ids, start, seen) && ShownFrom(Offered(Registered(steps, id)), start, seen)
    ensures Measures(reply, start, seen[|seen| - 1].receivedAt, seen[|seen| - 1].bytes)
  {
    var waiter := OkAnswerIsDecision(steps, id, reply);
    seen := waiter.seen;
    AnsweredAtFirstDecision(steps, id);
    DecisionConfirms(Run(steps), id, venue, ids);
    DecisionMeasures(waiter);
  }

  // A Wait that answers without an error was shown messages, none from before its start, that
  // report every planned id cancelled, and answered at the first that completed the set, with the
  // time from the start to that message.
  lemma WaitOkMeansCancelled(w: Waited, venue: Venue, ids: set<string>, start: int, reply: Reply) returns (seen: seq<Message>)
    requires ids != {} && start != 0 && Answers(w, venue, ids, start, reply) && reply.error == None
    ensures ConfirmedFrom(w, venue, ids, start, seen)
    ensures Measures(reply, start, seen[|seen| - 1].receivedAt, seen[|seen| - 1].bytes)
  {
    match w {
      case Replay(steps, now) => seen := ReplayedAnswer(Trim(Run(steps).recent, now), venue, ids, start, reply);
      case Registered(steps, id) => seen := RegisteredAnswer(steps, id, venue, ids, start, reply);
    }
  }

  // The confirmation of a submission: shown every message from when its request had been written.
  lemma SubmissionConfirmed(s: Submission, w: Waited, venue: Venue, ids: set<string>, wait: Reply) returns (seen: seq<Message>)
    requires ids != {} && Start(s) != 0 && wait.error == None && Answers(w, venue, ids, Start(s), wait)
    ensures ConfirmedAsWritten(s, w, venue, ids, seen)
    ensures seen != [] && wait.result.startedAt + wait.result.totalNS == seen[|seen| - 1].receivedAt
  {
    seen := WaitOkMeansCancelled(w, venue, ids, Start(s), wait);
  }

  // A cleanup with a prepared confirmation that ends OK was cancelled in fact: every planned id
  // was reported cancelled by messages received once the request was written, by the network's own
  // times, and no such message was kept from the matcher; or an open-orders poll after the feed's
  // error listed none of them.
  method ConfirmedCleanup(r: Response, preparedNS: int, description: string, now: int, venue: Venue, ids: set<string>,
                          ghost waited: Waited, wait: Reply, open: Result<seq<string>, string>, polled: NetResult)
    returns (c: Cleanup, ghost seen: seq<Message>)
    requires ids != {} && "" !in ids && Start(r.submission) != 0
    requires wait.error == None ==> Answers(waited, venue, ids, Start(r.submission), wait)
    ensures c.ok && c.confirmed.AccountFeed? ==> ConfirmedAsWritten(r.submission, waited, venue, ids, seen)
    ensures c.ok && c.confirmed.AccountFeed? && wait.result.totalNS > 0 ==> seen != [] && c.sentAt + c.durationNS == seen[|seen| - 1].receivedAt
    ensures c.ok && !c.confirmed.AccountFeed? ==> venue == Hyperliquid && open.Ok? && forall id | id in ids :: id !in open.value
    ensures c.ok ==> r.error == None && r.accepted
    ensures r.error == None && r.accepted && !c.ok ==>
              wait.error.Some? && (venue != Hyperliquid || open.Err? || exists id :: id in ids && id in open.value)
  {
    var verify := None;
    if venue == Hyperliquid {
      var v := VerifyByOpenOrders(open, ids, polled);
      verify := Some(v);
    }
    seen := [];
    if wait.error == None {
      seen := SubmissionConfirmed(r.submission, waited, venue, ids, wait);
    }
    c := ResultWithConfirmation(r, preparedNS, description, now, Some(Confirming(wait, verify)));
  }

  // ------------------------------------------------------------------ retries

  function RetryWords(): seq<string> {
    ["nonce_error", "nonce", "timestamp", "device time", "time must match", "recvwindow"]
  }

  predicate Mentions(text: string, words: seq<string>) {
    exists i | 0 <= i < |words| :: Contains(text, words[i])
  }

  predicate Retryable(c: Cleanup) {
    !c.ok && Mentions(Lower(c.error + " " + c.description), RetryWords())
  }

  // A cleanup is tried again exactly when it failed and its error or description has one of these
  // words in whatever letter case; the word nonce_error is covered by nonce.
  lemma RetryableIff(c: Cleanup)
    ensures Retryable(c) <==>
              var text := Lower(c.error + " " + c.description);
              !c.ok && (Has(text, "nonce") || Has(text, "timestamp") || Has(text, "device time") || Has(text, "time must match") || Has(text, "recvwindow"))
  {
    var text := Lower(c.error + " " + c.description);
    NonceCovers(text);
    MentionsIff(text);
  }

  lemma NonceCovers(text: string)
    ensures Has(text, "nonce_error") ==> Has(text, "nonce")
  {
    if a, b :| text == a + "nonce_error" + b {
      assert "nonce_error" == "nonce" + "_error";
      assert text == a + "nonce" + ("_error" + b);
    }
  }

  lemma MentionsIff(text: string)
    ensures Mentions(text, RetryWords()) <==>
              || Has(text, "nonce_error") || Has(text, "nonce") || Has(text, "timestamp")
              || Has(text, "device time") || Has(text, "time must match") || Has(text, "recvwindow")
  {
    var words := RetryWords();
    assert words == ["nonce_error", "nonce", "timestamp", "device time", "time must match", "recvwindow"];
    forall w ensures Contains(text, w) <==> Has(text, w) {
      ContainsIff(text, w);
    }
    assert Mentions(text, words) <==> Contains(text, words[0]) || Contains(text, words[1]) || Contains(text, words[2])
                                      || Contains(text, words[3]) || Contains(text, words[4]) || Contains(text, words[5]);
  }

  // The word stands somewhere in the text.
  ghost predicate Has(text: string, word: string) {
    exists a, b :: text == a + word + b
  }

  // A prepared cleanup is settled already, has nothing to execute, or ends as given when executed.
  datatype Prepared = Settled(result: Cleanup, preparedNS: int) | Idle(preparedNS: int) | Executes(outcome: Cleanup, preparedNS: int)

  function RunPrepared(p: Prepared): Cleanup {
    match p
    case Settled(result, ns) => result.(preparedNS := ns)
    case Idle(ns) => Cleanup(false, true, ns, 0, 0, 0, "", "", Unconfirmed, FirstRun)
    case Executes(outcome, ns) => outcome.(preparedNS := ns)
  }

  function AppendError(current: string, next: string): string {
    if current == "" then next else if next == "" then current else current + "; retry: " + next
  }

  // Two error texts in one, neither lost; an empty one is left out.
  lemma BothTold(current: string, next: string)
    ensures current == "" ==> AppendError(current, next) == next
    ensures next == "" ==> AppendError(current, next) == current
    ensures current != "" && next != "" ==> AppendError(current, next) == current + "; retry: " + next
  {
  }

  // The k-th run of a cleanup: the first execution, then the retries.
  function Attempt(first: Cleanup, again: seq<Result<Prepared, string>>, k: nat): Option<Cleanup>
    requires k <= |again|
  {
    if k == 0 then Some(first)
    else if again[k - 1].Err? then None
    else Some(RunPrepared(again[k - 1].value).(retry := Retried(k, first.error)))
  }

  // A retry ends as it was prepared to, with its number and the first error noted, and the time
  // its own preparation took; one with nothing to execute was not attempted and is OK.
  lemma AttemptIs(first: Cleanup, again: seq<Result<Prepared, string>>, k: nat)
    requires 0 < k <= |again|
    ensures Attempt(first, again, k).Some? <==> again[k - 1].Ok?
    ensures again[k - 1].Ok? ==>
              var c := Attempt(first, again, k).value;
              && c.retry == Retried(k, first.error) && c.preparedNS == again[k - 1].value.preparedNS
              && match again[k - 1].value
                 case Settled(result, _) => c == result.(preparedNS := c.preparedNS, retry := c.retry)
                 case Idle(_) => c.ok && c.error == "" && !c.attempted && c.durationNS == c.sentAt == 0 && c.bytesRead == 0
                 case Executes(outcome, _) => c == outcome.(preparedNS := c.preparedNS, retry := c.retry)
  {
  }

  // again holds what preparing each retry gives, the context's error where it was done by then.
  // ran counts the runs; each but the last failed in a retryable way, and the last is the result.
  method WithRetries(first: Cleanup, again: seq<Result<Prepared, string>>) returns (c: Cleanup, ran: nat)
    requires |again| == 2
    ensures 1 <= ran <= 3
    ensures forall k | 0 <= k < ran - 1 :: Attempt(first, again, k).Some? && Retryable(Attempt(first, again, k).value)
    ensures var last := Attempt(first, again, ran - 1);
            && last.Some? && c.(error := last.value.error) == last.value
            && (c.error == last.value.error || (ran < 3 && again[ran - 1].Err? && c.error == AppendError(last.value.error, again[ran - 1].error)))
            && (ran < 3 ==> !Retryable(last.value) || again[ran - 1].Err?)
            && (!Retryable(last.value) ==> c == last.value)
  {
    c, ran := first, 1;
    if !Retryable(c) {
      return;
    }
    var firstError := c.error;
    var attempt := 1;
    while attempt <= 2
      invariant 1 <= attempt <= 3 && ran == attempt && firstError == first.error
      invariant Attempt(first, again, ran - 1) == Some(c) && Retryable(c)
      invariant forall k | 0 <= k < ran :: Attempt(first, again, k).Some? && Retryable(Attempt(first, again, k).value)
    {
      if again[attempt - 1].Err? {
        c := c.(error := AppendError(c.error, again[attempt - 1].error));
        return;
      }
      c := RunPrepared(again[attempt - 1].value).(retry := Retried(attempt, firstError));
      ran := attempt + 1;
      if !Retryable(c) {
        return;
      }
      attempt := attempt + 1;
    }
  }
}
