// The shared account feed of internal/accountfeed/feed.go as a state machine: one step for each
// critical section of Ensure, Wait, dispatch and fail, one for each answer that Ensure and fail
// send after unlocking, and one for a waiter that takes its answer.  Steps interleave freely.
// Times are nanoseconds and zero stands for the zero time.
module Feed {
  import opened Common

  const RECENT_LIMIT: nat := 1024
  const SECOND: int := 1_000_000_000
  const RECENT_AGE: int := 10 * SECOND
  const AUTH_SKEW: int := 10 * SECOND
  const STALE_AFTER: int := 120 * SECOND

  // The parts of a decoded message that matchers look at.
  datatype Order = Order(ids: seq<string>, status: string, execution: string)

  datatype Value = Value(channel: string, orders: seq<Order>)

  datatype Message = Message(value: Value, bytes: nat, receivedAt: int)

  datatype Verdict = NoMatch | Match | Fail(error: string)

  // A matcher is a closure that may keep state: its verdict on a message depends on the messages
  // it was shown before, and the last message of the sequence is the one judged.
  type Matcher = seq<Message> -> Verdict

  datatype Waiter = Waiter(start: int, match_: Matcher, seen: seq<Message>)

  datatype NetResult = NetResult(startedAt: int, totalNS: int, bytesRead: nat)

  datatype Reply = Reply(result: NetResult, error: Option<string>)

  function FeedNetResult(start: int, finish: int, bytes: nat, now: int): NetResult {
    var from := if start == 0 then finish else start;
    var end := if finish == 0 then now else finish;
    NetResult(from, if end < from then 0 else end - from, bytes)
  }

  // The time measured goes from the start, or from the finish where there is no start, to the
  // finish, or to now where there is no finish; it is never negative.
  lemma MeasuredTime(start: int, finish: int, bytes: nat, now: int)
    ensures var r := FeedNetResult(start, finish, bytes, now);
            && r.bytesRead == bytes && r.totalNS >= 0
            && (start != 0 ==> r.startedAt == start) && (start == 0 ==> r.startedAt == finish)
            && (finish != 0 && finish >= r.startedAt ==> r.startedAt + r.totalNS == finish)
            && (finish == 0 && now >= r.startedAt ==> r.startedAt + r.totalNS == now)
            && ((if finish == 0 then now else finish) < r.startedAt ==> r.totalNS == 0)
  {
  }

  // ------------------------------------------------------------------ the replay buffer

  // The first index from k on whose message is not older than the cutoff.
  function FirstFresh(recent: seq<Message>, cutoff: int, k: nat): (r: nat)
    requires k <= |recent|
    ensures k <= r <= |recent|
    ensures forall i | k <= i < r :: recent[i].receivedAt < cutoff
    ensures r < |recent| ==> recent[r].receivedAt >= cutoff
    decreases |recent| - k
  {
    if k < |recent| && recent[k].receivedAt < cutoff then FirstFresh(recent, cutoff, k + 1) else k
  }

  function Trim(recent: seq<Message>, now: int): seq<Message> {
    recent[FirstFresh(recent, now - RECENT_AGE, if |recent| > RECENT_LIMIT then |recent| - RECENT_LIMIT else 0)..]
  }

  // What is retained are the last messages, at most 1024, none before the first one that is no
  // older than ten seconds.
  lemma TrimKeeps(recent: seq<Message>, now: int)
    ensures var kept := Trim(recent, now);
            && |kept| <= |recent| && kept == recent[|recent| - |kept|..] && |kept| <= 1024
            && (kept != [] ==> kept[0].receivedAt >= now - 10_000_000_000)
            && (|kept| < |recent| && |kept| < 1024 ==> recent[|recent| - |kept| - 1].receivedAt < now - 10_000_000_000)
  {
  }

  function Since(msgs: seq<Message>, start: int): seq<Message> {
    if msgs == [] then []
    else
      var rest := Since(msgs[..|msgs| - 1], start);
      if msgs[|msgs| - 1].receivedAt < start then rest else rest + [msgs[|msgs| - 1]]
  }

  lemma SinceAppend(msgs: seq<Message>, m: Message, start: int)
    ensures Since(msgs + [m], start) == if m.receivedAt < start then Since(msgs, start) else Since(msgs, start) + [m]
  {
    assert (msgs + [m])[..|msgs|] == msgs;
  }

  // The matcher has passed over every message shown to it.
  ghost predicate Unmatched(match_: Matcher, seen: seq<Message>) {
    forall k | 0 < k <= |seen| :: match_(seen[..k]) == NoMatch
  }

  // The last message shown is the first on which the matcher decides.
  ghost predicate Decided(match_: Matcher, seen: seq<Message>) {
    && seen != [] && match_(seen) != NoMatch
    && forall k | 0 < k < |seen| :: match_(seen[..k]) == NoMatch
  }

  // How far a matcher is shown the messages: up to the first on which it decides.
  function Shown(match_: Matcher, msgs: seq<Message>): seq<Message> {
    if msgs == [] then []
    else
      var before := Shown(match_, msgs[..|msgs| - 1]);
      if before != [] && match_(before) != NoMatch then before else before + [msgs[|msgs| - 1]]
  }

  lemma {:induction false} ShownPrefix(match_: Matcher, msgs: seq<Message>)
    ensures var s := Shown(match_, msgs);
            s <= msgs && (Decided(match_, s) || (s == msgs && Unmatched(match_, s)))
  {
    if msgs != [] {
      var init := msgs[..|msgs| - 1];
      ShownPrefix(match_, init);
      ShownOne(match_, init, Shown(match_, init), msgs[|msgs| - 1], msgs);
    }
  }

  // One message more, after what was shown of those before it.
  lemma ShownOne(match_: Matcher, init: seq<Message>, before: seq<Message>, m: Message, msgs: seq<Message>)
    requires msgs == init + [m] && before <= init
    requires Decided(match_, before) || (before == init && Unmatched(match_, before))
    ensures var s := if before != [] && match_(before) != NoMatch then before else before + [m];
            s <= msgs && (Decided(match_, s) || (s == msgs && Unmatched(match_, s)))
  {
    if !Decided(match_, before) {
      if before != [] {
        assert before[..|before|] == before;
      }
      ShownMore(match_, before, m);
    }
  }

  lemma ShownMore(match_: Matcher, seen: seq<Message>, m: Message)
    requires Unmatched(match_, seen)
    ensures Unmatched(match_, seen + [m]) || Decided(match_, seen + [m])
  {
    var more := seen + [m];
    assert more[..|more|] == more;
    forall k | 0 < k <= |seen| ensures match_(more[..k]) == NoMatch {
      assert more[..k] == seen[..k];
    }
  }

  // ------------------------------------------------------------------ the state

  // What a waiter registered with, how many messages had been dispatched by then and which of
  // them were still retained.
  datatype Registration = Registration(start: int, match_: Matcher, at: nat, retained: seq<Message>)

  // A waiter decided by a message, with everything it was shown, and the messages dispatched by then.
  datatype Decision = Decision(waiter: Waiter, at: nat)

  datatype Owed = Owed(start: int, error: string)

  // client to nextID are the fields of the feed.  owed holds the waiters that Ensure or fail took
  // out and have still to answer; sent what was sent on each waiter's channel; received the
  // channels whose answer was taken; open the Wait calls still in their select, by start.  The rest
  // is history: every dispatched message, the latest trimming time, registrations and decisions.
  datatype State = State(
    client: Option<int>, authUntil: int, dialKey: string, lastRead: int,
    waiters: map<int, Waiter>, recent: seq<Message>, nextID: int,
    owed: map<int, Owed>, sent: map<int, seq<Reply>>, received: set<int>, open: map<int, int>,
    log: seq<Message>, trimmedAt: int, registered: map<int, Registration>, decided: map<int, Decision>)

  const START := State(None, 0, "", 0, map[], [], 0, map[], map[], {}, map[], [], 0, map[], map[])

  datatype Step =
    | Install(newClient: int, auth: int, key: string, now: int)
    | Register(start: int, match_: Matcher, now: int)
    | Dispatch(msg: Message)
    | Lose(oldClient: int, error: string)
    | Answer(id: int, now: int)
    | Timeout(id: int, now: int)
    | Receive(id: int)

  function Owing(waiters: map<int, Waiter>, error: string): map<int, Owed> {
    map id | id in waiters :: Owed(waiters[id].start, error)
  }

  // Ensure's critical section after a successful dial: every waiter is taken out to be answered.
  function DoInstall(s: State, client: int, auth: int, key: string, now: int): State {
    s.(client := Some(client), authUntil := auth, dialKey := key, lastRead := now,
       waiters := map[], owed := s.owed + Owing(s.waiters, "reconnecting"))
  }

  // What a Wait call is shown before it registers.
  function Replayed(s: State, start: int, match_: Matcher, now: int): seq<Message> {
    Shown(match_, Since(Trim(s.recent, now), start))
  }

  function StartOf(start: int, now: int): int {
    if start == 0 then now else start
  }

  function Trimmed(s: State, now: int): State {
    s.(recent := Trim(s.recent, now), trimmedAt := Max(s.trimmedAt, now))
  }

  function Enrolled(s: State, w: Waiter): State {
    s.(waiters := s.waiters[s.nextID := w], nextID := s.nextID + 1,
       sent := s.sent[s.nextID := []], open := s.open[s.nextID := w.start],
       registered := s.registered[s.nextID := Registration(w.start, w.match_, |s.log|, s.recent)])
  }

  function DoRegister(s: State, start0: int, match_: Matcher, now: int): State {
    var start := StartOf(start0, now);
    RegisterShown(s, Waiter(start, match_, Replayed(s, start, match_, now)), now)
  }

  // The rest of Wait's critical section, for a waiter already shown the retained messages.
  function RegisterShown(s: State, w: Waiter, now: int): State {
    if w.seen != [] && w.match_(w.seen) != NoMatch then Trimmed(s, now) else Enrolled(Trimmed(s, now), w)
  }

  function Shows(w: Waiter, msg: Message): Waiter {
    if msg.receivedAt < w.start then w else w.(seen := w.seen + [msg])
  }

  predicate Decides(w: Waiter, msg: Message) {
    msg.receivedAt >= w.start && w.match_(w.seen + [msg]) != NoMatch
  }

  function ReplyTo(w: Waiter, msg: Message): Reply {
    var v := w.match_(w.seen + [msg]);
    Reply(FeedNetResult(w.start, msg.receivedAt, msg.bytes, msg.receivedAt), if v.Fail? then Some(v.error) else None)
  }

  // The waiters that stay registered, and what was sent on every channel, after a message.
  function Remaining(waiters: map<int, Waiter>, msg: Message): map<int, Waiter> {
    map id | id in waiters && !Decides(waiters[id], msg) :: Shows(waiters[id], msg)
  }

  function Answered(sent: map<int, seq<Reply>>, waiters: map<int, Waiter>, msg: Message): map<int, seq<Reply>> {
    map id | id in sent ::
      if id in waiters && Decides(waiters[id], msg) then sent[id] + [ReplyTo(waiters[id], msg)] else sent[id]
  }

  function Decisions(waiters: map<int, Waiter>, msg: Message, at: nat): map<int, Decision> {
    map id | id in waiters && Decides(waiters[id], msg) :: Decision(Shows(waiters[id], msg), at)
  }

  function DoDispatch(s: State, msg: Message): State {
    s.(recent := Trim(s.recent + [msg], msg.receivedAt), lastRead := msg.receivedAt,
       waiters := Remaining(s.waiters, msg), sent := Answered(s.sent, s.waiters, msg),
       log := s.log + [msg], trimmedAt := Max(s.trimmedAt, msg.receivedAt),
       decided := s.decided + Decisions(s.waiters, msg, |s.log| + 1))
  }

  // fail: only the reader of the current client takes the waiters out.
  function DoLose(s: State, client: int, error: string): State {
    if s.client != Some(client) then s
    else s.(client := None, authUntil := 0, lastRead := 0, waiters := map[], owed := s.owed + Owing(s.waiters, error))
  }

  function DoAnswer(s: State, id: int, now: int): State {
    if id in s.owed && id in s.sent then
      s.(owed := s.owed - {id},
         sent := s.sent[id := s.sent[id] + [Reply(FeedNetResult(s.owed[id].start, now, 0, now), Some(s.owed[id].error))]])
    else s
  }

  predicate Stale(s: State, start: int, now: int) {
    StaleRead(s.lastRead, start, now)
  }

  // Nothing was read since the start, or for two minutes.
  predicate StaleRead(lastRead: int, start: int, now: int) {
    var last := if lastRead == 0 then start else lastRead;
    last < start || now - last > STALE_AFTER
  }

  function Invalidated(s: State, start: int, now: int): State {
    if s.client.None? || !Stale(s, start, now) then s
    else s.(client := None, authUntil := 0, lastRead := 0)
  }

  // A Wait call whose context ended unregisters and may invalidate the client, and nothing else.
  function DoTimeout(s: State, id: int, now: int): State {
    if id !in s.open then s else Invalidated(Unregistered(s, id), s.open[id], now)
  }

  function Unregistered(s: State, id: int): State {
    s.(waiters := s.waiters - {id}, open := s.open - {id})
  }

  function Buffered(s: State, id: int): seq<Reply> {
    if id !in s.sent then [] else if id in s.received && s.sent[id] != [] then s.sent[id][1..] else s.sent[id]
  }

  function DoReceive(s: State, id: int): State {
    if id in s.open && Buffered(s, id) != [] then s.(received := s.received + {id}, open := s.open - {id}) else s
  }

  function Do(s: State, step: Step): State {
    match step
    case Install(client, auth, key, now) => DoInstall(s, client, auth, key, now)
    case Register(start, match_, now) => DoRegister(s, start, match_, now)
    case Dispatch(msg) => DoDispatch(s, msg)
    case Lose(client, error) => DoLose(s, client, error)
    case Answer(id, now) => DoAnswer(s, id, now)
    case Timeout(id, now) => DoTimeout(s, id, now)
    case Receive(id) => DoReceive(s, id)
  }

  function Run(steps: seq<Step>): State {
    if steps == [] then START else Do(Run(steps[..|steps| - 1]), steps[|steps| - 1])
  }

  // ------------------------------------------------------------------ answers and channels

  // The identifiers below nextID are those given so far.
  ghost predicate IdsUsed(s: State) {
    s.nextID >= 0 && forall id :: id in s.sent <==> 0 <= id < s.nextID
  }

  // A waiter is registered, or its answer is owed, or it was answered once, or its call gave up.
  ghost predicate Channels(s: State) {
    && IdsUsed(s)
    && s.waiters.Keys <= s.open.Keys <= s.sent.Keys
    && s.owed.Keys <= s.sent.Keys && s.received <= s.sent.Keys
    && s.waiters.Keys !! s.owed.Keys && s.open.Keys !! s.received
    && (forall id | id in s.waiters :: s.sent[id] == [] && s.open[id] == s.waiters[id].start)
    && (forall id | id in s.owed :: s.sent[id] == [])
    && (forall id | id in s.sent :: |s.sent[id]| <= 1)
    && (forall id | id in s.received :: |s.sent[id]| == 1)
    && (forall id | id in s.open :: id in s.waiters || id in s.owed || s.sent[id] != [])
  }

  lemma ChannelsDispatch(s: State, msg: Message)
    requires Channels(s)
    ensures Channels(DoDispatch(s, msg))
  {
    var t := DoDispatch(s, msg);
    assert t.sent.Keys == s.sent.Keys;
    forall id | id in t.open ensures id in t.waiters || id in t.owed || t.sent[id] != [] {
    }
  }

  lemma ChannelsEnrolled(s: State, w: Waiter)
    requires Channels(s)
    ensures Channels(Enrolled(s, w))
  {
    assert s.nextID !in s.open && s.nextID !in s.owed && s.nextID !in s.received;
  }

  // Channels depends on these fields only.
  lemma ChannelsFrame(s: State, t: State)
    requires Channels(s)
    requires t.nextID == s.nextID && t.waiters == s.waiters && t.owed == s.owed
    requires t.sent == s.sent && t.received == s.received && t.open == s.open
    ensures Channels(t)
  {
  }

  lemma ChannelsRegister(s: State, start: int, match_: Matcher, now: int)
    requires Channels(s)
    ensures Channels(DoRegister(s, start, match_, now))
  {
    ChannelsFrame(s, Trimmed(s, now));
    ChannelsEnrolled(Trimmed(s, now), Waiter(StartOf(start, now), match_, Replayed(s, StartOf(start, now), match_, now)));
  }

  lemma ChannelsTimeout(s: State, id: int, now: int)
    requires Channels(s)
    ensures Channels(DoTimeout(s, id, now))
  {
    var t := Unregistered(s, id);
    assert Channels(t);
    if id in s.open {
      ChannelsFrame(t, DoTimeout(s, id, now));
    }
  }

  lemma ChannelsReceive(s: State, id: int)
    requires Channels(s)
    ensures Channels(DoReceive(s, id))
  {
  }

  lemma ChannelsAnswer(s: State, id: int, now: int)
    requires Channels(s)
    ensures Channels(DoAnswer(s, id, now))
  {
  }

  lemma ChannelsTakenOut(s: State, error: string, t: State)
    requires Channels(s)
    requires t.waiters == map[] && t.owed == s.owed + Owing(s.waiters, error)
    requires t.nextID == s.nextID && t.sent == s.sent && t.received == s.received && t.open == s.open
    ensures Channels(t)
  {
  }

  lemma ChannelsKept(s: State, step: Step)
    requires Channels(s)
    ensures Channels(Do(s, step))
  {
    match step {
      case Install(client, auth, key, now) => ChannelsTakenOut(s, "reconnecting", Do(s, step));
      case Register(start, match_, now) => ChannelsRegister(s, start, match_, now);
      case Dispatch(msg) => ChannelsDispatch(s, msg);
      case Lose(client, error) => if s.client == Some(client) { ChannelsTakenOut(s, error, Do(s, step)); }
      case Answer(id, now) => ChannelsAnswer(s, id, now);
      case Timeout(id, now) => ChannelsTimeout(s, id, now);
      case Receive(id) => ChannelsReceive(s, id);
    }
  }

  lemma {:induction false} ChannelsReachable(steps: seq<Step>)
    ensures Channels(Run(steps))
  {
    if steps != [] {
      ChannelsReachable(steps[..|steps| - 1]);
      ChannelsKept(Run(steps[..|steps| - 1]), steps[|steps| - 1]);
    }
  }

  // No send ever blocks on a channel of capacity one: whenever an answer is owed, and whenever a
  // message decides a waiter under the lock, that waiter's channel is empty.  No waiter is ever
  // sent two answers.
  lemma {:induction false} SendsNeverBlock(steps: seq<Step>)
    ensures var s := Run(steps);
            && (forall id | id in s.owed :: id in s.sent && s.sent[id] == [])
            && (forall id | id in s.waiters :: id in s.sent && s.sent[id] == [])
            && (forall id | id in s.sent :: |s.sent[id]| <= 1)
  {
    ChannelsReachable(steps);
  }

  // The identifier given to a new waiter was never given before and is never given again.
  lemma IdsNeverReused(steps: seq<Step>, more: seq<Step>)
    ensures Run(steps).nextID !in Run(steps).sent
    ensures Grows(Run(steps), Run(steps + more))
  {
    IdsUsedReachable(steps);
    RunGrows(steps, more);
  }

  lemma IdsUsedReachable(steps: seq<Step>)
    ensures IdsUsed(Run(steps))
  {
    ChannelsReachable(steps);
  }

  lemma RunLast(steps: seq<Step>, more: seq<Step>, n: nat)
    requires |more| == n + 1
    ensures Run(steps + more) == Do(Run(steps + more[..n]), more[n])
  {
    assert (steps + more)[..|steps + more| - 1] == steps + more[..n];
  }

  lemma {:induction false} RunGrows(steps: seq<Step>, more: seq<Step>)
    ensures Grows(Run(steps), Run(steps + more))
  {
    if more == [] {
      assert steps + more == steps;
    } else {
      var n := |more| - 1;
      RunGrows(steps, more[..n]);
      RunLast(steps, more, n);
      IdsUsedReachable(steps + more[..n]);
      SentGrows(Run(steps + more[..n]), more[n]);
      GrowsOn(Run(steps), Run(steps + more[..n]), Run(steps + more));
    }
  }

  lemma GrowsOn(s: State, t: State, u: State)
    requires Grows(s, t) && Grows(t, u)
    ensures Grows(s, u)
  {
    forall id | id in s.sent ensures id in u.sent && s.sent[id] <= u.sent[id] {
      assert id in t.sent && s.sent[id] <= t.sent[id];
    }
  }

  ghost predicate Grows(s: State, t: State) {
    t.nextID >= s.nextID && forall id | id in s.sent :: id in t.sent && s.sent[id] <= t.sent[id]
  }

  lemma EnrolledGrows(s: State, w: Waiter)
    requires IdsUsed(s)
    ensures Grows(s, Enrolled(s, w))
  {
  }

  lemma DispatchGrows(s: State, msg: Message)
    ensures Grows(s, DoDispatch(s, msg))
  {
  }

  lemma AnswerGrows(s: State, id: int, now: int)
    ensures Grows(s, DoAnswer(s, id, now))
  {
  }

  lemma SentGrows(s: State, step: Step)
    requires IdsUsed(s)
    ensures Grows(s, Do(s, step))
  {
    match step {
      case Register(start0, match_, now) =>
        var start := StartOf(start0, now);
        EnrolledGrows(Trimmed(s, now), Waiter(start, match_, Replayed(s, start, match_, now)));
      case Dispatch(msg) => DispatchGrows(s, msg);
      case Answer(id, now) => AnswerGrows(s, id, now);
      case _ => assert Do(s, step).nextID == s.nextID && Do(s, step).sent == s.sent;
    }
  }

  // ------------------------------------------------------------------ lost connections

  lemma RunNext(steps: seq<Step>, step: Step)
    ensures Run(steps + [step]) == Do(Run(steps), step)
  {
    assert (steps + [step])[..|steps|] == steps;
  }

  // The waiter has been told the error, or is about to be.
  ghost predicate Told(s: State, id: int, error: string) {
    || (id in s.owed && s.owed[id].error == error)
    || (id in s.sent && |s.sent[id]| == 1 && s.sent[id][0].error == Some(error))
  }

  ghost predicate Waiting(s: State, id: int) {
    id in s.waiters && id in s.sent && s.sent[id] == [] && id !in s.owed
  }

  lemma ToldStep(s: State, step: Step, id: int, error: string)
    requires Channels(s) && Told(s, id, error)
    ensures Told(Do(s, step), id, error)
  {
    match step {
      case Register(start0, match_, now) =>
        assert id != s.nextID;
        var start := StartOf(start0, now);
        assert Told(Enrolled(Trimmed(s, now), Waiter(start, match_, Replayed(s, start, match_, now))), id, error);
      case Dispatch(msg) => assert id !in s.waiters;
      case Answer(n, now) => ToldByAnswer(s, n, now, id, error);
      case Install(client, auth, key, now) => ToldTakenOut(s, DoInstall(s, client, auth, key, now), "reconnecting", id, error);
      case Lose(client, lost) => if s.client == Some(client) { ToldTakenOut(s, DoLose(s, client, lost), lost, id, error); }
      case Timeout(_, _) =>
      case Receive(_) =>
    }
  }

  lemma ToldTakenOut(s: State, t: State, lost: string, id: int, error: string)
    requires Channels(s) && Told(s, id, error) && t.owed == s.owed + Owing(s.waiters, lost) && t.sent == s.sent
    ensures Told(t, id, error)
  {
    assert id in s.owed ==> id !in s.waiters;
  }

  lemma ToldByAnswer(s: State, n: int, now: int, id: int, error: string)
    requires Channels(s) && Told(s, id, error)
    ensures Told(DoAnswer(s, n, now), id, error)
  {
    if n == id && id in s.owed {
      assert s.sent[id] == [];
    }
  }

  // What a waiter is told it stays told, in every continuation.
  lemma {:induction false} ToldStays(steps: seq<Step>, more: seq<Step>, id: int, error: string)
    requires Told(Run(steps), id, error)
    ensures Told(Run(steps + more), id, error)
  {
    if more == [] {
      assert steps + more == steps;
    } else {
      var n := |more| - 1;
      ToldStays(steps, more[..n], id, error);
      RunLast(steps, more, n);
      ChannelsReachable(steps + more[..n]);
      ToldStep(Run(steps + more[..n]), more[n], id, error);
    }
  }

  // The step neither takes waiters out nor shows them a message nor is the waiter's own giving up.
  predicate Quiet(step: Step, id: int) {
    !step.Install? && !step.Lose? && !step.Dispatch? && !(step.Timeout? && step.id == id)
  }

  lemma WaitingStep(s: State, step: Step, id: int)
    requires Channels(s) && Waiting(s, id) && Quiet(step, id)
    ensures Waiting(Do(s, step), id)
  {
    match step {
      case Register(start0, match_, now) =>
        var start := StartOf(start0, now);
        assert Waiting(Enrolled(Trimmed(s, now), Waiter(start, match_, Replayed(s, start, match_, now))), id);
      case _ =>
    }
  }

  lemma {:induction false} WaitingStays(steps: seq<Step>, more: seq<Step>, id: int)
    requires Waiting(Run(steps), id) && forall i | 0 <= i < |more| :: Quiet(more[i], id)
    ensures Waiting(Run(steps + more), id)
  {
    if more == [] {
      assert steps + more == steps;
    } else {
      var n := |more| - 1;
      WaitingStays(steps, more[..n], id);
      RunLast(steps, more, n);
      ChannelsReachable(steps + more[..n]);
      WaitingStep(Run(steps + more[..n]), more[n], id);
    }
  }

  lemma RegisteredIsWaiting(steps: seq<Step>, id: int)
    requires id in Run(steps).waiters
    ensures Waiting(Run(steps), id)
  {
    ChannelsReachable(steps);
  }

  // In every run and every quiet continuation: the failure of a reader's connection tells a waiter
  // its error exactly when its client was the current one; otherwise the waiter waits on.
  lemma {:induction false} LoseAnswersIff(steps: seq<Step>, client: int, error: string, more: seq<Step>, id: int)
    requires id in Run(steps).waiters && forall i | 0 <= i < |more| :: Quiet(more[i], id)
    ensures var t := Run(steps + [Lose(client, error)] + more);
            if Run(steps).client == Some(client) then Told(t, id, error) else Waiting(t, id) && !Told(t, id, error)
  {
    RegisteredIsWaiting(steps, id);
    RunNext(steps, Lose(client, error));
    if Run(steps).client == Some(client) {
      ToldStays(steps + [Lose(client, error)], more, id, error);
    } else {
      WaitingStays(steps + [Lose(client, error)], more, id);
    }
  }

  // A reconnect tells every waiter to start over, in every continuation.
  lemma {:induction false} ReconnectTellsAll(steps: seq<Step>, client: int, auth: int, key: string, now: int, more: seq<Step>, id: int)
    requires id in Run(steps).waiters
    ensures Told(Run(steps + [Install(client, auth, key, now)] + more), id, "reconnecting")
  {
    RunNext(steps, Install(client, auth, key, now));
    ToldStays(steps + [Install(client, auth, key, now)], more, id, "reconnecting");
  }

  // The step neither reconnects nor is the waiter's own giving up.
  predicate Leaves(step: Step, id: int) {
    !step.Install? && !(step.Timeout? && step.id == id)
  }

  // There is no client, and the waiter waits, or a message it was shown decided it.
  ghost predicate Stranded(s: State, id: int) {
    s.client.None? && (Waiting(s, id) || id in s.decided)
  }

  lemma StrandedStep(s: State, step: Step, id: int)
    requires Channels(s) && Stranded(s, id) && Leaves(step, id)
    ensures Stranded(Do(s, step), id)
  {
    if step.Dispatch? {
      StrandedDispatch(s, step.msg, id);
    } else if step.Lose? {
      assert Do(s, step) == s;
    } else {
      ClientDropped(s, step);
      if Waiting(s, id) {
        WaitingStep(s, step, id);
      }
    }
  }

  lemma StrandedDispatch(s: State, msg: Message, id: int)
    requires Channels(s) && Stranded(s, id)
    ensures Stranded(DoDispatch(s, msg), id)
  {
    if Waiting(s, id) && !Decides(s.waiters[id], msg) {
      assert id in Remaining(s.waiters, msg);
      assert Answered(s.sent, s.waiters, msg)[id] == s.sent[id];
    }
  }

  lemma ClientDropped(s: State, step: Step)
    requires s.client.None? && !step.Install? && !step.Dispatch?
    ensures Do(s, step).client.None? && Do(s, step).decided == s.decided
  {
  }

  // Once the client is dropped, a registered waiter is answered by nothing but a message its
  // matcher decides on: until a reconnect or its own timeout it stays registered with an empty
  // channel, whatever connections are lost, unless an old reader dispatches such a message.
  lemma {:induction false} StrandedUntilReconnect(steps: seq<Step>, more: seq<Step>, id: int)
    requires Run(steps).client.None? && id in Run(steps).waiters && forall i | 0 <= i < |more| :: Leaves(more[i], id)
    ensures Stranded(Run(steps + more), id)
    ensures (forall i | 0 <= i < |more| :: !more[i].Dispatch?) ==> Waiting(Run(steps + more), id)
  {
    if more == [] {
      assert steps + more == steps;
      RegisteredIsWaiting(steps, id);
    } else {
      var n := |more| - 1;
      StrandedUntilReconnect(steps, more[..n], id);
      RunLast(steps, more, n);
      ChannelsReachable(steps + more[..n]);
      StrandedStep(Run(steps + more[..n]), more[n], id);
      StillWaiting(Run(steps + more[..n]), more[n], id);
    }
  }

  lemma StillWaiting(s: State, step: Step, id: int)
    requires Channels(s) && s.client.None? && Leaves(step, id)
    ensures Waiting(s, id) && !step.Dispatch? ==> Waiting(Do(s, step), id)
  {
    if Waiting(s, id) && !step.Dispatch? {
      if step.Lose? {
        assert Do(s, step) == s;
      } else {
        WaitingStep(s, step, id);
      }
    }
  }

  ghost predicate Connected(s: State, waiters: nat) {
    && |s.recent| == 0 && s.nextID == waiters && s.client == Some(7) && s.lastRead == 10 && s.owed == map[]
    && (waiters > 0 ==> Waiting(s, 0))
  }

  lemma ConnectedFirst(steps: seq<Step>)
    requires |steps| == 1 && steps[0] == Install(7, 0, "", 10)
    ensures Connected(Run(steps), 0)
  {
    assert Run(steps[..0]) == START;
    assert Owing(map[], "reconnecting") == map[];
  }

  predicate WaitFrom(step: Step, start: int) {
    step.Register? && step.start == step.now == start
  }

  lemma ConnectedNext(s: State, step: Step, start: int, t: State)
    requires Connected(s, 0) && WaitFrom(step, start) && start != 0 && t == Do(s, step)
    ensures Connected(t, 1)
  {
    var w := EnterEmpty(s, start, step.match_, start);
    EnterUnshown(s, w, start);
    FirstEnters(s, w, Trim(s.recent, start), t);
  }

  lemma ConnectedTwice(s: State, step: Step, start: int, t: State)
    requires Connected(s, 1) && WaitFrom(step, start) && start != 0 && t == Do(s, step)
    ensures t.client == Some(7) && t.lastRead == 10 && Waiting(t, 0) && 1 in t.open && t.open[1] == start
  {
    var w := EnterEmpty(s, start, step.match_, start);
    EnterUnshown(s, w, start);
    SecondEnters(s, w, Trim(s.recent, start), t);
  }

  // Two waits begin after the last message was read; one times out and drops the client, whose
  // reader then fails: the other waiter is told nothing.
  lemma StrandedHappens(match_: Matcher, error: string, a: seq<Step>, b: seq<Step>, c: seq<Step>, steps: seq<Step>)
    requires |a| == 1 && a[0] == Install(7, 0, "", 10)
    requires b == a + [Register(20, match_, 20)] && c == b + [Register(20, match_, 20)]
    requires steps == c + [Timeout(1, 30), Lose(7, error)]
    ensures Run(steps).client.None? && Waiting(Run(steps), 0) && !Told(Run(steps), 0, error)
  {
    ConnectedFirst(a);
    RunNext(a, Register(20, match_, 20));
    ConnectedNext(Run(a), Register(20, match_, 20), 20, Run(b));
    RunNext(b, Register(20, match_, 20));
    ConnectedTwice(Run(b), Register(20, match_, 20), 20, Run(c));
    RunTwo(steps, c, Timeout(1, 30), Lose(7, error));
    OtherTimesOut(Run(c), error);
  }

  lemma RunTwo(steps: seq<Step>, before: seq<Step>, first: Step, second: Step)
    requires steps == before + [first, second]
    ensures Run(steps) == Do(Do(Run(before), first), second)
  {
    RunNext(before, first);
    RunNext(before + [first], second);
    assert before + [first] + [second] == steps;
  }

  lemma NothingReplayed(recent: seq<Message>, start: int, match_: Matcher, now: int)
    requires |recent| == 0
    ensures |Trim(recent, now)| == 0 && |Shown(match_, Since(Trim(recent, now), start))| == 0
  {
  }

  // What the state keeps and gains when a waiter registers.
  ghost predicate Registers(s: State, w: Waiter, recent: seq<Message>, t: State) {
    && t.recent == recent && t.nextID == s.nextID + 1
    && t.client == s.client && t.lastRead == s.lastRead && t.owed == s.owed
    && t.sent == s.sent[s.nextID := []] && t.open == s.open[s.nextID := w.start] && t.waiters == s.waiters[s.nextID := w]
  }

  // A waiter that was shown nothing registers.
  lemma EnterUnshown(s: State, w: Waiter, now: int)
    requires |w.seen| == 0
    ensures Registers(s, w, Trim(s.recent, now), RegisterShown(s, w, now))
  {
  }

  lemma RegisterIs(s: State, start: int, match_: Matcher, now: int, seen: seq<Message>)
    requires start != 0 && seen == Replayed(s, start, match_, now)
    ensures Do(s, Register(start, match_, now)) == RegisterShown(s, Waiter(start, match_, seen), now)
  {
  }

  lemma ReplayedNothing(s: State, start: int, match_: Matcher, now: int) returns (seen: seq<Message>)
    requires |s.recent| == 0
    ensures seen == Replayed(s, start, match_, now) && |seen| == 0 && |Trim(s.recent, now)| == 0
  {
    NothingReplayed(s.recent, start, match_, now);
    seen := Replayed(s, start, match_, now);
  }

  lemma EnterEmpty(s: State, start: int, match_: Matcher, now: int) returns (w: Waiter)
    requires |s.recent| == 0 && start != 0
    ensures |w.seen| == 0 && w.start == start && Do(s, Register(start, match_, now)) == RegisterShown(s, w, now)
    ensures |Trim(s.recent, now)| == 0
  {
    var seen := ReplayedNothing(s, start, match_, now);
    RegisterIs(s, start, match_, now, seen);
    w := Waiter(start, match_, seen);
  }

  lemma FirstEnters(s: State, w: Waiter, recent: seq<Message>, t: State)
    requires Registers(s, w, recent, t) && |recent| == 0 && Connected(s, 0)
    ensures Connected(t, 1)
  {
  }

  lemma SecondEnters(s: State, w: Waiter, recent: seq<Message>, t: State)
    requires Registers(s, w, recent, t) && Connected(s, 1)
    ensures t.client == Some(7) && t.lastRead == 10 && Waiting(t, 0) && 1 in t.open && t.open[1] == w.start
  {
  }

  lemma OtherTimesOut(s: State, error: string)
    requires s.client == Some(7) && s.lastRead == 10 && Waiting(s, 0) && 1 in s.open && s.open[1] == 20
    ensures var t := Do(Do(s, Timeout(1, 30)), Lose(7, error)); t.client.None? && Waiting(t, 0) && !Told(t, 0, error)
  {
  }

  lemma TimeoutDrops(s: State, id: int, now: int, other: int)
    requires Channels(s) && id in s.open && s.client.Some? && other in s.waiters && other != id
    ensures var t := Do(s, Timeout(id, now)); other in t.waiters && (t.client == if Stale(s, s.open[id], now) then None else s.client)
  {
  }

  // The wait that times out finds the connection stale exactly when the last read, or its own start
  // where nothing was read, lies before its start or more than two minutes back.
  lemma StaleIff(s: State, start: int, now: int)
    ensures Stale(s, start, now) <==>
              (s.lastRead != 0 && (s.lastRead < start || now > s.lastRead + 120_000_000_000))
              || (s.lastRead == 0 && now > start + 120_000_000_000)
  {
  }

  // In every run and every quiet continuation: one waiter times out and the reader then fails.
  // Another waiter is told of the failure exactly when the timed-out wait did not drop the client,
  // which it does when nothing was read since that wait began or for two minutes.
  lemma {:induction false} StaleLeavesWaiters(steps: seq<Step>, id: int, now: int, client: int, error: string, more: seq<Step>, other: int)
    requires Run(steps).client == Some(client) && id in Run(steps).open && other in Run(steps).waiters && other != id
    requires forall i | 0 <= i < |more| :: Quiet(more[i], other)
    ensures var t := Run(steps + [Timeout(id, now)] + [Lose(client, error)] + more);
            if Stale(Run(steps), Run(steps).open[id], now) then Waiting(t, other) && !Told(t, other, error) else Told(t, other, error)
  {
    ChannelsReachable(steps);
    TimeoutDrops(Run(steps), id, now, other);
    RunNext(steps, Timeout(id, now));
    LoseAnswersIff(steps + [Timeout(id, now)], client, error, more, other);
  }

  // A reader's failure leaves no trace of its connection but the answers due, and none at all when
  // its client is not the current one.
  lemma LoseClears(s: State, client: int, error: string)
    ensures var t := Do(s, Lose(client, error));
            if s.client != Some(client) then t == s
            else
              && t.client == None && t.authUntil == t.lastRead == 0 && t.waiters == map[] && t.dialKey == s.dialKey
              && (forall id | id in s.waiters :: id in t.owed && t.owed[id] == Owed(s.waiters[id].start, error))
              && t.recent == s.recent && t.sent == s.sent && t.open == s.open && t.nextID == s.nextID
  {
  }

  // A Wait call takes the one answer on its channel, and is then over.
  lemma ReceiveTakes(s: State, id: int)
    requires Channels(s)
    ensures var t := Do(s, Receive(id));
            if id in s.open && s.sent[id] != [] then t.received == s.received + {id} && t.open == s.open - {id} && Buffered(t, id) == []
            else t == s
  {
  }

  // A reconnect takes every waiter out, those of a dropped client too.
  lemma InstallAnswersAll(s: State, client: int, auth: int, key: string, now: int)
    requires Channels(s)
    ensures var t := Do(s, Install(client, auth, key, now));
            t.waiters == map[] && (forall id | id in s.waiters :: id in t.owed && id in t.open && t.sent[id] == [])
  {
  }

  // ------------------------------------------------------------------ what a matcher is shown

  // The replay buffer is the end of the dispatch log, and what it lacks was pushed out by 1024
  // later messages or had become ten seconds old.
  ghost predicate Buffer(s: State) {
    && |s.recent| <= |s.log|
    && s.recent == s.log[|s.log| - |s.recent|..]
    && (forall j | 0 <= j < |s.log| - |s.recent| ::
          |s.log| - j > RECENT_LIMIT || s.log[j].receivedAt < s.trimmedAt - RECENT_AGE)
  }

  lemma TrimIsSuffix(recent: seq<Message>, now: int, j: nat)
    requires j < |recent| - |Trim(recent, now)|
    ensures |recent| - j > RECENT_LIMIT || recent[j].receivedAt < now - RECENT_AGE
  {
  }

  lemma TrimBuffer(log: seq<Message>, recent: seq<Message>, trimmedAt: int, now: int)
    requires |recent| <= |log| && recent == log[|log| - |recent|..]
    requires forall j | 0 <= j < |log| - |recent| :: |log| - j > RECENT_LIMIT || log[j].receivedAt < trimmedAt - RECENT_AGE
    ensures var kept := Trim(recent, now);
            && |kept| <= |log| && kept == log[|log| - |kept|..]
            && forall j | 0 <= j < |log| - |kept| ::
                 |log| - j > RECENT_LIMIT || log[j].receivedAt < Max(trimmedAt, now) - RECENT_AGE
  {
    var kept := Trim(recent, now);
    var d := |log| - |recent|;
    forall j | 0 <= j < |log| - |kept|
      ensures |log| - j > RECENT_LIMIT || log[j].receivedAt < Max(trimmedAt, now) - RECENT_AGE
    {
      if j >= d {
        TrimIsSuffix(recent, now, j - d);
        assert recent[j - d] == log[j];
      }
    }
  }

  // w was shown, in order and once each, the retained messages since its start and then the
  // dispatched ones up to the n-th since its start.
  ghost predicate ShownExactly(s: State, id: int, w: Waiter, n: nat) {
    && id in s.registered && s.registered[id].at <= n <= |s.log|
    && w.start == s.registered[id].start && w.match_ == s.registered[id].match_
    && w.seen == Since(s.registered[id].retained, w.start) + Since(s.log[s.registered[id].at..n], w.start)
  }

  ghost predicate History(s: State) {
    Buffer(s) && AllRetained(s) && AllShown(s) && AllDecided(s)
  }

  ghost predicate AllRetained(s: State) {
    s.registered.Keys == s.sent.Keys && forall id | id in s.registered :: Retention(s, s.registered[id])
  }

  ghost predicate AllShown(s: State) {
    forall id | id in s.waiters :: StillUnmatched(s, id, s.waiters[id])
  }

  ghost predicate StillUnmatched(s: State, id: int, w: Waiter) {
    ShownExactly(s, id, w, |s.log|) && Unmatched(w.match_, w.seen)
  }

  ghost predicate AllDecided(s: State) {
    forall id | id in s.decided :: DecidedBy(s, id, s.decided[id])
  }

  ghost predicate Retention(s: State, r: Registration) {
    r.at <= |s.log| && |r.retained| <= r.at && r.retained == s.log[r.at - |r.retained|..r.at]
  }

  // The answer sent is the one for the newest message dispatched at the time of the decision, the
  // first on which the matcher decided.
  ghost predicate DecidedBy(s: State, id: int, d: Decision) {
    && ShownExactly(s, id, d.waiter, d.at) && Decided(d.waiter.match_, d.waiter.seen)
    && s.registered[id].at < d.at
    && d.waiter.seen[|d.waiter.seen| - 1] == s.log[d.at - 1] && s.log[d.at - 1].receivedAt >= d.waiter.start
    && id in s.sent && s.sent[id] == [DecisionReply(d.waiter)]
  }

  function DecisionReply(w: Waiter): Reply
    requires w.seen != []
  {
    var msg := w.seen[|w.seen| - 1];
    var v := w.match_(w.seen);
    Reply(FeedNetResult(w.start, msg.receivedAt, msg.bytes, msg.receivedAt), if v.Fail? then Some(v.error) else None)
  }

  lemma SinceSlice(log: seq<Message>, msg: Message, at: nat, start: int)
    requires at <= |log|
    ensures Since((log + [msg])[at..], start) == if msg.receivedAt < start then Since(log[at..], start) else Since(log[at..], start) + [msg]
  {
    assert (log + [msg])[at..] == log[at..] + [msg];
    SinceAppend(log[at..], msg, start);
  }

  lemma StillUnmatchedKept(s: State, t: State, id: int)
    requires id in s.waiters && StillUnmatched(s, id, s.waiters[id])
    requires s.log == t.log && id in t.registered && t.registered[id] == s.registered[id]
    ensures StillUnmatched(t, id, s.waiters[id])
  {
    ShownExactlyKept(s, t, id, s.waiters[id], |s.log|);
  }

  lemma EnrolledRetained(s: State, w: Waiter)
    requires Buffer(s) && AllRetained(s)
    ensures AllRetained(Enrolled(s, w))
  {
    var t := Enrolled(s, w);
    forall id | id in t.registered ensures Retention(t, t.registered[id]) {
      if id in s.registered && id != s.nextID {
        RetentionKept(s, t, s.registered[id]);
      } else {
        assert s.log[..|s.log|] == s.log;
      }
    }
  }

  lemma EnrolledShown(s: State, w: Waiter)
    requires Channels(s) && AllRetained(s) && AllShown(s)
    requires w.seen == Since(s.recent, w.start) && Unmatched(w.match_, w.seen)
    ensures AllShown(Enrolled(s, w))
  {
    var t := Enrolled(s, w);
    assert s.log[|s.log|..|s.log|] == [];
    forall id | id in t.waiters ensures StillUnmatched(t, id, t.waiters[id]) {
      if id != s.nextID {
        StillUnmatchedKept(s, t, id);
      }
    }
  }

  lemma EnrolledDecided(s: State, w: Waiter)
    requires Channels(s) && AllDecided(s)
    ensures AllDecided(Enrolled(s, w))
  {
    var t := Enrolled(s, w);
    forall id | id in t.decided ensures DecidedBy(t, id, t.decided[id]) {
      assert DecidedBy(s, id, s.decided[id]);
      DecidedKept(s, t, id);
    }
  }

  lemma HistoryTrimmed(s: State, now: int)
    requires History(s)
    ensures History(Trimmed(s, now))
  {
    TrimBuffer(s.log, s.recent, s.trimmedAt, now);
    assert OnlyFewer(s, Trimmed(s, now));
    HistoryFewer(s, Trimmed(s, now));
  }

  lemma HistoryEnrolled(s: State, w: Waiter)
    requires Channels(s) && History(s)
    requires w.seen == Since(s.recent, w.start) && Unmatched(w.match_, w.seen)
    ensures History(Enrolled(s, w))
  {
    EnrolledRetained(s, w);
    EnrolledShown(s, w);
    EnrolledDecided(s, w);
    assert Buffer(Enrolled(s, w));
  }

  lemma HistoryRegister(s: State, start0: int, match_: Matcher, now: int)
    requires Channels(s) && History(s)
    ensures History(DoRegister(s, start0, match_, now))
  {
    HistoryTrimmed(s, now);
    ChannelsFrame(s, Trimmed(s, now));
    var start := StartOf(start0, now);
    var seen := Replayed(s, start, match_, now);
    ShownPrefix(match_, Since(Trimmed(s, now).recent, start));
    if seen == [] || match_(seen) == NoMatch {
      HistoryEnrolled(Trimmed(s, now), Waiter(start, match_, seen));
    }
  }

  lemma UnmatchedMore(match_: Matcher, seen: seq<Message>, m: Message)
    requires Unmatched(match_, seen) && match_(seen + [m]) == NoMatch
    ensures Unmatched(match_, seen + [m])
  {
    ShownMore(match_, seen, m);
  }

  lemma DecidedNow(match_: Matcher, seen: seq<Message>, m: Message)
    requires Unmatched(match_, seen) && match_(seen + [m]) != NoMatch
    ensures Decided(match_, seen + [m])
  {
    ShownMore(match_, seen, m);
    assert (seen + [m])[..|seen| + 1] == seen + [m];
  }

  lemma ShownExactlyNext(s: State, t: State, id: int, w: Waiter, msg: Message)
    requires ShownExactly(s, id, w, |s.log|)
    requires t.log == s.log + [msg] && t.registered == s.registered
    ensures ShownExactly(t, id, Shows(w, msg), |t.log|)
  {
    SinceNext(s.log, msg, t.log, s.registered[id].at, w, Since(s.registered[id].retained, w.start));
  }

  lemma SinceNext(log: seq<Message>, msg: Message, more: seq<Message>, at: nat, w: Waiter, retained: seq<Message>)
    requires at <= |log| && more == log + [msg] && w.seen == retained + Since(log[at..|log|], w.start)
    ensures Shows(w, msg).seen == retained + Since(more[at..|more|], w.start)
  {
    SinceSlice(log, msg, at, w.start);
    assert more[at..|more|] == more[at..] && log[at..|log|] == log[at..];
  }

  lemma ShownExactlyKept(s: State, t: State, id: int, w: Waiter, n: nat)
    requires ShownExactly(s, id, w, n)
    requires s.log <= t.log && id in t.registered && t.registered[id] == s.registered[id]
    ensures ShownExactly(t, id, w, n)
  {
    assert t.log[s.registered[id].at..n] == s.log[s.registered[id].at..n];
  }

  lemma DispatchRetained(s: State, msg: Message)
    requires AllRetained(s)
    ensures AllRetained(DoDispatch(s, msg))
  {
    var t := DoDispatch(s, msg);
    forall id | id in t.registered ensures Retention(t, t.registered[id]) {
      RetentionKept(s, t, s.registered[id]);
    }
  }

  lemma DispatchShown(s: State, msg: Message)
    requires AllShown(s)
    ensures AllShown(DoDispatch(s, msg))
  {
    var t := DoDispatch(s, msg);
    forall id | id in t.waiters ensures StillUnmatched(t, id, t.waiters[id]) {
      StillUnmatchedDispatch(s, t, id, msg);
    }
  }

  lemma DispatchDecided(s: State, msg: Message)
    requires Channels(s) && AllShown(s) && AllDecided(s)
    ensures AllDecided(DoDispatch(s, msg))
  {
    var t := DoDispatch(s, msg);
    forall id | id in t.decided ensures DecidedBy(t, id, t.decided[id]) {
      if id in s.waiters && Decides(s.waiters[id], msg) {
        DecidedDispatch(s, id, msg);
      } else {
        assert DecidedBy(s, id, s.decided[id]);
        DecidedKept(s, t, id);
      }
    }
  }

  lemma StillUnmatchedDispatch(s: State, t: State, id: int, msg: Message)
    requires id in s.waiters && StillUnmatched(s, id, s.waiters[id]) && !Decides(s.waiters[id], msg)
    requires t.log == s.log + [msg] && t.registered == s.registered
    ensures StillUnmatched(t, id, Shows(s.waiters[id], msg))
  {
    var w := s.waiters[id];
    ShownExactlyNext(s, t, id, w, msg);
    if msg.receivedAt >= w.start {
      UnmatchedMore(w.match_, w.seen, msg);
    }
  }

  lemma DecidedDispatch(s: State, id: int, msg: Message)
    requires Channels(s) && id in s.waiters && StillUnmatched(s, id, s.waiters[id]) && Decides(s.waiters[id], msg)
    ensures var t := DoDispatch(s, msg);
            id in t.decided && DecidedBy(t, id, t.decided[id])
  {
    var t := DoDispatch(s, msg);
    var w := s.waiters[id];
    ShownExactlyNext(s, t, id, w, msg);
    AnswerIs(s, id, msg);
    DecidedHere(t, id, w, msg);
  }

  lemma AnswerIs(s: State, id: int, msg: Message)
    requires Channels(s) && id in s.waiters && Decides(s.waiters[id], msg)
    ensures var t, w := DoDispatch(s, msg), s.waiters[id];
            && id in t.sent && t.sent[id] == [DecisionReply(Shows(w, msg))]
            && id in t.decided && t.decided[id] == Decision(Shows(w, msg), |t.log|)
  {
    assert s.sent[id] + [ReplyTo(s.waiters[id], msg)] == [ReplyTo(s.waiters[id], msg)];
  }

  lemma DecidedHere(t: State, id: int, w: Waiter, msg: Message)
    requires Decides(w, msg) && Unmatched(w.match_, w.seen) && ShownExactly(t, id, Shows(w, msg), |t.log|)
    requires t.log != [] && t.log[|t.log| - 1] == msg && t.registered[id].at < |t.log|
    requires id in t.sent && t.sent[id] == [DecisionReply(Shows(w, msg))]
    ensures DecidedBy(t, id, Decision(Shows(w, msg), |t.log|))
  {
    DecidedNow(w.match_, w.seen, msg);
  }

  lemma RetentionKept(s: State, t: State, r: Registration)
    requires Retention(s, r) && s.log <= t.log
    ensures Retention(t, r)
  {
    assert t.log[r.at - |r.retained|..r.at] == s.log[r.at - |r.retained|..r.at];
  }

  lemma DecidedKept(s: State, t: State, id: int)
    requires id in s.decided && DecidedBy(s, id, s.decided[id])
    requires s.log <= t.log && id in t.registered && t.registered[id] == s.registered[id]
    requires id in t.sent && t.sent[id] == s.sent[id]
    ensures DecidedBy(t, id, s.decided[id])
  {
    ShownExactlyKept(s, t, id, s.decided[id].waiter, s.decided[id].at);
  }

  lemma BufferDispatch(s: State, msg: Message)
    requires Buffer(s)
    ensures Buffer(DoDispatch(s, msg))
  {
    var log, recent := s.log + [msg], s.recent + [msg];
    assert recent == log[|log| - |recent|..];
    TrimBuffer(log, recent, s.trimmedAt, msg.receivedAt);
  }

  lemma HistoryKept(s: State, step: Step)
    requires Channels(s) && History(s)
    ensures History(Do(s, step))
  {
    match step {
      case Register(start, match_, now) => HistoryRegister(s, start, match_, now);
      case Dispatch(msg) =>
        BufferDispatch(s, msg);
        DispatchRetained(s, msg);
        DispatchShown(s, msg);
        DispatchDecided(s, msg);
      case _ =>
        OtherSteps(s, step);
        BufferUntouched(s, step);
        HistoryFewer(s, Do(s, step));
    }
  }

  // t differs from s in that some waiters may be gone and some undecided ones answered.
  ghost predicate OnlyFewer(s: State, t: State) {
    && t.log == s.log
    && t.registered == s.registered && t.decided == s.decided && t.sent.Keys == s.sent.Keys
    && (forall id | id in t.waiters :: id in s.waiters && t.waiters[id] == s.waiters[id])
    && (forall id | id in s.decided && id in s.sent && s.sent[id] != [] :: t.sent[id] == s.sent[id])
  }

  lemma FewerTakenOut(s: State, t: State)
    requires t.waiters == map[] && t.sent == s.sent
    requires t.log == s.log && t.registered == s.registered && t.decided == s.decided
    ensures OnlyFewer(s, t)
  {
  }

  lemma FewerAnswer(s: State, id: int, now: int)
    requires Channels(s)
    ensures OnlyFewer(s, DoAnswer(s, id, now))
  {
  }

  lemma FewerTimeout(s: State, id: int, now: int)
    ensures OnlyFewer(s, DoTimeout(s, id, now))
  {
  }

  lemma OtherSteps(s: State, step: Step)
    requires Channels(s) && !step.Register? && !step.Dispatch?
    ensures OnlyFewer(s, Do(s, step))
  {
    match step {
      case Install(client, auth, key, now) => FewerTakenOut(s, DoInstall(s, client, auth, key, now));
      case Lose(client, error) => if s.client == Some(client) { FewerTakenOut(s, DoLose(s, client, error)); }
      case Answer(id, now) => FewerAnswer(s, id, now);
      case Timeout(id, now) => FewerTimeout(s, id, now);
      case Receive(id) =>
    }
  }

  lemma BufferUntouched(s: State, step: Step)
    requires !step.Register? && !step.Dispatch?
    ensures Do(s, step).recent == s.recent && Do(s, step).trimmedAt == s.trimmedAt && Do(s, step).log == s.log
  {
  }

  lemma HistoryFewer(s: State, t: State)
    requires History(s) && OnlyFewer(s, t)
    ensures AllRetained(t) && AllShown(t) && AllDecided(t)
  {
    forall id | id in t.waiters ensures StillUnmatched(t, id, t.waiters[id]) {
      StillUnmatchedKept(s, t, id);
    }
    forall id | id in t.decided ensures DecidedBy(t, id, t.decided[id]) {
      assert DecidedBy(s, id, s.decided[id]);
      DecidedKept(s, t, id);
    }
    forall id | id in t.registered ensures Retention(t, t.registered[id]) {
      assert Retention(s, s.registered[id]);
    }
  }

  lemma {:induction false} HistoryReachable(steps: seq<Step>)
    ensures History(Run(steps))
  {
    if steps != [] {
      HistoryReachable(steps[..|steps| - 1]);
      ChannelsReachable(steps[..|steps| - 1]);
      HistoryKept(Run(steps[..|steps| - 1]), steps[|steps| - 1]);
    }
  }

  // No message falls between replay and registration: until it is answered, a waiter's matcher
  // has been shown exactly the messages retained at registration and then every message
  // dispatched since, in order, all not older than its start, and has decided on none.
  lemma {:induction false} WaiterShownEverything(steps: seq<Step>)
    ensures AllShown(Run(steps))
  {
    HistoryReachable(steps);
  }

  // A waiter decided by a message was answered at the first message on which its matcher decided,
  // with that message's arrival and verdict.
  lemma {:induction false} AnsweredAtFirstDecision(steps: seq<Step>, id: int)
    requires id in Run(steps).decided
    ensures DecidedBy(Run(steps), id, Run(steps).decided[id])
  {
    HistoryReachable(steps);
  }

  // The measured times of a reply: it counts from start to finish and the bytes given.
  ghost predicate Measures(r: Reply, start: int, finish: int, bytes: nat) {
    r.result.startedAt == start && start + r.result.totalNS == finish && r.result.bytesRead == bytes
  }

  // In every run the one answer of a decided waiter measures the time from its start to the
  // arrival of the message that decided it, and that message's bytes; its error is the failure of
  // its matcher on that message, or none.
  lemma {:induction false} AnswerMeasures(steps: seq<Step>, id: int)
    requires id in Run(steps).decided && Run(steps).decided[id].waiter.start != 0
    ensures var s, d := Run(steps), Run(steps).decided[id];
            && 1 <= d.at <= |s.log| && id in s.sent && |s.sent[id]| == 1
            && Measures(s.sent[id][0], d.waiter.start, s.log[d.at - 1].receivedAt, s.log[d.at - 1].bytes)
            && (s.sent[id][0].error == None <==> d.waiter.match_(d.waiter.seen) == Match)
            && (s.sent[id][0].error.Some? ==> d.waiter.match_(d.waiter.seen) == Fail(s.sent[id][0].error.value))
  {
    AnsweredAtFirstDecision(steps, id);
    DecisionMeasured(Run(steps), id, Run(steps).decided[id]);
  }

  lemma DecisionMeasured(s: State, id: int, d: Decision)
    requires DecidedBy(s, id, d) && d.waiter.start != 0
    ensures 1 <= d.at <= |s.log| && id in s.sent && |s.sent[id]| == 1
    ensures Measures(s.sent[id][0], d.waiter.start, s.log[d.at - 1].receivedAt, s.log[d.at - 1].bytes)
    ensures s.sent[id][0].error == None <==> d.waiter.match_(d.waiter.seen) == Match
    ensures s.sent[id][0].error.Some? ==> d.waiter.match_(d.waiter.seen) == Fail(s.sent[id][0].error.value)
  {
  }

  // Only a message that decides a waiter answers it without an error.
  ghost predicate OkDecided(s: State) {
    forall id | id in s.sent && s.sent[id] != [] && s.sent[id][0].error == None :: id in s.decided
  }

  lemma OkDecidedKept(s: State, step: Step)
    requires OkDecided(s)
    ensures OkDecided(Do(s, step))
  {
    match step {
      case Register(start0, match_, now) =>
        var start := StartOf(start0, now);
        OkDecidedEnrolled(Trimmed(s, now), Waiter(start, match_, Replayed(s, start, match_, now)));
      case Dispatch(msg) => OkDecidedDispatch(s, msg);
      case Answer(id, now) => OkDecidedAnswer(s, id, now);
      case _ => assert Do(s, step).sent == s.sent && Do(s, step).decided == s.decided;
    }
  }

  lemma OkDecidedEnrolled(s: State, w: Waiter)
    requires OkDecided(s)
    ensures OkDecided(Enrolled(s, w))
  {
  }

  lemma OkDecidedDispatch(s: State, msg: Message)
    requires OkDecided(s)
    ensures OkDecided(DoDispatch(s, msg))
  {
    var t := DoDispatch(s, msg);
    forall id | id in t.sent && t.sent[id] != [] && t.sent[id][0].error == None ensures id in t.decided {
      if !(id in s.waiters && Decides(s.waiters[id], msg)) {
        assert t.sent[id] == s.sent[id];
      }
    }
  }

  lemma OkDecidedAnswer(s: State, id: int, now: int)
    requires OkDecided(s)
    ensures OkDecided(DoAnswer(s, id, now))
  {
  }

  lemma {:induction false} OkDecidedReachable(steps: seq<Step>)
    ensures OkDecided(Run(steps))
  {
    if steps != [] {
      OkDecidedReachable(steps[..|steps| - 1]);
      OkDecidedKept(Run(steps[..|steps| - 1]), steps[|steps| - 1]);
    }
  }

  // An answer sent after a failure or a reconnect measures the time from the waiter's start to the
  // sending, and carries the error it was owed.
  lemma FailureMeasures(steps: seq<Step>, id: int, now: int)
    requires id in Run(steps).owed && Run(steps).owed[id].start != 0 && now >= Run(steps).owed[id].start
    ensures var s, t := Run(steps), Run(steps + [Answer(id, now)]);
            && id !in t.owed && id in t.sent && |t.sent[id]| == 1
            && Measures(t.sent[id][0], s.owed[id].start, now, 0) && t.sent[id][0].error == Some(s.owed[id].error)
  {
    ChannelsReachable(steps);
    RunNext(steps, Answer(id, now));
  }

  // An answer without an error comes from the first message on which the waiter's own matcher
  // decided, among the messages since its own start.
  lemma {:induction false} OkAnswerIsDecision(steps: seq<Step>, id: int, reply: Reply) returns (w: Waiter)
    requires var s := Run(steps); id in s.sent && s.sent[id] == [reply] && reply.error == None
    ensures var s := Run(steps);
            && id in s.registered && w.match_ == s.registered[id].match_ && w.start == s.registered[id].start
            && Decided(w.match_, w.seen) && reply == DecisionReply(w)
            && id in s.decided && w == s.decided[id].waiter && ShownExactly(s, id, w, s.decided[id].at)
  {
    OkDecidedReachable(steps);
    HistoryReachable(steps);
    var s := Run(steps);
    assert DecidedBy(s, id, s.decided[id]);
    w := s.decided[id].waiter;
  }

  lemma {:induction false} SinceNotBefore(msgs: seq<Message>, start: int, m: Message)
    requires m in Since(msgs, start)
    ensures m.receivedAt >= start && m in msgs
  {
    if msgs != [] {
      if msgs[|msgs| - 1].receivedAt < start || m != msgs[|msgs| - 1] {
        SinceNotBefore(msgs[..|msgs| - 1], start, m);
      }
    }
  }

  // What a wait is shown of the messages are those not older than its start.
  lemma {:induction false} SinceMembers(msgs: seq<Message>, start: int, m: Message)
    ensures m in Since(msgs, start) <==> m in msgs && m.receivedAt >= start
  {
    if msgs != [] {
      SinceMembers(msgs[..|msgs| - 1], start, m);
      assert m in msgs <==> m in msgs[..|msgs| - 1] || m == msgs[|msgs| - 1];
    }
  }

  // A prefix of what is shown of some messages is what is shown of their first n.
  lemma {:induction false} SincePart(msgs: seq<Message>, start: int, part: seq<Message>) returns (n: nat)
    requires part != [] && part <= Since(msgs, start)
    ensures 0 < n <= |msgs| && msgs[n - 1] == part[|part| - 1] && part == Since(msgs[..n], start)
  {
    var k := |msgs| - 1;
    if part == Since(msgs, start) && msgs[k].receivedAt >= start {
      n := k + 1;
      assert msgs[..n] == msgs;
    } else {
      n := SincePart(msgs[..k], start, part);
      assert msgs[..k][..n] == msgs[..n];
    }
  }

  // seen holds exactly the messages offered from the start on, up to the one it ends with.
  ghost predicate ShownFrom(offered: seq<Message>, start: int, seen: seq<Message>) {
    seen != [] && exists n :: UpTo(offered, start, seen, n)
  }

  ghost predicate UpTo(offered: seq<Message>, start: int, seen: seq<Message>, n: nat) {
    && 0 < n <= |offered| && seen != [] && offered[n - 1] == seen[|seen| - 1]
    && forall m :: m in seen <==> m in offered[..n] && m.receivedAt >= start
  }

  lemma PrefixShownFrom(offered: seq<Message>, start: int, seen: seq<Message>)
    requires seen != [] && seen <= Since(offered, start)
    ensures ShownFrom(offered, start, seen)
  {
    var n := SincePart(offered, start, seen);
    forall m ensures m in seen <==> m in offered[..n] && m.receivedAt >= start {
      SinceMembers(offered[..n], start, m);
    }
    assert UpTo(offered, start, seen, n);
  }

  // What a decided waiter was offered: the messages retained when it registered and those
  // dispatched from then to its decision.
  ghost function OfferedTo(s: State, id: int): seq<Message>
    requires id in s.registered && id in s.decided && s.registered[id].at <= s.decided[id].at <= |s.log|
  {
    s.registered[id].retained + s.log[s.registered[id].at..s.decided[id].at]
  }

  lemma DecidedShownFrom(s: State, id: int)
    requires id in s.decided && DecidedBy(s, id, s.decided[id])
    ensures ShownFrom(OfferedTo(s, id), s.decided[id].waiter.start, s.decided[id].waiter.seen)
  {
    var d, r := s.decided[id], s.registered[id];
    var later := s.log[r.at..d.at];
    assert later[|later| - 1] == s.log[d.at - 1];
    forall m ensures m in d.waiter.seen <==> m in OfferedTo(s, id) && m.receivedAt >= d.waiter.start {
      SinceMembers(r.retained, d.waiter.start, m);
      SinceMembers(later, d.waiter.start, m);
    }
    var offered := OfferedTo(s, id);
    assert offered[..|offered|] == offered;
    assert UpTo(offered, d.waiter.start, d.waiter.seen, |offered|);
  }

  // A message that arrived at or after the start of a new wait, which began no more than ten
  // seconds before it registers, is still retained when fewer than 1024 messages followed it.
  lemma {:induction false} NothingMissed(steps: seq<Step>, start: int, now: int, i: nat)
    requires i < |Run(steps).log| && Run(steps).log[i].receivedAt >= start
    requires start >= now - 10_000_000_000 && Run(steps).trimmedAt <= now
    requires |Run(steps).log| - i <= 1024
    ensures var s := Run(steps);
            var kept := Trim(s.recent, now);
            |kept| <= |s.log| && i >= |s.log| - |kept| && kept[i - (|s.log| - |kept|)] == s.log[i]
  {
    HistoryReachable(steps);
    var s := Run(steps);
    TrimBuffer(s.log, s.recent, s.trimmedAt, now);
  }

  // ------------------------------------------------------------------ the feed object

  lemma {:induction false} ShownStops(match_: Matcher, msgs: seq<Message>, i: nat)
    requires i <= |msgs| && Decided(match_, Shown(match_, msgs[..i]))
    ensures Shown(match_, msgs) == Shown(match_, msgs[..i])
  {
    if i == |msgs| {
      assert msgs[..i] == msgs;
    } else {
      assert msgs[..|msgs| - 1][..i] == msgs[..i];
      ShownStops(match_, msgs[..|msgs| - 1], i);
    }
  }

  lemma {:induction false} SincePrefix(msgs: seq<Message>, start: int, i: nat)
    requires i <= |msgs|
    ensures Since(msgs[..i], start) <= Since(msgs, start)
  {
    if i == |msgs| {
      assert msgs[..i] == msgs;
    } else {
      assert msgs[..|msgs| - 1][..i] == msgs[..i];
      SincePrefix(msgs[..|msgs| - 1], start, i);
    }
  }

  // A decision on the first i messages is the decision on all of them.
  lemma DecisionStands(match_: Matcher, msgs: seq<Message>, start: int, i: nat)
    requires i <= |msgs| && Decided(match_, Shown(match_, Since(msgs[..i], start)))
    ensures Shown(match_, Since(msgs, start)) == Shown(match_, Since(msgs[..i], start))
  {
    SincePrefix(msgs, start, i);
    var all, some := Since(msgs, start), Since(msgs[..i], start);
    assert all[..|some|] == some;
    ShownStops(match_, all, |some|);
  }

  lemma RegisterCases(s: State, start0: int, match_: Matcher, now: int)
    ensures var start, t := StartOf(start0, now), DoRegister(s, start0, match_, now);
            var seen := Replayed(s, start, match_, now);
            && (Decided(match_, seen) <==> seen != [] && match_(seen) != NoMatch)
            && (if Decided(match_, seen) then t == Trimmed(s, now) else t == Enrolled(Trimmed(s, now), Waiter(start, match_, seen)))
  {
    var seen := Replayed(s, StartOf(start0, now), match_, now);
    ShownPrefix(match_, Since(Trim(s.recent, now), StartOf(start0, now)));
    assert seen[..|seen|] == seen;
  }

  lemma Dispatched(s: State, msg: Message) returns (t: State)
    ensures t == DoDispatch(s, msg)
    ensures t.recent == Trim(s.recent + [msg], msg.receivedAt) && t.lastRead == msg.receivedAt
    ensures t.waiters == Remaining(s.waiters, msg) && t.sent == Answered(s.sent, s.waiters, msg)
    ensures t.client == s.client && t.authUntil == s.authUntil && t.dialKey == s.dialKey && t.nextID == s.nextID
  {
    t := DoDispatch(s, msg);
  }

  lemma TimeoutIs(s: State, id: int, now: int)
    requires id in s.open
    ensures DoTimeout(s, id, now) == Invalidated(Unregistered(s, id), s.open[id], now)
  {
  }

  lemma InvalidatedIs(s: State, start: int, now: int)
    ensures Invalidated(s, start, now)
         == if s.client.Some? && StaleRead(s.lastRead, start, now) then s.(client := None, authUntil := 0, lastRead := 0) else s
  {
  }

  lemma RemainingIs(waiters: map<int, Waiter>, msg: Message, t: map<int, Waiter>)
    requires forall id :: id in t <==> id in waiters && !Decides(waiters[id], msg)
    requires forall id | id in t :: t[id] == Shows(waiters[id], msg)
    ensures t == Remaining(waiters, msg)
  {
    var r := Remaining(waiters, msg);
    assert forall id :: id in t <==> id in r;
    assert forall id | id in t :: t[id] == r[id];
  }

  lemma AnsweredIs(sent: map<int, seq<Reply>>, waiters: map<int, Waiter>, msg: Message, t: map<int, seq<Reply>>)
    requires t.Keys == sent.Keys
    requires forall id | id in sent ::
               t[id] == if id in waiters && Decides(waiters[id], msg) then sent[id] + [ReplyTo(waiters[id], msg)] else sent[id]
    ensures t == Answered(sent, waiters, msg)
  {
    var r := Answered(sent, waiters, msg);
    assert forall id :: id in t <==> id in r;
    assert forall id | id in t :: t[id] == r[id];
  }

  // The waiters still in ids have not been shown the message yet.
  ghost predicate Halfway(before: map<int, Waiter>, sent: map<int, seq<Reply>>, ids: set<int>, msg: Message,
                          waiters: map<int, Waiter>, channels: map<int, seq<Reply>>) {
    && ids <= before.Keys && channels.Keys == sent.Keys
    && (forall id | id in before :: id in sent && sent[id] == [])
    && (forall id :: id in waiters <==> id in before && (id in ids || !Decides(before[id], msg)))
    && (forall id | id in waiters :: waiters[id] == if id in ids then before[id] else Shows(before[id], msg))
    && (forall id | id in sent ::
          channels[id] == if id in before && id !in ids && Decides(before[id], msg) then sent[id] + [ReplyTo(before[id], msg)] else sent[id])
  }

  lemma HalfwayNext(before: map<int, Waiter>, sent: map<int, seq<Reply>>, ids: set<int>, msg: Message,
                    waiters: map<int, Waiter>, channels: map<int, seq<Reply>>, id: int)
    requires Halfway(before, sent, ids, msg, waiters, channels) && id in ids
    ensures id in waiters && id in channels && channels[id] == []
    ensures Decides(waiters[id], msg) ==>
              Halfway(before, sent, ids - {id}, msg, waiters - {id}, channels[id := [ReplyTo(waiters[id], msg)]])
    ensures !Decides(waiters[id], msg) ==> Halfway(before, sent, ids - {id}, msg, waiters[id := Shows(waiters[id], msg)], channels)
  {
    var reply := ReplyTo(before[id], msg);
    assert [] + [reply] == [reply];
  }

  lemma ShownAppend(match_: Matcher, msgs: seq<Message>, m: Message)
    requires Unmatched(match_, Shown(match_, msgs))
    ensures Shown(match_, msgs + [m]) == Shown(match_, msgs) + [m]
  {
    var seen := Shown(match_, msgs);
    assert (msgs + [m])[..|msgs|] == msgs;
    assert seen[..|seen|] == seen;
  }

  // The connection is up, was dialled for the key asked for, if any, and stays authorised for more
  // than ten seconds.
  predicate Usable(s: State, key: string, now: int) {
    s.client.Some? && (key == "" || key == s.dialKey) && (s.authUntil == 0 || now < s.authUntil - AUTH_SKEW)
  }

  function Failure(w: Waiter, error: string, now: int): Reply {
    Reply(FeedNetResult(w.start, now, 0, now), Some(error))
  }

  // t differs from s only in answers sent to waiters that were owed one.
  ghost predicate OnlyAnswered(s: State, t: State) {
    t.(owed := s.owed, sent := s.sent) == s && t.owed.Keys <= s.owed.Keys && t.sent.Keys == s.sent.Keys
    && forall id | id in s.sent :: t.sent[id] == s.sent[id] || (id in s.owed && id !in t.owed && |t.sent[id]| == |s.sent[id]| + 1)
  }

  lemma OnlyAnsweredNext(s: State, t: State, id: int, now: int)
    requires OnlyAnswered(s, t) && id in t.owed && id in t.sent && t.sent[id] == []
    ensures OnlyAnswered(s, DoAnswer(t, id, now))
  {
  }

  // The waiters taken out but not left have their answer, and other channels are as before.
  ghost predicate AllTold(taken: map<int, Waiter>, left: set<int>, error: string, now: int,
                          before: map<int, seq<Reply>>, after: map<int, seq<Reply>>) {
    && (forall id | id in taken && id !in left :: id in after && after[id] == [Failure(taken[id], error, now)])
    && (forall id | id in before && id !in taken :: id in after && after[id] == before[id])
  }

  lemma ToldNext(taken: map<int, Waiter>, left: set<int>, error: string, now: int,
                 before: map<int, seq<Reply>>, after: map<int, seq<Reply>>, id: int)
    requires AllTold(taken, left, error, now, before, after) && id in left && id in taken
    ensures AllTold(taken, left - {id}, error, now, before, after[id := [Failure(taken[id], error, now)]])
  {
  }

  // The feed with its lock held.  channels holds what was sent on each waiter's channel, and
  // history the whole state of the protocol the fields belong to.
  class Feed {
    var client: Option<int>
    var authUntil: int
    var dialKey: string
    var lastRead: int
    var waiters: map<int, Waiter>
    var recent: seq<Message>
    var nextID: int
    var channels: map<int, seq<Reply>>
    ghost var history: State

    ghost predicate Valid()
      reads this
    {
      && client == history.client && authUntil == history.authUntil && dialKey == history.dialKey
      && lastRead == history.lastRead && waiters == history.waiters && recent == history.recent
      && nextID == history.nextID && channels == history.sent
    }

    constructor ()
      ensures Valid() && history == START
    {
      client, authUntil, dialKey, lastRead := None, 0, "", 0;
      waiters, recent, nextID, channels := map[], [], 0, map[];
      history := START;
    }

    // Whether Ensure may reuse the connection.
    method Ready(key: string, now: int) returns (ok: bool)
      requires Valid()
      ensures ok <==> Usable(history, key, now)
      ensures ok <==> client.Some? && (key != "" ==> dialKey == key) && (authUntil != 0 ==> authUntil > now + 10_000_000_000)
    {
      if client == None {
        return false;
      }
      if key != "" && dialKey != key {
        return false;
      }
      ok := authUntil == 0 || authUntil - now > AUTH_SKEW;
    }

    // A send on a channel of capacity one, which must be empty.
    method Send(id: int, reply: Reply)
      requires id in channels && channels[id] == []
      modifies this`channels
      ensures channels == old(channels)[id := [reply]]
    {
      assert channels[id] + [reply] == [reply];
      channels := channels[id := channels[id] + [reply]];
    }

    // Ensure's critical section: the old client and the waiters to be answered are handed back.
    method Install(newClient: int, auth: int, key: string, now: int) returns (oldClient: Option<int>, taken: map<int, Waiter>)
      requires Valid()
      modifies this
      ensures Valid() && history == DoInstall(old(history), newClient, auth, key, now)
      ensures oldClient == old(client) && taken == old(waiters)
    {
      oldClient, taken := client, waiters;
      client, authUntil, dialKey, lastRead := Some(newClient), auth, key, now;
      waiters := map[];
      history := DoInstall(history, newClient, auth, key, now);
    }

    // fail's critical section.
    method Fail(failed: int, error: string) returns (taken: map<int, Waiter>)
      requires Valid()
      modifies this
      ensures Valid() && history == DoLose(old(history), failed, error)
      ensures taken == if old(client) == Some(failed) then old(waiters) else map[]
    {
      history := DoLose(history, failed, error);
      if client != Some(failed) {
        return map[];
      }
      client, authUntil, lastRead := None, 0, 0;
      taken := waiters;
      waiters := map[];
    }

    // One answer sent after unlocking, to a waiter that Ensure or fail took out.
    method SendFailure(id: int, start: int, error: string, now: int)
      requires Valid() && id in history.owed && history.owed[id] == Owed(start, error)
      requires id in channels && channels[id] == []
      modifies this
      ensures Valid() && history == DoAnswer(old(history), id, now)
      ensures channels == old(channels)[id := [Reply(FeedNetResult(start, now, 0, now), Some(error))]]
    {
      var reply := Reply(FeedNetResult(start, now, 0, now), Some(error));
      assert [] + [reply] == [reply];
      Send(id, reply);
      history := DoAnswer(history, id, now);
    }

    // The answers sent after unlocking, in whatever order the map is walked.
    method AnswerAll(taken: map<int, Waiter>, error: string, now: int)
      requires Valid() && forall id | id in taken :: OwedTo(id, taken[id], error)
      modifies this
      ensures Valid() && OnlyAnswered(old(history), history)
      ensures AllTold(taken, {}, error, now, old(channels), channels)
    {
      var left := taken.Keys;
      while left != {}
        invariant Valid() && OnlyAnswered(old(history), history) && left <= taken.Keys
        invariant forall id | id in left :: OwedTo(id, taken[id], error)
        invariant AllTold(taken, left, error, now, old(channels), channels)
      {
        var id := Choose(left);
        assert OwedTo(id, taken[id], error);
        ghost var before := channels;
        OnlyAnsweredNext(old(history), history, id, now);
        SendFailure(id, taken[id].start, error, now);
        ToldNext(taken, left, error, now, old(channels), before, id);
        left := left - {id};
      }
    }

    // The waiter is taken out, its answer is due and its channel is empty.
    ghost predicate OwedTo(id: int, w: Waiter, error: string)
      reads this
    {
      id in history.owed && history.owed[id] == Owed(w.start, error) && id in channels && channels[id] == []
    }

    // Ensure as one call: a usable connection is kept; otherwise a new one is dialled, unless its
    // authorisation has expired, and every waiter of the old one is told to start over.
    method Ensure(dialled: Result<int, string>, auth: int, key: string, now: int) returns (error: Option<string>)
      requires Valid() && forall id | id in waiters :: id in channels && channels[id] == []
      modifies this
      ensures Valid()
      ensures Usable(old(history), key, now) ==> error == None && history == old(history)
      ensures !Usable(old(history), key, now) ==>
                (error == None <==> dialled.Ok? && (auth == 0 || auth > now)) && (error.Some? ==> history == old(history))
      ensures !Usable(old(history), key, now) && error == None ==>
                && OnlyAnswered(DoInstall(old(history), dialled.value, auth, key, now), history)
                && client == Some(dialled.value) && waiters == map[]
                && (forall id | id in old(waiters) :: id in channels && channels[id] == [Failure(old(waiters)[id], "reconnecting", now)])
    {
      var ready := Ready(key, now);
      if ready {
        return None;
      }
      if auth != 0 && auth - now <= 0 {
        return Some("auth already expired");
      }
      if dialled.Err? {
        return Some(dialled.error);
      }
      var oldClient, taken := Install(dialled.value, auth, key, now);
      AnswerAll(taken, "reconnecting", now);
      error := None;
    }

    // fail as one call.
    method Lost(failed: int, error: string, now: int)
      requires Valid() && forall id | id in waiters :: id in channels && channels[id] == []
      modifies this
      ensures Valid() && OnlyAnswered(DoLose(old(history), failed, error), history)
      ensures old(client) == Some(failed) ==>
                client == None && waiters == map[]
                && forall id | id in old(waiters) :: id in channels && channels[id] == [Failure(old(waiters)[id], error, now)]
    {
      var taken := Fail(failed, error);
      AnswerAll(taken, error, now);
    }

    method TrimRecent(now: int)
      modifies this`recent
      ensures recent == Trim(old(recent), now)
    {
      var min: nat := 0;
      if |recent| > RECENT_LIMIT {
        min := |recent| - RECENT_LIMIT;
      }
      min := SkipStale(now - RECENT_AGE, min);
      if min > 0 {
        CopyDownIsDrop(recent, min);
        recent := CopyDown(recent, min)[..|recent| - min];
      }
    }

    // Counts up from min over the messages older than the cutoff.
    method SkipStale(cutoff: int, from: nat) returns (min: nat)
      requires from <= |recent|
      ensures min == FirstFresh(recent, cutoff, from)
    {
      min := from;
      while min < |recent| && recent[min].receivedAt < cutoff
        invariant from <= min <= |recent|
        invariant FirstFresh(recent, cutoff, from) == FirstFresh(recent, cutoff, min)
      {
        min := min + 1;
      }
    }

    // Shows a new matcher the retained messages, up to the first on which it decides.
    method Replay(start: int, match_: Matcher) returns (seen: seq<Message>, reply: Option<Reply>)
      ensures seen == Shown(match_, Since(recent, start))
      ensures reply == if seen != [] && match_(seen) != NoMatch then Some(DecisionReply(Waiter(start, match_, seen))) else None
      ensures reply.Some? && start != 0 ==> Measures(reply.value, start, seen[|seen| - 1].receivedAt, seen[|seen| - 1].bytes)
    {
      seen := [];
      var i := 0;
      while i < |recent|
        invariant 0 <= i <= |recent|
        invariant seen == Shown(match_, Since(recent[..i], start)) && Unmatched(match_, seen)
      {
        var msg := recent[i];
        assert recent[..i + 1] == recent[..i] + [msg];
        SinceAppend(recent[..i], msg, start);
        if msg.receivedAt >= start {
          ShownAppend(match_, Since(recent[..i], start), msg);
          ShownMore(match_, seen, msg);
          seen := seen + [msg];
          var verdict := match_(seen);
          if verdict != NoMatch {
            DecisionStands(match_, recent, start, i + 1);
            return seen, Some(Reply(FeedNetResult(start, msg.receivedAt, msg.bytes, msg.receivedAt),
                                    if verdict.Fail? then Some(verdict.error) else None));
          }
        }
        i := i + 1;
      }
      assert recent[..|recent|] == recent && seen[..|seen|] == seen;
      reply := None;
    }

    // Wait's critical section: replays the retained messages and registers unless one decides.
    method Enter(start0: int, match_: Matcher, now: int) returns (reply: Option<Reply>, id: int)
      requires Valid()
      modifies this
      ensures Valid() && history == DoRegister(old(history), start0, match_, now)
      ensures var start := StartOf(start0, now);
              var seen := Replayed(old(history), start, match_, now);
              && (reply.Some? <==> Decided(match_, seen))
              && (reply.Some? ==> reply.value == DecisionReply(Waiter(start, match_, seen)))
              && (reply.Some? && start != 0 ==> Measures(reply.value, start, seen[|seen| - 1].receivedAt, seen[|seen| - 1].bytes))
      ensures id == old(nextID)
    {
      var start := if start0 == 0 then now else start0;
      id := nextID;
      RegisterCases(history, start0, match_, now);
      var seen;
      seen, reply := LookBack(start, match_, now);
      if reply == None {
        Enrol(Waiter(start, match_, seen));
      }
    }

    // Trims the retained messages and replays what is left.
    method LookBack(start: int, match_: Matcher, now: int) returns (seen: seq<Message>, reply: Option<Reply>)
      requires Valid()
      modifies this`recent, this`history
      ensures Valid() && history == Trimmed(old(history), now)
      ensures seen == Replayed(old(history), start, match_, now)
      ensures reply == if seen != [] && match_(seen) != NoMatch then Some(DecisionReply(Waiter(start, match_, seen))) else None
      ensures reply.Some? && start != 0 ==> Measures(reply.value, start, seen[|seen| - 1].receivedAt, seen[|seen| - 1].bytes)
    {
      TrimRecent(now);
      history := Trimmed(history, now);
      seen, reply := Replay(start, match_);
    }

    method Enrol(w: Waiter)
      requires Valid()
      modifies this
      ensures Valid() && history == Enrolled(old(history), w)
    {
      history := Enrolled(history, w);
      waiters := waiters[nextID := w];
      channels := channels[nextID := []];
      nextID := nextID + 1;
    }

    // Every waiter is shown the message, in whatever order the map is walked, and those that
    // decide are answered and removed.
    method ShowAll(msg: Message)
      requires forall id | id in waiters :: id in channels && channels[id] == []
      modifies this`waiters, this`channels
      ensures waiters == Remaining(old(waiters), msg)
      ensures channels == Answered(old(channels), old(waiters), msg)
    {
      ghost var before, sent := waiters, channels;
      var ids := waiters.Keys;
      while ids != {}
        invariant Halfway(before, sent, ids, msg, waiters, channels)
      {
        var id := Choose(ids);
        ghost var w, c := waiters, channels;
        HalfwayNext(before, sent, ids, msg, w, c, id);
        Show(id, msg);
        ids := ids - {id};
      }
      RemainingIs(before, msg, waiters);
      AnsweredIs(sent, before, msg, channels);
    }

    method Show(id: int, msg: Message)
      requires id in waiters && id in channels && channels[id] == []
      modifies this`waiters, this`channels
      ensures var w := old(waiters)[id];
              && (Decides(w, msg) ==> waiters == old(waiters) - {id} && channels == old(channels)[id := [ReplyTo(w, msg)]])
              && (!Decides(w, msg) ==> waiters == old(waiters)[id := Shows(w, msg)] && channels == old(channels))
    {
      var w := waiters[id];
      if msg.receivedAt < w.start {
        assert waiters[id := w] == waiters;
        return;
      }
      var seen := w.seen + [msg];
      var verdict := w.match_(seen);
      if verdict != NoMatch {
        Send(id, Reply(FeedNetResult(w.start, msg.receivedAt, msg.bytes, msg.receivedAt),
                       if verdict.Fail? then Some(verdict.error) else None));
        waiters := waiters - {id};
      } else {
        waiters := waiters[id := w.(seen := seen)];
      }
    }

    // dispatch.
    method Dispatch(msg: Message)
      requires Valid()
      requires forall id | id in waiters :: id in channels && channels[id] == []
      modifies this
      ensures Valid() && history == DoDispatch(old(history), msg)
    {
      ghost var after := Dispatched(history, msg);
      TakeIn(msg);
      history := after;
    }

    method TakeIn(msg: Message)
      requires forall id | id in waiters :: id in channels && channels[id] == []
      modifies this`recent, this`lastRead, this`waiters, this`channels
      ensures recent == Trim(old(recent) + [msg], msg.receivedAt) && lastRead == msg.receivedAt
      ensures waiters == Remaining(old(waiters), msg) && channels == Answered(old(channels), old(waiters), msg)
    {
      recent := recent + [msg];
      lastRead := msg.receivedAt;
      TrimRecent(msg.receivedAt);
      ShowAll(msg);
    }

    // The end of a Wait call whose context is done.
    method GiveUp(id: int, start: int, now: int)
      requires Valid() && id in history.open && history.open[id] == start
      modifies this
      ensures Valid() && history == DoTimeout(old(history), id, now)
    {
      TimeoutIs(history, id, now);
      waiters := waiters - {id};
      history := Unregistered(history, id);
      InvalidateStale(start, now);
      InvalidatedIs(history, start, now);
      history := Invalidated(history, start, now);
    }

    method InvalidateStale(start: int, now: int)
      modifies this`client, this`authUntil, this`lastRead
      ensures if old(client).Some? && StaleRead(old(lastRead), start, now) then client == None && authUntil == lastRead == 0
              else client == old(client) && authUntil == old(authUntil) && lastRead == old(lastRead)
    {
      if client == None {
        return;
      }
      var last := if lastRead == 0 then start else lastRead;
      if last >= start && now - last <= STALE_AFTER {
        return;
      }
      client, authUntil, lastRead := None, 0, 0;
    }
  }
}
