// The funding monitor of internal/funding: per cycle it reads each account's balance, plans a
// deposit, checks the daily cap, deposits and records.  Times are nanoseconds and zero stands for
// the zero time.  Balances, deposits and cancellation are inputs.
module Funding {
  import opened Common

  const MILLISECOND: int := 1_000_000
  const DAY: int := 24 * 3600 * 1000 * MILLISECOND
  const DEFAULT_COOLDOWN_MS: int := 30 * 60 * 1000

  datatype Account = Account(name: string, minBalance: real, targetBalance: real, maxDeposit: real,
                             cooldownMs: int, dryRun: Option<bool>, minUSDC: real)

  datatype Config = Config(dryRun: bool, dailyCap: real, accounts: seq<Account>)

  datatype Balance = Balance(balanceUSD: real, fundingUSD: Option<real>)

  // The status texts: "success", "error", "skipped", none, and whatever else a depositor reports.
  datatype Status = NoStatus | Success | Errored | SkippedOver | Reported(text: string)

  // Why an account is skipped, one case for each of the planner's checks.
  datatype SkipReason = NoName | NoMinimum | NoTarget | AboveThreshold | CoolingDown | BelowMinDeposit

  datatype Detail = NoDetail | Failure(text: string) | Why(reason: SkipReason)

  datatype AccountState = AccountState(lastAttemptAt: int, lastSuccessAt: int, lastAmount: real, lastStatus: Status,
                                       lastTxHash: string, lastError: Detail, lastBalance: real)

  const NO_STATE := AccountState(0, 0, 0.0, NoStatus, [], NoDetail, 0.0)

  datatype Event = Event(account: string, amount: real, dryRun: bool, status: Status, txHash: string, completedAt: int)

  datatype Plan = Plan(account: Account, balance: Balance, amount: real, dryRun: bool, now: int)

  datatype Decision = Planned(plan: Plan) | Skipped(reason: SkipReason)

  datatype Deposit = Deposit(status: Status, txHash: string, dryRun: bool, completedAt: int)

  // ------------------------------------------------------------------ planning

  function Normalize(a: Account): Account {
    if a.cooldownMs == 0 then a.(cooldownMs := DEFAULT_COOLDOWN_MS) else a
  }

  function Cooldown(a: Account): int {
    if a.cooldownMs <= 0 then 0 else a.cooldownMs * MILLISECOND
  }

  function AccountDryRun(global: bool, a: Account): bool {
    if a.dryRun.Some? then a.dryRun.value else global
  }

  function FundingBalance(b: Balance): real {
    if b.fundingUSD.Some? then b.fundingUSD.value else b.balanceUSD
  }

  function MinDeposit(a: Account): real {
    if a.minUSDC <= 0.0 then 1.0 else a.minUSDC
  }

  function PlanDeposit(cfg: Config, a: Account, b: Balance, state: AccountState, now: int): Decision {
    if a.name == [] then Skipped(NoName)
    else if a.minBalance <= 0.0 then Skipped(NoMinimum)
    else if a.targetBalance <= a.minBalance then Skipped(NoTarget)
    else if FundingBalance(b) >= a.minBalance then Skipped(AboveThreshold)
    else if state.lastAttemptAt != 0 && now - state.lastAttemptAt < Cooldown(a) then Skipped(CoolingDown)
    else
      var needed := a.targetBalance - FundingBalance(b);
      var amount := if a.maxDeposit > 0.0 && needed > a.maxDeposit then a.maxDeposit else needed;
      if amount < MinDeposit(a) then Skipped(BelowMinDeposit)
      else Planned(Plan(a, b, amount, AccountDryRun(cfg.dryRun, a), now))
  }

  // The cooldown is the account's own, half an hour where it sets none, and none where it is negative.
  lemma CooldownIs(a: Account)
    ensures a.cooldownMs > 0 ==> Cooldown(Normalize(a)) == a.cooldownMs * 1_000_000
    ensures a.cooldownMs == 0 ==> Cooldown(Normalize(a)) == 1800 * 1_000_000_000
    ensures a.cooldownMs < 0 ==> Cooldown(Normalize(a)) == 0
    ensures Normalize(a) == a.(cooldownMs := Normalize(a).cooldownMs)
  {
  }

  // What the planner reads of an account and its balance: the smallest deposit, one unless it sets
  // another, the balance that counts, and whether its deposits are dry runs.
  lemma PlannerReads(cfg: Config, a: Account, b: Balance)
    ensures MinDeposit(a) > 0.0 && (a.minUSDC > 0.0 ==> MinDeposit(a) == a.minUSDC) && (a.minUSDC <= 0.0 ==> MinDeposit(a) == 1.0)
    ensures b.fundingUSD.Some? ==> FundingBalance(b) == b.fundingUSD.value
    ensures b.fundingUSD.None? ==> FundingBalance(b) == b.balanceUSD
    ensures AccountDryRun(cfg.dryRun, a) <==> a.dryRun == Some(true) || (a.dryRun.None? && cfg.dryRun)
  {
  }

  // A deposit is planned exactly for a named, sensibly configured account below its threshold,
  // out of cooldown, whose possible amount reaches the minimum; the amount is the largest that
  // neither lifts the funding balance above the target nor exceeds the account's maximum.
  lemma PlanMeetsTarget(cfg: Config, a: Account, b: Balance, state: AccountState, now: int)
    ensures var d := PlanDeposit(cfg, a, b, state, now);
            && (d.Planned? ==>
                  && d.plan.amount >= MinDeposit(a) > 0.0
                  && FundingBalance(b) + d.plan.amount <= a.targetBalance
                  && (a.maxDeposit > 0.0 ==> d.plan.amount <= a.maxDeposit)
                  && (FundingBalance(b) + d.plan.amount == a.targetBalance || d.plan.amount == a.maxDeposit)
                  && d.plan.now == now && d.plan.account == a && d.plan.balance == b && d.plan.dryRun == AccountDryRun(cfg.dryRun, a))
            && (d.Planned? <==>
                  && a.name != [] && 0.0 < a.minBalance < a.targetBalance && FundingBalance(b) < a.minBalance
                  && (state.lastAttemptAt == 0 || now - state.lastAttemptAt >= Cooldown(a))
                  && FundingBalance(b) + MinDeposit(a) <= a.targetBalance
                  && (a.maxDeposit > 0.0 ==> MinDeposit(a) <= a.maxDeposit))
  {
  }

  // ------------------------------------------------------------------ recording

  predicate Live(e: Event) {
    !e.dryRun && e.status == Success
  }

  function Recent(events: seq<Event>, now: int): seq<Event> {
    if events == [] then []
    else
      var rest := Recent(events[..|events| - 1], now);
      var e := events[|events| - 1];
      if e.completedAt == 0 || e.completedAt < now - DAY then rest else rest + [e]
  }

  // What the cap check counts as spent: live successes completed since now minus a day.
  function DailySpent(events: seq<Event>, now: int): real {
    if events == [] then 0.0
    else
      var e := events[|events| - 1];
      DailySpent(events[..|events| - 1], now) + if Live(e) && e.completedAt >= now - DAY then e.amount else 0.0
  }

  // The monitor's state with everything it ever recorded or attempted.
  datatype Trace = Trace(accounts: map<string, AccountState>, events: seq<Event>,
                         recorded: seq<Event>, attempts: seq<Attempt>)

  datatype Attempt = Attempt(account: string, at: int)

  function StateOf(t: Trace, name: string): AccountState {
    if name in t.accounts then t.accounts[name] else NO_STATE
  }

  function RecordResult(t: Trace, plan: Plan, result: Result<Deposit, string>): Trace {
    var attempt := NO_STATE.(lastAmount := plan.amount, lastBalance := plan.balance.balanceUSD,
                           lastAttemptAt := if plan.dryRun then 0 else plan.now);
    var attempts := if plan.dryRun then t.attempts else t.attempts + [Attempt(plan.account.name, plan.now)];
    match result
    case Err(error) =>
      t.(accounts := t.accounts[plan.account.name := attempt.(lastStatus := Errored, lastError := Failure(error))], attempts := attempts)
    case Ok(d) =>
      var state := attempt.(lastStatus := d.status, lastTxHash := d.txHash,
                          lastSuccessAt := if d.status == Success then d.completedAt else 0);
      var e := Event(plan.account.name, plan.amount, d.dryRun, d.status, d.txHash, d.completedAt);
      Trace(t.accounts[plan.account.name := state], Recent(t.events, plan.now) + [e], t.recorded + [e], attempts)
  }

  function RecordObservation(t: Trace, a: Account, b: Balance, status: Status, detail: Detail): Trace {
    t.(accounts := t.accounts[a.name := StateOf(t, a.name).(lastStatus := status, lastBalance := b.balanceUSD, lastError := detail)])
  }

  function RecordError(t: Trace, a: Account, b: Balance, error: string): Trace {
    var record := StateOf(t, a.name);
    var balance := if b.balanceUSD != 0.0 then b.balanceUSD else record.lastBalance;
    t.(accounts := t.accounts[a.name := record.(lastStatus := Errored, lastBalance := balance, lastError := Failure(error))])
  }

  // ------------------------------------------------------------------ one cycle

  // What the outside world answers for one account in one cycle.
  datatype Answer = Answer(cancelled: bool, balance: Balance, balanceError: Option<string>, deposit: Result<Deposit, string>)

  predicate CapExceeded(cfg: Config, events: seq<Event>, plan: Plan) {
    cfg.dailyCap > 0.0 && !plan.dryRun && DailySpent(events, plan.now) + plan.amount > cfg.dailyCap
  }

  function StepAccount(cfg: Config, t: Trace, a: Account, now: int, answer: Answer): Trace {
    if answer.balanceError.Some? then RecordError(t, a, answer.balance, answer.balanceError.value)
    else
      match PlanDeposit(cfg, a, answer.balance, StateOf(t, a.name), now)
      case Skipped(reason) => RecordObservation(t, a, answer.balance, SkippedOver, Why(reason))
      case Planned(plan) => if CapExceeded(cfg, t.events, plan) then t else RecordResult(t, plan, answer.deposit)
  }

  predicate CancelledBefore(answers: seq<Answer>, n: nat)
    requires n <= |answers|
  {
    exists k | 0 <= k < n :: answers[k].cancelled
  }

  // The first n accounts of a cycle; nothing happens from a cancelled account on.
  function StepAccounts(cfg: Config, t: Trace, now: int, answers: seq<Answer>, n: nat): Trace
    requires n <= |cfg.accounts| == |answers|
  {
    if n == 0 then t
    else
      var before := StepAccounts(cfg, t, now, answers, n - 1);
      if CancelledBefore(answers, n) then before
      else StepAccount(cfg, before, Normalize(cfg.accounts[n - 1]), now, answers[n - 1])
  }

  // A monitor runs cycles and may restart, which reloads the saved state and prunes it.
  datatype Step = Cycle(now: int, answers: seq<Answer>) | Reload(now: int)

  const START := Trace(map[], [], [], [])

  ghost predicate WellFormed(cfg: Config, steps: seq<Step>) {
    forall i | 0 <= i < |steps| && steps[i].Cycle? :: |steps[i].answers| == |cfg.accounts|
  }

  ghost function Run(cfg: Config, steps: seq<Step>): Trace
    requires WellFormed(cfg, steps)
  {
    if steps == [] then START
    else
      var t := Run(cfg, steps[..|steps| - 1]);
      match steps[|steps| - 1]
      case Cycle(now, answers) => StepAccounts(cfg, t, now, answers, |answers|)
      case Reload(now) => t.(events := Recent(t.events, now))
  }

  // The clock never goes back, deposits complete no earlier than the cycle that made them, and a
  // dry run is reported as one.
  ghost predicate Clocked(cfg: Config, steps: seq<Step>) {
    && WellFormed(cfg, steps)
    && (forall i | 0 <= i < |steps| :: steps[i].now > 0)
    && (forall i, j | 0 <= i < j < |steps| :: steps[i].now <= steps[j].now)
    && (forall i | 0 <= i < |steps| && steps[i].Cycle? :: Honest(cfg, steps[i].now, steps[i].answers))
  }

  ghost predicate Honest(cfg: Config, now: int, answers: seq<Answer>) {
    forall k | 0 <= k < |answers| && k < |cfg.accounts| && answers[k].deposit.Ok? ::
      answers[k].deposit.value.completedAt >= now
      && (AccountDryRun(cfg.dryRun, cfg.accounts[k]) ==> answers[k].deposit.value.dryRun)
  }

  // ------------------------------------------------------------------ the rolling cap

  // Live successes completed between lo and hi.
  function Spent(events: seq<Event>, lo: int, hi: int): real {
    if events == [] then 0.0
    else
      var e := events[|events| - 1];
      Spent(events[..|events| - 1], lo, hi) + if !e.dryRun && e.status == Success && lo <= e.completedAt <= hi then e.amount else 0.0
  }

  lemma SpentAppend(events: seq<Event>, e: Event, lo: int, hi: int)
    ensures Spent(events + [e], lo, hi) == Spent(events, lo, hi) + if Live(e) && lo <= e.completedAt <= hi then e.amount else 0.0
  {
    assert (events + [e])[..|events|] == events;
  }

  predicate Timed(events: seq<Event>) {
    forall i | 0 <= i < |events| :: events[i].completedAt > 0 && events[i].amount > 0.0
  }

  lemma {:induction false} RecentTimed(events: seq<Event>, now: int)
    requires Timed(events)
    ensures Timed(Recent(events, now))
  {
    if events != [] {
      RecentTimed(events[..|events| - 1], now);
    }
  }

  // Pruning removes nothing that a window beginning within the last day could count.
  lemma {:induction false} SpentAfterPruning(events: seq<Event>, now: int, lo: int, hi: int)
    requires Timed(events) && lo >= now - DAY
    ensures Spent(Recent(events, now), lo, hi) == Spent(events, lo, hi)
  {
    if events != [] {
      var n := |events| - 1;
      SpentAfterPruning(events[..n], now, lo, hi);
      SpentAppend(Recent(events[..n], now), events[n], lo, hi);
    }
  }

  lemma {:induction false} SpentWithinDaily(events: seq<Event>, now: int, lo: int, hi: int)
    requires Timed(events) && lo >= now - DAY
    ensures Spent(events, lo, hi) <= DailySpent(events, now)
  {
    if events != [] {
      SpentWithinDaily(events[..|events| - 1], now, lo, hi);
    }
  }

  // Up to time now the kept events account for every window that begins within the last day, and
  // no window of a day holds more than the cap.
  ghost predicate CapHolds(cfg: Config, t: Trace, now: int) {
    && Timed(t.recorded) && Timed(t.events)
    && (forall lo, hi | lo >= now - DAY :: Spent(t.events, lo, hi) == Spent(t.recorded, lo, hi))
    && (forall lo, hi | hi <= lo + DAY :: Spent(t.recorded, lo, hi) <= cfg.dailyCap)
  }

  lemma CapLater(cfg: Config, t: Trace, now: int, later: int)
    requires CapHolds(cfg, t, now) && now <= later
    ensures CapHolds(cfg, t, later)
  {
  }

  lemma CapPruned(cfg: Config, t: Trace, now: int)
    requires CapHolds(cfg, t, now)
    ensures CapHolds(cfg, t.(events := Recent(t.events, now)), now)
  {
    RecentTimed(t.events, now);
    forall lo, hi | lo >= now - DAY ensures Spent(Recent(t.events, now), lo, hi) == Spent(t.recorded, lo, hi) {
      SpentAfterPruning(t.events, now, lo, hi);
    }
  }

  lemma CapRecorded(cfg: Config, t: Trace, now: int, e: Event)
    requires CapHolds(cfg, t, now) && e.completedAt >= now > 0 && e.amount > 0.0
    requires Live(e) ==> DailySpent(t.events, now) + e.amount <= cfg.dailyCap
    ensures CapHolds(cfg, t.(events := Recent(t.events, now) + [e], recorded := t.recorded + [e]), now)
  {
    CapPruned(cfg, t, now);
    var kept := Recent(t.events, now);
    forall lo, hi | lo >= now - DAY ensures Spent(kept + [e], lo, hi) == Spent(t.recorded + [e], lo, hi) {
      SpentAppend(kept, e, lo, hi);
      SpentAppend(t.recorded, e, lo, hi);
    }
    forall lo, hi | hi <= lo + DAY ensures Spent(t.recorded + [e], lo, hi) <= cfg.dailyCap {
      SpentAppend(t.recorded, e, lo, hi);
      if lo >= now - DAY {
        SpentWithinDaily(t.events, now, lo, hi);
      }
    }
  }

  lemma CapStepAccount(cfg: Config, t: Trace, a: Account, now: int, answer: Answer)
    requires cfg.dailyCap > 0.0 && now > 0 && CapHolds(cfg, t, now)
    requires answer.deposit.Ok? ==> answer.deposit.value.completedAt >= now
    requires answer.deposit.Ok? && AccountDryRun(cfg.dryRun, a) ==> answer.deposit.value.dryRun
    ensures CapHolds(cfg, StepAccount(cfg, t, a, now, answer), now)
  {
    if answer.balanceError.None? {
      PlanMeetsTarget(cfg, a, answer.balance, StateOf(t, a.name), now);
      var d := PlanDeposit(cfg, a, answer.balance, StateOf(t, a.name), now);
      if d.Planned? && !CapExceeded(cfg, t.events, d.plan) && answer.deposit.Ok? {
        var r := answer.deposit.value;
        CapRecorded(cfg, t, now, Event(a.name, d.plan.amount, r.dryRun, r.status, r.txHash, r.completedAt));
      }
    }
  }

  lemma {:induction false} CapStepAccounts(cfg: Config, t: Trace, now: int, answers: seq<Answer>, n: nat)
    requires cfg.dailyCap > 0.0 && now > 0 && CapHolds(cfg, t, now)
    requires n <= |cfg.accounts| == |answers| && Honest(cfg, now, answers)
    ensures CapHolds(cfg, StepAccounts(cfg, t, now, answers, n), now)
  {
    if n > 0 {
      CapStepAccounts(cfg, t, now, answers, n - 1);
      if !CancelledBefore(answers, n) {
        CapStepAccount(cfg, StepAccounts(cfg, t, now, answers, n - 1), Normalize(cfg.accounts[n - 1]), now, answers[n - 1]);
      }
    }
  }

  lemma {:induction false} CapOverRun(cfg: Config, steps: seq<Step>)
    requires cfg.dailyCap > 0.0 && Clocked(cfg, steps)
    ensures CapHolds(cfg, Run(cfg, steps), if steps == [] then 0 else steps[|steps| - 1].now)
  {
    if steps != [] {
      var n := |steps| - 1;
      CapOverRun(cfg, steps[..n]);
      var now := steps[n].now;
      CapLater(cfg, Run(cfg, steps[..n]), if n == 0 then 0 else steps[n - 1].now, now);
      match steps[n]
      case Cycle(_, answers) => CapStepAccounts(cfg, Run(cfg, steps[..n]), now, answers, |answers|);
      case Reload(_) => CapPruned(cfg, Run(cfg, steps[..n]), now);
    }
  }

  // Over any run, the recorded live deposits completed within any 24 hours total at most the cap.
  lemma RollingCap(cfg: Config, steps: seq<Step>, lo: int, hi: int)
    requires cfg.dailyCap > 0.0 && Clocked(cfg, steps) && hi <= lo + 24 * 3600 * 1_000_000_000
    ensures Spent(Run(cfg, steps).recorded, lo, hi) <= cfg.dailyCap
  {
    CapOverRun(cfg, steps);
  }

  // ------------------------------------------------------------------ what a cycle does deposit

  ghost predicate NoLaterThan(events: seq<Event>, hi: int) {
    forall i | 0 <= i < |events| :: events[i].completedAt <= hi
  }

  // What the cap check counts is what was spent from a day ago on.
  lemma {:induction false} DailyIsSpent(events: seq<Event>, now: int, hi: int)
    requires NoLaterThan(events, hi)
    ensures DailySpent(events, now) == Spent(events, now - 24 * 3600 * 1_000_000_000, hi)
  {
    if events != [] {
      DailyIsSpent(events[..|events| - 1], now, hi);
    }
  }

  // A dry run, no cap, or a cap that the amount keeps: the last day's live successes and the
  // amount together do not exceed it.  hi is no earlier than any event.
  ghost predicate Allowed(cfg: Config, events: seq<Event>, plan: Plan, hi: int) {
    plan.dryRun || cfg.dailyCap <= 0.0 || Spent(events, plan.now - DAY, hi) + plan.amount <= cfg.dailyCap
  }

  // What a deposit that is made leaves behind: a live one is an attempt, one without an error is an
  // event of the planned amount, and the account remembers both.
  ghost predicate Deposited(t: Trace, u: Trace, plan: Plan, result: Result<Deposit, string>) {
    && u.attempts == t.attempts + (if plan.dryRun then [] else [Attempt(plan.account.name, plan.now)])
    && plan.account.name in u.accounts
    && var state := u.accounts[plan.account.name];
    && state.lastAmount == plan.amount && state.lastBalance == plan.balance.balanceUSD
    && state.lastAttemptAt == (if plan.dryRun then 0 else plan.now)
    && match result
       case Err(error) =>
         u.events == t.events && u.recorded == t.recorded && state.lastStatus == Errored && state.lastError == Failure(error) && state.lastSuccessAt == 0
       case Ok(d) =>
         var e := Event(plan.account.name, plan.amount, d.dryRun, d.status, d.txHash, d.completedAt);
         && u.recorded == t.recorded + [e] && u.events != [] && u.events[|u.events| - 1] == e
         && state.lastStatus == d.status && state.lastTxHash == d.txHash && state.lastError == NoDetail
         && state.lastSuccessAt == (if d.status == Success then d.completedAt else 0)
  }

  // A planned deposit is made exactly when the cap allows it; otherwise nothing changes at all.
  lemma PlannedIsMadeIff(cfg: Config, t: Trace, a: Account, now: int, answer: Answer, hi: int)
    requires answer.balanceError == None && PlanDeposit(cfg, a, answer.balance, StateOf(t, a.name), now).Planned?
    requires NoLaterThan(t.events, hi)
    ensures var plan, u := PlanDeposit(cfg, a, answer.balance, StateOf(t, a.name), now).plan, StepAccount(cfg, t, a, now, answer);
            && plan.account == a && plan.now == now && plan.balance == answer.balance
            && (if Allowed(cfg, t.events, plan, hi) then Deposited(t, u, plan, answer.deposit) else u == t)
  {
    DailyIsSpent(t.events, now, hi);
  }

  // Without a plan nothing is attempted or recorded, and the account notes why.
  lemma UnplannedIsNoted(cfg: Config, t: Trace, a: Account, now: int, answer: Answer)
    requires answer.balanceError.Some? || PlanDeposit(cfg, a, answer.balance, StateOf(t, a.name), now).Skipped?
    ensures var u, before := StepAccount(cfg, t, a, now, answer), StateOf(t, a.name);
            && u.attempts == t.attempts && u.events == t.events && u.recorded == t.recorded && a.name in u.accounts
            && var state := u.accounts[a.name];
            && state.lastAttemptAt == before.lastAttemptAt && state.lastSuccessAt == before.lastSuccessAt
            && state.lastAmount == before.lastAmount && state.lastTxHash == before.lastTxHash
            && (if answer.balanceError.Some? then
                  && state.lastStatus == Errored && state.lastError == Failure(answer.balanceError.value)
                  && state.lastBalance == (if answer.balance.balanceUSD == 0.0 then before.lastBalance else answer.balance.balanceUSD)
                else
                  && state.lastStatus == SkippedOver && state.lastBalance == answer.balance.balanceUSD
                  && state.lastError == Why(PlanDeposit(cfg, a, answer.balance, before, now).reason))
  {
  }

  // The first n accounts of a cycle leave the state of an account of another name as it was.
  lemma {:induction false} OthersKept(cfg: Config, t: Trace, now: int, answers: seq<Answer>, n: nat, name: string)
    requires n <= |cfg.accounts| == |answers| && forall i | 0 <= i < n :: cfg.accounts[i].name != name
    ensures StateOf(StepAccounts(cfg, t, now, answers, n), name) == StateOf(t, name)
  {
    if n > 0 {
      OthersKept(cfg, t, now, answers, n - 1, name);
      StepAccountsNext(cfg, t, now, answers, n);
      StepAttempts(cfg, StepAccounts(cfg, t, now, answers, n - 1), Normalize(cfg.accounts[n - 1]), now, answers[n - 1]);
    }
  }

  lemma {:induction false} AttemptsGrow(cfg: Config, t: Trace, now: int, answers: seq<Answer>, k: nat, n: nat)
    requires k <= n <= |cfg.accounts| == |answers|
    ensures StepAccounts(cfg, t, now, answers, k).attempts <= StepAccounts(cfg, t, now, answers, n).attempts
  {
    if n > k {
      AttemptsGrow(cfg, t, now, answers, k, n - 1);
      StepAccountsNext(cfg, t, now, answers, n);
      StepAttempts(cfg, StepAccounts(cfg, t, now, answers, n - 1), Normalize(cfg.accounts[n - 1]), now, answers[n - 1]);
    }
  }

  lemma AllowedIsAttempted(cfg: Config, t: Trace, a: Account, now: int, answer: Answer, hi: int, u: Trace)
    requires answer.balanceError == None && PlanDeposit(cfg, a, answer.balance, StateOf(t, a.name), now).Planned?
    requires NoLaterThan(t.events, hi) && !AccountDryRun(cfg.dryRun, a)
    requires Allowed(cfg, t.events, PlanDeposit(cfg, a, answer.balance, StateOf(t, a.name), now).plan, hi)
    requires u == StepAccount(cfg, t, a, now, answer)
    ensures u.attempts != [] && u.attempts[|u.attempts| - 1] == Attempt(a.name, now)
  {
    PlannedIsMadeIff(cfg, t, a, now, answer, hi);
  }

  lemma PrefixMember<T>(s: seq<T>, t: seq<T>, x: T)
    requires s <= t && s != [] && s[|s| - 1] == x
    ensures x in t
  {
    assert t[|s| - 1] == x;
  }

  // The account has, by this trace's state of it, a live plan that the cap allows.
  ghost predicate Due(cfg: Config, known: Trace, events: seq<Event>, a: Account, now: int, answer: Answer, hi: int) {
    && answer.balanceError == None && !AccountDryRun(cfg.dryRun, a) && NoLaterThan(events, hi)
    && var d := PlanDeposit(cfg, a, answer.balance, StateOf(known, a.name), now);
    && d.Planned? && Allowed(cfg, events, d.plan, hi)
  }

  lemma DueIsAttempted(cfg: Config, t: Trace, before: Trace, a: Account, now: int, answer: Answer, hi: int, after: Trace)
    requires Due(cfg, t, before.events, a, now, answer, hi) && StateOf(before, a.name) == StateOf(t, a.name)
    requires after == StepAccount(cfg, before, a, now, answer)
    ensures after.attempts != [] && after.attempts[|after.attempts| - 1] == Attempt(a.name, now)
  {
    AllowedIsAttempted(cfg, before, a, now, answer, hi, after);
  }

  lemma NotCancelled(answers: seq<Answer>, n: nat)
    requires n <= |answers| && forall i | 0 <= i < n :: !answers[i].cancelled
    ensures !CancelledBefore(answers, n)
  {
  }

  lemma ServedAt(cfg: Config, t: Trace, now: int, answers: seq<Answer>, k: nat, before: Trace, after: Trace, hi: int)
    requires k < |cfg.accounts| == |answers| && DistinctNames(cfg) && !CancelledBefore(answers, k + 1)
    requires before == StepAccounts(cfg, t, now, answers, k) && after == StepAccounts(cfg, t, now, answers, k + 1)
    requires Due(cfg, t, before.events, Normalize(cfg.accounts[k]), now, answers[k], hi)
    ensures after.attempts != [] && after.attempts[|after.attempts| - 1] == Attempt(cfg.accounts[k].name, now)
  {
    OthersKept(cfg, t, now, answers, k, cfg.accounts[k].name);
    StepAccountsNext(cfg, t, now, answers, k + 1);
    DueIsAttempted(cfg, t, before, Normalize(cfg.accounts[k]), now, answers[k], hi, after);
  }

  lemma AttemptStays(cfg: Config, t: Trace, now: int, answers: seq<Answer>, k: nat, after: Trace, x: Attempt)
    requires k <= |cfg.accounts| == |answers| && after == StepAccounts(cfg, t, now, answers, k)
    requires after.attempts != [] && after.attempts[|after.attempts| - 1] == x
    ensures x in StepAccounts(cfg, t, now, answers, |answers|).attempts
  {
    AttemptsGrow(cfg, t, now, answers, k, |answers|);
    PrefixMember(after.attempts, StepAccounts(cfg, t, now, answers, |answers|).attempts, x);
  }

  // Every account a cycle reaches is served by the state it had when the cycle began: a live plan
  // that the cap allows after the accounts before it is attempted, whatever becomes of the others.
  lemma CycleServesAll(cfg: Config, t: Trace, now: int, answers: seq<Answer>, k: nat, before: Trace, hi: int)
    requires k < |cfg.accounts| == |answers| && DistinctNames(cfg) && before == StepAccounts(cfg, t, now, answers, k)
    requires forall i | 0 <= i <= k :: !answers[i].cancelled
    requires Due(cfg, t, before.events, Normalize(cfg.accounts[k]), now, answers[k], hi)
    ensures Attempt(cfg.accounts[k].name, now) in StepAccounts(cfg, t, now, answers, |answers|).attempts
  {
    NotCancelled(answers, k + 1);
    var after := StepAccounts(cfg, t, now, answers, k + 1);
    ServedAt(cfg, t, now, answers, k, before, after, hi);
    AttemptStays(cfg, t, now, answers, k + 1, after, Attempt(cfg.accounts[k].name, now));
  }

  // ------------------------------------------------------------------ the cooldown

  ghost predicate DistinctNames(cfg: Config) {
    forall i, j | 0 <= i < j < |cfg.accounts| :: cfg.accounts[i].name != cfg.accounts[j].name
  }

  // Attempts of one account are at least its cooldown apart, and the last one is remembered.
  ghost predicate Spaced(cfg: Config, t: Trace, now: int) {
    Remembered(cfg, t, now) && Apart(cfg, t.attempts)
  }

  ghost predicate Remembered(cfg: Config, t: Trace, now: int) {
    forall i | 0 <= i < |t.attempts| ::
      && 0 < t.attempts[i].at <= StateOf(t, t.attempts[i].account).lastAttemptAt <= now
      && LiveName(cfg, t.attempts[i].account)
  }

  // Some account of this name deposits for real.
  ghost predicate LiveName(cfg: Config, name: string) {
    exists k :: 0 <= k < |cfg.accounts| && LiveAccount(cfg, k) && cfg.accounts[k].name == name
  }

  ghost predicate Apart(cfg: Config, attempts: seq<Attempt>) {
    forall i, j, k | 0 <= i < j < |attempts| && 0 <= k < |cfg.accounts|
                     && attempts[i].account == attempts[j].account && cfg.accounts[k].name == attempts[j].account ::
      attempts[j].at - attempts[i].at >= Cooldown(Normalize(cfg.accounts[k]))
  }

  predicate LiveAccount(cfg: Config, k: int)
    requires 0 <= k < |cfg.accounts|
  {
    !AccountDryRun(cfg.dryRun, cfg.accounts[k])
  }

  // One account's step keeps the other accounts' states, and keeps its own last attempt unless it
  // attempts a deposit.
  lemma StepAttempts(cfg: Config, t: Trace, a: Account, now: int, answer: Answer)
    ensures var u := StepAccount(cfg, t, a, now, answer);
            && (forall name | name != a.name :: StateOf(u, name) == StateOf(t, name))
            && (Quiet(cfg, t, u, a) || Attempted(cfg, t, u, a, now))
  {
  }

  ghost predicate Quiet(cfg: Config, t: Trace, u: Trace, a: Account) {
    && u.attempts == t.attempts
    && (AccountDryRun(cfg.dryRun, a) || StateOf(u, a.name).lastAttemptAt == StateOf(t, a.name).lastAttemptAt)
  }

  ghost predicate Attempted(cfg: Config, t: Trace, u: Trace, a: Account, now: int) {
    && u.attempts == t.attempts + [Attempt(a.name, now)]
    && !AccountDryRun(cfg.dryRun, a)
    && StateOf(u, a.name).lastAttemptAt == now
    && (StateOf(t, a.name).lastAttemptAt == 0 || now - StateOf(t, a.name).lastAttemptAt >= Cooldown(a))
  }

  lemma SpacedStep(cfg: Config, t: Trace, k: nat, now: int, answer: Answer, u: Trace)
    requires DistinctNames(cfg) && k < |cfg.accounts| && now > 0 && Spaced(cfg, t, now)
    requires u == StepAccount(cfg, t, Normalize(cfg.accounts[k]), now, answer)
    ensures Spaced(cfg, u, now)
  {
    var a := Normalize(cfg.accounts[k]);
    StepAttempts(cfg, t, a, now, answer);
    assert LiveName(cfg, a.name) ==> LiveAccount(cfg, k) by {
      if LiveName(cfg, a.name) {
        var m :| 0 <= m < |cfg.accounts| && LiveAccount(cfg, m) && cfg.accounts[m].name == a.name;
        assert m == k;
      }
    }
    if u.attempts != t.attempts {
      assert LiveAccount(cfg, k);
      assert LiveName(cfg, a.name);
    }
  }

  lemma {:induction false} SpacedSteps(cfg: Config, t: Trace, now: int, answers: seq<Answer>, n: nat)
    requires DistinctNames(cfg) && now > 0 && Spaced(cfg, t, now)
    requires n <= |cfg.accounts| == |answers|
    ensures Spaced(cfg, StepAccounts(cfg, t, now, answers, n), now)
  {
    if n == 0 {
      NoAccounts(cfg, t, now, answers);
    } else {
      SpacedSteps(cfg, t, now, answers, n - 1);
      SpacedNext(cfg, t, now, answers, n, StepAccounts(cfg, t, now, answers, n - 1), StepAccounts(cfg, t, now, answers, n));
    }
  }

  lemma NoAccounts(cfg: Config, t: Trace, now: int, answers: seq<Answer>)
    requires |cfg.accounts| == |answers|
    ensures StepAccounts(cfg, t, now, answers, 0) == t
  {
  }

  lemma SpacedNext(cfg: Config, t: Trace, now: int, answers: seq<Answer>, n: nat, before: Trace, after: Trace)
    requires DistinctNames(cfg) && now > 0 && Spaced(cfg, before, now) && 0 < n <= |cfg.accounts| == |answers|
    requires before == StepAccounts(cfg, t, now, answers, n - 1) && after == StepAccounts(cfg, t, now, answers, n)
    ensures Spaced(cfg, after, now)
  {
    StepAccountsNext(cfg, t, now, answers, n);
    SpacedUnless(cfg, before, n - 1, now, answers[n - 1], CancelledBefore(answers, n), after);
  }

  lemma SpacedUnless(cfg: Config, t: Trace, k: nat, now: int, answer: Answer, cancelled: bool, u: Trace)
    requires DistinctNames(cfg) && k < |cfg.accounts| && now > 0 && Spaced(cfg, t, now)
    requires u == if cancelled then t else StepAccount(cfg, t, Normalize(cfg.accounts[k]), now, answer)
    ensures Spaced(cfg, u, now)
  {
    if !cancelled {
      SpacedStep(cfg, t, k, now, answer, u);
    }
  }

  lemma StepAccountsNext(cfg: Config, t: Trace, now: int, answers: seq<Answer>, n: nat)
    requires 0 < n <= |cfg.accounts| == |answers|
    ensures var before := StepAccounts(cfg, t, now, answers, n - 1);
            StepAccounts(cfg, t, now, answers, n)
            == if CancelledBefore(answers, n) then before else StepAccount(cfg, before, Normalize(cfg.accounts[n - 1]), now, answers[n - 1])
  {
  }

  lemma SpacedLater(cfg: Config, t: Trace, now: int, later: int)
    requires Spaced(cfg, t, now) && now <= later
    ensures Spaced(cfg, t, later) && Spaced(cfg, t.(events := Recent(t.events, later)), later)
  {
  }

  lemma {:induction false} SpacedRun(cfg: Config, steps: seq<Step>)
    requires DistinctNames(cfg) && Clocked(cfg, steps)
    ensures Spaced(cfg, Run(cfg, steps), if steps == [] then 0 else steps[|steps| - 1].now)
  {
    if steps != [] {
      var n := |steps| - 1;
      SpacedRun(cfg, steps[..n]);
      var t := Run(cfg, steps[..n]);
      SpacedLater(cfg, t, if n == 0 then 0 else steps[n - 1].now, steps[n].now);
      if steps[n].Cycle? {
        SpacedSteps(cfg, t, steps[n].now, steps[n].answers, |cfg.accounts|);
      }
    }
  }

  // Any two live attempts of one account are at least its cooldown apart, through errors, skipped
  // cycles and restarts.
  lemma CooldownHolds(cfg: Config, steps: seq<Step>, i: nat, j: nat, k: nat)
    requires DistinctNames(cfg) && Clocked(cfg, steps)
    requires i < j < |Run(cfg, steps).attempts| && k < |cfg.accounts|
    requires Run(cfg, steps).attempts[i].account == Run(cfg, steps).attempts[j].account == cfg.accounts[k].name
    ensures Run(cfg, steps).attempts[j].at - Run(cfg, steps).attempts[i].at >= Cooldown(Normalize(cfg.accounts[k]))
  {
    SpacedRun(cfg, steps);
  }

  // ------------------------------------------------------------------ the running monitor

  // The event records the deposit's own account of itself.
  predicate EventOf(e: Event, d: Deposit) {
    e.status == d.status && e.txHash == d.txHash && e.dryRun == d.dryRun && e.completedAt == d.completedAt
  }

  class Runner {
    const cfg: Config
    var accounts: map<string, AccountState>
    var events: seq<Event>
    ghost var recorded: seq<Event>
    ghost var attempts: seq<Attempt>

    ghost function View(): Trace reads this {
      Trace(accounts, events, recorded, attempts)
    }

    constructor (cfg: Config)
      ensures View() == START && this.cfg == cfg
    {
      this.cfg := cfg;
      accounts, events, recorded, attempts := map[], [], [], [];
    }

    function Known(name: string): AccountState reads this {
      if name in accounts then accounts[name] else NO_STATE
    }

    // recentEvents keeps the order of what it keeps.
    method RecentEvents(now: int) returns (kept: seq<Event>)
      ensures kept == Recent(events, now)
    {
      kept := [];
      for i := 0 to |events|
        invariant kept == Recent(events[..i], now)
      {
        assert events[..i + 1][..i] == events[..i];
        if events[i].completedAt == 0 || events[i].completedAt < now - DAY {
          continue;
        }
        kept := kept + [events[i]];
      }
      assert events[..|events|] == events;
    }

    method SpentToday(now: int) returns (total: real)
      ensures total == DailySpent(events, now)
    {
      total := 0.0;
      var cutoff := now - DAY;
      for i := 0 to |events|
        invariant total == DailySpent(events[..i], now)
      {
        assert events[..i + 1][..i] == events[..i];
        if events[i].dryRun || events[i].status != Success || events[i].completedAt < cutoff {
          continue;
        }
        total := total + events[i].amount;
      }
      assert events[..|events|] == events;
    }

    method Record(plan: Plan, result: Result<Deposit, string>)
      modifies this
      ensures View() == RecordResult(old(View()), plan, result)
    {
      var account := NO_STATE.(lastAmount := plan.amount, lastBalance := plan.balance.balanceUSD);
      if !plan.dryRun {
        account := account.(lastAttemptAt := plan.now);
        attempts := attempts + [Attempt(plan.account.name, plan.now)];
      }
      match result {
        case Err(error) =>
          account := account.(lastStatus := Errored, lastError := Failure(error));
        case Ok(d) =>
          account := account.(lastStatus := d.status, lastTxHash := d.txHash);
          if d.status == Success {
            account := account.(lastSuccessAt := d.completedAt);
          }
          var e := Event(plan.account.name, plan.amount, d.dryRun, d.status, d.txHash, d.completedAt);
          var kept := RecentEvents(plan.now);
          events := kept + [e];
          recorded := recorded + [e];
      }
      accounts := accounts[plan.account.name := account];
    }

    method Observe(a: Account, b: Balance, status: Status, detail: Detail)
      modifies this`accounts
      ensures View() == RecordObservation(old(View()), a, b, status, detail)
    {
      var record := Known(a.name);
      record := record.(lastStatus := status);
      record := record.(lastBalance := b.balanceUSD);
      record := record.(lastError := detail);
      accounts := accounts[a.name := record];
    }

    method Fail(a: Account, b: Balance, error: string)
      modifies this`accounts
      ensures View() == RecordError(old(View()), a, b, error)
    {
      var record := Known(a.name);
      record := record.(lastStatus := Errored);
      if b.balanceUSD != 0.0 {
        record := record.(lastBalance := b.balanceUSD);
      }
      record := record.(lastError := Failure(error));
      accounts := accounts[a.name := record];
    }

    // The part of a cycle that concerns one account.
    method Serve(a: Account, now: int, answer: Answer) returns (deposited: Option<Deposit>)
      modifies this
      ensures View() == StepAccount(cfg, old(View()), a, now, answer)
      ensures deposited.Some? <==> recorded != old(recorded)
      ensures deposited.Some? ==> |recorded| == |old(recorded)| + 1 && EventOf(recorded[|old(recorded)|], deposited.value)
      ensures deposited.Some? ==> answer.deposit == Ok(deposited.value)
    {
      deposited := None;
      if answer.balanceError.Some? {
        Fail(a, answer.balance, answer.balanceError.value);
        return;
      }
      var decision := PlanDeposit(cfg, a, answer.balance, Known(a.name), now);
      if decision.Skipped? {
        Observe(a, answer.balance, SkippedOver, Why(decision.reason));
        return;
      }
      if cfg.dailyCap > 0.0 && !decision.plan.dryRun {
        var spent := SpentToday(now);
        if spent + decision.plan.amount > cfg.dailyCap {
          return;
        }
      }
      Record(decision.plan, answer.deposit);
      if answer.deposit.Ok? {
        deposited := Some(answer.deposit.value);
      }
    }

    method RunOnce(now: int, answers: seq<Answer>) returns (results: seq<Deposit>, stopped: bool)
      requires |answers| == |cfg.accounts|
      modifies this
      ensures View() == StepAccounts(cfg, old(View()), now, answers, |answers|)
      ensures stopped <==> exists k :: 0 <= k < |answers| && answers[k].cancelled
      ensures |recorded| == |old(recorded)| + |results|
      ensures forall i | 0 <= i < |results| :: EventOf(recorded[|old(recorded)| + i], results[i])
    {
      results, stopped := [], false;
      for i := 0 to |cfg.accounts|
        invariant View() == StepAccounts(cfg, old(View()), now, answers, i)
        invariant forall k | 0 <= k < i :: !answers[k].cancelled
        invariant |recorded| == |old(recorded)| + |results|
        invariant forall m | 0 <= m < |results| :: EventOf(recorded[|old(recorded)| + m], results[m])
      {
        if answers[i].cancelled {
          CancelledRest(cfg, old(View()), now, answers, i, |answers|);
          return results, true;
        }
        label before:
        StepAccountGrows(cfg, View(), Normalize(cfg.accounts[i]), now, answers[i]);
        var deposited := Serve(Normalize(cfg.accounts[i]), now, answers[i]);
        if deposited.Some? {
          results := results + [deposited.value];
        }
      }
    }
  }

  lemma StepAccountGrows(cfg: Config, t: Trace, a: Account, now: int, answer: Answer)
    ensures t.recorded <= StepAccount(cfg, t, a, now, answer).recorded
  {
  }

  lemma {:induction false} CancelledRest(cfg: Config, t: Trace, now: int, answers: seq<Answer>, k: nat, n: nat)
    requires k < |answers| == |cfg.accounts| && answers[k].cancelled && k <= n <= |answers|
    ensures StepAccounts(cfg, t, now, answers, n) == StepAccounts(cfg, t, now, answers, k)
  {
    if n > k {
      assert CancelledBefore(answers, n);
      CancelledRest(cfg, t, now, answers, k, n - 1);
    }
  }
}
