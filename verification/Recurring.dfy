/** Recurring rules: what a valid rule is, and what executing one occurrence of a rule does to the
    tables. The loops that call it are in RecurringRepository.dfy, concurrent workers in
    RecurringWorkers.dfy. */
module Recurring {
  import opened Common
  import opened Ledger
  import opened Schedule
  import TransactionRepository

  datatype RuleInput = RuleInput(
    name: string,
    kind: TransactionType,
    walletID: Id,
    toWalletID: Id,
    categoryID: Id,
    amountMinor: int,
    cadence: Cadence,
    nextRunAt: Instant,
    endAt: Option<Instant>,
    status: Status,
    note: string)

  datatype RuleError =
    | NameRequired | IntervalNegative | FrequencyInvalid | StatusInvalid | NextRunRequired | EndBeforeNextRun
    | TransactionInvalid(reason: InputError)
    | CadenceInvalid(error: ScheduleError)

  datatype Rule = Rule(
    userID: Id,
    name: string,
    kind: TransactionType,
    walletID: Id,
    toWalletID: Id,
    categoryID: Id,
    amountMinor: int,
    cadence: Cadence,
    nextRunAt: Instant,
    endAt: Option<Instant>,
    lastRunAt: Option<Instant>,
    status: Status,
    note: string)

  const UNSET_STATUS: Status := OtherStatus("")

  /** An interval of zero stands for one, an empty status for active. */
  function Normalized(input: RuleInput): RuleInput {
    input.(cadence := input.cadence.(intervalCount :=
             if input.cadence.intervalCount == 0 then 1 else input.cadence.intervalCount),
           status := if input.status == UNSET_STATUS then Active else input.status)
  }

  function RuleFor(userID: Id, input: RuleInput, lastRunAt: Option<Instant>): Rule {
    var n := Normalized(input);
    Rule(userID, n.name, n.kind, n.walletID, n.toWalletID, n.categoryID, n.amountMinor, n.cadence,
         n.nextRunAt, n.endAt, lastRunAt, n.status, n.note)
  }

  /** The transaction that an occurrence posts, dated when it was due. */
  function Posting(rule: Rule): TransactionInput {
    TransactionInput(rule.kind, rule.walletID, rule.toWalletID, rule.categoryID, rule.amountMinor, 0, [],
                     rule.nextRunAt, if rule.note == "" then "Recurring transaction: " + rule.name else rule.note)
  }

  /** None when the input is acceptable. */
  function Validate(input: RuleInput): (r: Option<RuleError>)
    ensures r.None? ==> RuleOk(RuleFor(NO_ID, input, None)) && ValidInput(Posting(RuleFor(NO_ID, input, None)))
    ensures r.None? <==>
      && input.name != ""
      && ValidCadence(Normalized(input).cadence)
      && !Normalized(input).status.OtherStatus?
      && (input.endAt.Some? ==> input.nextRunAt <= input.endAt.value)
      && ValidInput(Posting(RuleFor(NO_ID, input, None)))
  {
    var posting := Posting(RuleFor(NO_ID, input, None));
    if input.name == "" then Some(NameRequired)
    else if input.cadence.intervalCount < 0 then Some(IntervalNegative)
    else if input.cadence.frequency.OtherFrequency? then Some(FrequencyInvalid)
    else if input.status != UNSET_STATUS && input.status.OtherStatus? then Some(StatusInvalid)
    else if input.nextRunAt == ZERO_TIME then Some(NextRunRequired)
    else if input.endAt.Some? && input.endAt.value < input.nextRunAt then Some(EndBeforeNextRun)
    else match BalanceDeltas(posting)
      case Err(reason) => Some(TransactionInvalid(reason))
      case Ok(_) =>
        match AdvanceNextRunAt(input.nextRunAt, Normalized(input).cadence)
        case Err(error) => Some(CadenceInvalid(error))
        case Ok(_) => None
  }

  /** What every stored rule satisfies: its cadence can be stepped, and while it is active its next
      run is not past its end. */
  predicate RuleOk(rule: Rule) {
    && ValidCadence(rule.cadence)
    && (rule.status == Active && rule.endAt.Some? ==> rule.nextRunAt <= rule.endAt.value)
  }

  datatype RunType = Manual | Scheduled

  datatype RunRow = RunRow(userID: Id, runType: RunType, transactionID: Id)

  /** The rules, the runs that were executed, keyed by rule and scheduled instant, and the ledger. */
  datatype State = State(db: Database, rules: map<Id, Rule>, runs: map<(Id, Instant), RunRow>)

  datatype RunError =
    | RuleNotFound | RuleInactive | AlreadyRun
    | CannotPost(reason: TransactionRepository.LedgerError)
    | CannotAdvance(error: ScheduleError)

  /** The occurrence has not been reached by the end date and the rule is running. */
  predicate Runnable(rule: Rule) {
    rule.status == Active && (rule.endAt.Some? ==> rule.nextRunAt <= rule.endAt.value)
  }

  predicate Due(rule: Rule, now: Instant) {
    Runnable(rule) && rule.nextRunAt <= now
  }

  function Advanced(rule: Rule, now: Instant): Result<Rule, ScheduleError> {
    match NextStateAfterRun(rule.nextRunAt, rule.cadence, rule.endAt, rule.status)
    case Err(error) => Err(error)
    case Ok((nextRunAt, status)) => Ok(rule.(nextRunAt := nextRunAt, status := status, lastRunAt := Some(now)))
  }

  /** What executing the next occurrence of a locked rule leads to. */
  datatype Outcome =
    | Refused(error: RunError)
    | Skipped(state: State)
    | Executed(state: State)

  function Execute(st: State, id: Id, rule: Rule, runType: RunType, now: Instant, txID: Id): Outcome {
    if !Runnable(rule) then Refused(RuleInactive)
    else if (id, rule.nextRunAt) in st.runs then
      match Advanced(rule, now)
      case Err(error) => Refused(CannotAdvance(error))
      case Ok(next) => Skipped(st.(rules := st.rules[id := next]))
    else if !CreateSucceeds(st.db, rule.userID, txID, Posting(rule)) then
      Refused(CannotPost(TransactionRepository.PostError(st.db, rule.userID, Posting(rule))))
    else
      match Advanced(rule, now)
      case Err(error) => Refused(CannotAdvance(error))
      case Ok(next) =>
        Executed(State(AfterCreate(st.db, rule.userID, txID, Posting(rule)),
                       st.rules[id := next],
                       st.runs[(id, rule.nextRunAt) := RunRow(rule.userID, runType, txID)]))
  }

  // ---------------------------------------------------------------- the orbit of a rule

  predicate Linked(c: Cadence, a: Instant, b: Instant) {
    ValidCadence(c) && b == Next(a, c) && a < b
  }

  /** Advancing keeps a rule acceptable and moves it one calendar step on. */
  lemma AdvanceMovesOneStep(rule: Rule, now: Instant)
    requires RuleOk(rule)
    ensures Advanced(rule, now).Ok?
    ensures
      var next := Advanced(rule, now).value;
      && RuleOk(next) && next.cadence == rule.cadence && next.endAt == rule.endAt && next.userID == rule.userID
      && Linked(rule.cadence, rule.nextRunAt, next.nextRunAt)
  {
    NextIsLater(rule.nextRunAt, rule.cadence);
  }

  /** The instants a rule has left behind since it was last edited, each one calendar step after the
      one before, without gaps. */
  predicate Chain(c: Cadence, start: Instant, history: seq<Instant>, next: Instant) {
    && (if history == [] then next == start else history[0] == start && Linked(c, history[|history| - 1], next))
    && forall i, j :: 0 <= i && j == i + 1 < |history| ==> Linked(c, history[i], history[j])
  }

  lemma ChainExtends(c: Cadence, start: Instant, history: seq<Instant>, next: Instant, later: Instant)
    requires Chain(c, start, history, next) && Linked(c, next, later)
    ensures Chain(c, start, history + [next], later)
  {
  }

  lemma ChainPrefix(c: Cadence, start: Instant, history: seq<Instant>, next: Instant, k: nat)
    requires Chain(c, start, history, next) && k < |history|
    ensures Chain(c, start, history[..k], history[k])
  {
  }

  /** A chain is the rule's orbit. */
  lemma {:induction false} ChainIsOrbit(c: Cadence, start: Instant, history: seq<Instant>, next: Instant)
    requires ValidCadence(c) && Chain(c, start, history, next)
    ensures next == Occurrence(start, c, |history|)
    decreases |history|
  {
    if history != [] {
      var last := |history| - 1;
      ChainPrefix(c, start, history, next, last);
      ChainIsOrbit(c, start, history[..last], history[last]);
    }
  }
}
