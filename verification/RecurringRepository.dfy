/** Executing recurring rules: one locked rule at a time, by hand or in a scheduler's loop. */
module RecurringRepository {
  import opened Common
  import opened Sums
  import opened Ledger
  import opened Schedule
  import opened Recurring
  import TransactionRepository

  datatype Run = Run(ruleID: Id, scheduledFor: Instant, transactionID: Id, runType: RunType)

  /** What one turn of the scheduler came to: no rule was due, an occurrence ran, or one that already
      had its run was passed over. */
  datatype Turn = Idle | Ran(run: Run) | PassedOver

  /** A turn's choices: the rule picked and the identifier its transaction would get. */
  datatype Pick = Pick(id: Id, txID: Id)

  /** The CHECK constraints of the rules table: a positive interval and a known frequency. */
  predicate CadencesValid(rules: map<Id, Rule>) {
    forall id :: id in rules ==> ValidCadence(rules[id].cadence)
  }

  predicate NothingDue(rules: map<Id, Rule>, now: Instant) {
    forall id :: id in rules ==> !Due(rules[id], now)
  }

  predicate EarliestDue(rules: map<Id, Rule>, id: Id, now: Instant) {
    && id in rules && Due(rules[id], now)
    && forall other :: other in rules && Due(rules[other], now) ==> rules[id].nextRunAt <= rules[other].nextRunAt
  }

  lemma {:induction false} EarliestOf(rules: map<Id, Rule>, ids: set<Id>) returns (first: Id)
    requires ids != {} && ids <= rules.Keys
    ensures first in ids && forall id :: id in ids ==> rules[first].nextRunAt <= rules[id].nextRunAt
    decreases |ids|
  {
    var id :| id in ids;
    if ids == {id} {
      return id;
    }
    var rest := EarliestOf(rules, ids - {id});
    first := if rules[id].nextRunAt <= rules[rest].nextRunAt then id else rest;
  }

  lemma EarliestExists(rules: map<Id, Rule>, now: Instant)
    ensures NothingDue(rules, now) || exists id :: EarliestDue(rules, id, now)
  {
    var due := set id | id in rules && Due(rules[id], now);
    if due == {} {
      forall id | id in rules ensures !Due(rules[id], now) {
        assert id !in due;
      }
    } else {
      var first := EarliestOf(rules, due);
      assert EarliestDue(rules, first, now);
    }
  }

  // ---------------------------------------------------------------- the work left

  /** No occurrence after this instant is due. */
  function Horizon(rule: Rule, now: Instant): Instant {
    if rule.endAt.Some? && rule.endAt.value < now then rule.endAt.value else now
  }

  /** How many occurrences of a rule are due by now and not past its end. */
  function Remaining(rule: Rule, now: Instant): (n: nat)
    requires ValidCadence(rule.cadence)
  {
    if !Runnable(rule) then 0 else CountUpTo(rule.nextRunAt, rule.cadence, Horizon(rule, now))
  }

  function Counts(rules: map<Id, Rule>, now: Instant): (counts: map<Id, int>)
    requires CadencesValid(rules)
    ensures counts.Keys == rules.Keys
    ensures forall id :: id in counts ==> 0 <= counts[id]
  {
    map id | id in rules :: Remaining(rules[id], now)
  }

  ghost function Backlog(rules: map<Id, Rule>, now: Instant): (n: nat)
    requires CadencesValid(rules)
  {
    SumNonNegative(Counts(rules, now));
    Sum(Counts(rules, now))
  }

  lemma CountStep(t: Instant, c: Cadence, later: Instant, bound: Instant)
    requires Linked(c, t, later) && t <= bound
    ensures CountUpTo(t, c, bound) == 1 + CountUpTo(later, c, bound)
    ensures later > bound ==> CountUpTo(later, c, bound) == 0
  {
  }

  lemma RemainingDrops(rule: Rule, now: Instant)
    requires ValidCadence(rule.cadence) && Due(rule, now)
    ensures Advanced(rule, now).Ok? && ValidCadence(Advanced(rule, now).value.cadence)
    ensures Remaining(Advanced(rule, now).value, now) == Remaining(rule, now) - 1
  {
    AdvanceMovesOneStep(rule, now);
    CountStep(rule.nextRunAt, rule.cadence, Advanced(rule, now).value.nextRunAt, Horizon(rule, now));
  }

  lemma CountsUpdate(rules: map<Id, Rule>, id: Id, next: Rule, now: Instant)
    requires CadencesValid(rules) && id in rules && ValidCadence(next.cadence)
    ensures CadencesValid(rules[id := next])
    ensures Counts(rules[id := next], now) == Counts(rules, now)[id := Remaining(next, now)]
  {
  }

  /** Passing one due occurrence lowers the work left by exactly one. */
  lemma BacklogDrops(rules: map<Id, Rule>, id: Id, now: Instant)
    requires CadencesValid(rules) && id in rules && Due(rules[id], now)
    ensures Advanced(rules[id], now).Ok?
    ensures CadencesValid(rules[id := Advanced(rules[id], now).value])
    ensures Backlog(rules[id := Advanced(rules[id], now).value], now) == Backlog(rules, now) - 1
  {
    RemainingDrops(rules[id], now);
    var next := Advanced(rules[id], now).value;
    CountsUpdate(rules, id, next, now);
    SumUpdate(Counts(rules, now), id, Remaining(next, now));
  }

  // ---------------------------------------------------------------- turns

  function TurnOf(st: State, pick: Pick, now: Instant): Outcome
    requires pick.id in st.rules
  {
    Execute(st, pick.id, st.rules[pick.id], Scheduled, now, pick.txID)
  }

  /** The pick is the earliest due rule and its turn succeeds. */
  predicate GoodPick(st: State, pick: Pick, now: Instant) {
    EarliestDue(st.rules, pick.id, now) && !TurnOf(st, pick, now).Refused?
  }

  function RunOf(rule: Rule, pick: Pick, runType: RunType): Run {
    Run(pick.id, rule.nextRunAt, pick.txID, runType)
  }

  /** The tables after a scheduler's turns, and the runs those turns emitted. */
  datatype Replay = Replay(st: State, emitted: seq<Run>, good: bool)

  function Replayed(st: State, picks: seq<Pick>, now: Instant): Replay {
    if picks == [] then Replay(st, [], true)
    else
      var pick, before := picks[|picks| - 1], Replayed(st, picks[..|picks| - 1], now);
      if !before.good || !GoodPick(before.st, pick, now) then before.(good := false)
      else match TurnOf(before.st, pick, now)
        case Skipped(after) => Replay(after, before.emitted, true)
        case Executed(after) => Replay(after, before.emitted + [RunOf(before.st.rules[pick.id], pick, Scheduled)], true)
  }

  lemma {:induction false} ReplayedOneMore(st: State, picks: seq<Pick>, now: Instant, pick: Pick)
    requires Replayed(st, picks, now).good && GoodPick(Replayed(st, picks, now).st, pick, now)
    ensures
      var before, after := Replayed(st, picks, now), Replayed(st, picks + [pick], now);
      var turn := TurnOf(before.st, pick, now);
      && after.good && after.st == turn.state
      && after.emitted
         == before.emitted + (if turn.Executed? then [RunOf(before.st.rules[pick.id], pick, Scheduled)] else [])
  {
    assert (picks + [pick])[..|picks|] == picks;
  }

  /** Runs come out in order of their scheduled instants, and none is later than what is still due. */
  predicate InOrder(runs: seq<Run>, rules: map<Id, Rule>, now: Instant) {
    && (forall i, j :: 0 <= i < j < |runs| ==> runs[i].scheduledFor <= runs[j].scheduledFor)
    && (forall i, id :: 0 <= i < |runs| && id in rules && Due(rules[id], now) ==>
          runs[i].scheduledFor <= rules[id].nextRunAt)
  }

  lemma TurnKeepsOrder(runs: seq<Run>, rules: map<Id, Rule>, now: Instant, pick: Pick, more: seq<Run>)
    requires InOrder(runs, rules, now) && EarliestDue(rules, pick.id, now) && ValidCadence(rules[pick.id].cadence)
    requires more == [] || more == [RunOf(rules[pick.id], pick, Scheduled)]
    ensures Advanced(rules[pick.id], now).Ok?
    ensures InOrder(runs + more, rules[pick.id := Advanced(rules[pick.id], now).value], now)
  {
    AdvanceMovesOneStep(rules[pick.id], now);
  }

  /** Where a scheduler stands after some turns: each took the earliest due rule, used up one due
      occurrence, and kept the emitted runs in order. */
  ghost predicate Progress(begun: State, st: State, emitted: seq<Run>, picks: seq<Pick>, now: Instant) {
    && CadencesValid(begun.rules) && CadencesValid(st.rules)
    && Replayed(begun, picks, now) == Replay(st, emitted, true)
    && Backlog(st.rules, now) == Backlog(begun.rules, now) - |picks|
    && InOrder(emitted, st.rules, now)
  }

  lemma {:induction false} TurnMakesProgress(begun: State, st: State, emitted: seq<Run>, picks: seq<Pick>,
      now: Instant, pick: Pick)
    requires Progress(begun, st, emitted, picks, now) && GoodPick(st, pick, now)
    ensures
      var turn := TurnOf(st, pick, now);
      var more := if turn.Executed? then [RunOf(st.rules[pick.id], pick, Scheduled)] else [];
      && Progress(begun, turn.state, emitted + more, picks + [pick], now)
      && Backlog(turn.state.rules, now) < Backlog(st.rules, now)
  {
    var turn := TurnOf(st, pick, now);
    BacklogDrops(st.rules, pick.id, now);
    TurnKeepsOrder(emitted, st.rules, now, pick,
                   if turn.Executed? then [RunOf(st.rules[pick.id], pick, Scheduled)] else []);
    ReplayedOneMore(begun, picks, now, pick);
  }

  class RecurringRepository {
    const transactions: TransactionRepository.TransactionRepository
    var rules: map<Id, Rule>
    var runs: map<(Id, Instant), RunRow>

    constructor (ledger: TransactionRepository.TransactionRepository, storedRules: map<Id, Rule>,
        storedRuns: map<(Id, Instant), RunRow>)
      ensures transactions == ledger && rules == storedRules && runs == storedRuns
    {
      transactions, rules, runs := ledger, storedRules, storedRuns;
    }

    function Tables(): State
      reads this, transactions
    {
      State(transactions.db, rules, runs)
    }

    method AdvanceLockedRule(id: Id, rule: Rule, now: Instant) returns (error: Option<RunError>)
      modifies this`rules
      ensures match Advanced(rule, now)
              case Err(e) => error == Some(CannotAdvance(e)) && rules == old(rules)
              case Ok(next) => error == None && rules == old(rules)[id := next]
    {
      match NextStateAfterRun(rule.nextRunAt, rule.cadence, rule.endAt, rule.status)
      case Err(e) =>
        error := Some(CannotAdvance(e));
      case Ok((nextRunAt, status)) =>
        rules := rules[id := rule.(nextRunAt := nextRunAt, status := status, lastRunAt := Some(now))];
        error := None;
    }

    /** Runs within the caller's database transaction; the caller rolls back unless it keeps the result. */
    method ExecuteLocked(id: Id, rule: Rule, runType: RunType, now: Instant,
        txID: Id) returns (r: Result<Run, RunError>)
      modifies this, transactions
      ensures match Execute(old(Tables()), id, rule, runType, now, txID)
              case Refused(e) => r == Err(e) && e != AlreadyRun
              case Skipped(st) => r == Err(AlreadyRun) && Tables() == st
              case Executed(st) => r == Ok(RunOf(rule, Pick(id, txID), runType)) && Tables() == st
    {
      if rule.status != Active {
        return Err(RuleInactive);
      }
      var scheduledFor := rule.nextRunAt;
      if rule.endAt.Some? && scheduledFor > rule.endAt.value {
        return Err(RuleInactive);
      }
      if (id, scheduledFor) in runs {
        var refused := AdvanceLockedRule(id, rule, now);
        if refused.Some? {
          return Err(refused.value);
        }
        return Err(AlreadyRun);
      }
      var created := transactions.CreateInTx(rule.userID, txID, Posting(rule));
      if created.Err? {
        return Err(CannotPost(created.error));
      }
      runs := runs[(id, scheduledFor) := RunRow(rule.userID, runType, txID)];
      var refused := AdvanceLockedRule(id, rule, now);
      if refused.Some? {
        return Err(refused.value);
      }
      return Ok(Run(id, scheduledFor, txID, runType));
    }

    method Rollback(begun: State)
      modifies this, transactions
      ensures Tables() == begun
    {
      transactions.db := begun.db;
      rules, runs := begun.rules, begun.runs;
    }

    /** A manual run commits only an occurrence that runs now; everything else leaves the tables alone. */
    method RunManual(userID: Id, id: Id, now: Instant, txID: Id) returns (r: Result<Run, RunError>)
      modifies this, transactions
      ensures
        var st := old(Tables());
        if id !in st.rules || st.rules[id].userID != userID then r == Err(RuleNotFound) && Tables() == st
        else match Execute(st, id, st.rules[id], Manual, now, txID)
          case Refused(e) => r == Err(e) && Tables() == st
          case Skipped(_) => r == Err(AlreadyRun) && Tables() == st
          case Executed(after) => r == Ok(RunOf(st.rules[id], Pick(id, txID), Manual)) && Tables() == after
    {
      if id !in rules || rules[id].userID != userID {
        return Err(RuleNotFound);
      }
      var begun := Tables();
      r := ExecuteLocked(id, rules[id], Manual, now, txID);
      if r.Err? {
        Rollback(begun);
      }
    }

    method RunOneDue(now: Instant, txID: Id) returns (r: Result<Turn, RunError>, ghost picked: Id)
      requires CadencesValid(rules)
      modifies this, transactions
      ensures
        var st := old(Tables());
        if NothingDue(st.rules, now) then r == Ok(Idle) && Tables() == st
        else
          && EarliestDue(st.rules, picked, now)
          && match TurnOf(st, Pick(picked, txID), now)
             case Refused(e) => r == Err(e) && Tables() == st
             case Skipped(after) => r == Ok(PassedOver) && Tables() == after
             case Executed(after) =>
               r == Ok(Ran(RunOf(st.rules[picked], Pick(picked, txID), Scheduled))) && Tables() == after
    {
      picked := NO_ID;
      if NothingDue(rules, now) {
        return Ok(Idle), NO_ID;
      }
      EarliestExists(rules, now);
      var id :| id in rules && EarliestDue(rules, id, now);
      picked := id;
      var begun := Tables();
      var executed := ExecuteLocked(id, rules[id], Scheduled, now, txID);
      match executed
      case Ok(run) =>
        r := Ok(Ran(run));
      case Err(error) =>
        if error == AlreadyRun {
          r := Ok(PassedOver);
        } else {
          Rollback(begun);
          r := Err(error);
        }
    }

    /** A scheduler alone: its turns take the earliest due rule each time, use up one due occurrence
        each, and stop at the limit, at the first rule that cannot post, or when nothing is due. */
    method RunDue(now: Instant, limit: int, uuids: nat -> Id)
      returns (emitted: seq<Run>, failure: Option<RunError>, ghost picks: seq<Pick>)
      requires CadencesValid(rules)
      modifies this, transactions
      ensures Progress(old(Tables()), Tables(), emitted, picks, now)
      ensures |emitted| <= if limit <= 0 then 20 else limit
      ensures failure.None? ==> |emitted| == (if limit <= 0 then 20 else limit) || NothingDue(rules, now)
      ensures failure.Some? ==>
        exists id :: EarliestDue(rules, id, now)
                  && TurnOf(Tables(), Pick(id, uuids(|picks|)), now) == Refused(failure.value)
    {
      var max := if limit <= 0 then 20 else limit;
      emitted, failure, picks := [], None, [];
      var turns: nat := 0;
      while |emitted| < max
        invariant |emitted| <= max && turns == |picks|
        invariant Progress(old(Tables()), Tables(), emitted, picks, now)
        decreases Backlog(rules, now)
      {
        ghost var before := Tables();
        var turn, id := RunOneDue(now, uuids(turns));
        if turn.Err? {
          assert EarliestDue(rules, id, now);
          return emitted, Some(turn.error), picks;
        }
        if turn.value.Idle? {
          break;
        }
        TurnMakesProgress(old(Tables()), before, emitted, picks, now, Pick(id, uuids(turns)));
        picks := picks + [Pick(id, uuids(turns))];
        turns := turns + 1;
        if turn.value.Ran? {
          emitted := emitted + [turn.value.run];
        }
      }
    }
  }
}
