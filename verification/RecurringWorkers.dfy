/** Schedulers, manual runs, edits and ledger calls working side by side. A worker holds the row lock
    of the rule it picked until it commits or rolls back; nothing else touches a locked rule. */
module RecurringWorkers {
  import opened Common
  import opened Ledger
  import opened LedgerRuns
  import opened Schedule
  import opened Recurring

  /** The instants for which a rule has a run. */
  function Instants(runs: map<(Id, Instant), RunRow>, id: Id): set<Instant> {
    set key | key in runs && key.0 == id :: key.1
  }

  type Worker = nat

  /** A rule row as read under its lock. */
  datatype Hold = Hold(id: Id, rule: Rule, runType: RunType)

  /** A ledger call committed on behalf of an occurrence. */
  datatype Post = Post(ruleID: Id, scheduledFor: Instant, call: Op)

  /** What has become of a rule since it was created or last edited: where it started, the instants it
      has left behind, and the instants that already had a run before. */
  datatype Track = Track(start: Instant, history: seq<Instant>, base: set<Instant>, edited: bool)

  datatype System = System(
    books: Books,
    rules: map<Id, Rule>,
    runs: map<(Id, Instant), RunRow>,
    holds: map<Worker, Hold>,
    tracks: map<Id, Track>,
    born: set<Id>,
    posted: seq<Post>)

  datatype Step =
    | PickDue(worker: Worker, id: Id, now: Instant)
    | PickManual(worker: Worker, userID: Id, id: Id)
    | Finish(worker: Worker, now: Instant, txID: Id)
    | Abort(worker: Worker)
    | CreateRule(userID: Id, id: Id, input: RuleInput)
    | EditRule(userID: Id, id: Id, input: RuleInput)
    | DeleteRule(userID: Id, id: Id)
    | OtherLedgerCall(op: Op)

  predicate Held(sys: System, id: Id) {
    exists w :: w in sys.holds && sys.holds[w].id == id
  }

  function Picked(sys: System, worker: Worker, id: Id, runType: RunType): System {
    if worker in sys.holds || id !in sys.rules || Held(sys, id) then sys
    else sys.(holds := sys.holds[worker := Hold(id, sys.rules[id], runType)])
  }

  function Released(sys: System, worker: Worker): System {
    sys.(holds := sys.holds - {worker})
  }

  /** Commits the tables an execution leads to; the rule moves on by one instant. */
  function Installed(sys: System, id: Id, rule: Rule, st: State): System
    requires id in sys.tracks
  {
    var track := sys.tracks[id];
    sys.(books := sys.books.(db := st.db), rules := st.rules, runs := st.runs,
         tracks := sys.tracks[id := track.(history := track.history + [rule.nextRunAt])])
  }

  /** Commits or rolls back what an execution came to. A manual run of an occurrence that already has
      its run is rolled back; a scheduled one still moves the rule on. */
  function Settled(sys: System, worker: Worker, txID: Id, outcome: Outcome): System
    requires worker in sys.holds && sys.holds[worker].id in sys.tracks
  {
    var Hold(id, rule, runType) := sys.holds[worker];
    var done := Released(sys, worker);
    match outcome
    case Refused(_) => done
    case Skipped(st) => if runType.Manual? then done else Installed(done, id, rule, st)
    case Executed(st) =>
      Installed(done, id, rule, st)
        .(posted := sys.posted + [Post(id, rule.nextRunAt, Create(rule.userID, txID, Posting(rule)))])
  }

  function OutcomeOf(sys: System, hold: Hold, now: Instant, txID: Id): Outcome {
    Execute(State(sys.books.db, sys.rules, sys.runs), hold.id, hold.rule, hold.runType, now, txID)
  }

  function Finished(sys: System, worker: Worker, now: Instant, txID: Id): System
    requires worker in sys.holds
  {
    if sys.holds[worker].id !in sys.tracks then Released(sys, worker)
    else Settled(sys, worker, txID, OutcomeOf(sys, sys.holds[worker], now, txID))
  }

  predicate Writable(sys: System, userID: Id, input: RuleInput) {
    var posting := Posting(RuleFor(userID, input, None));
    Validate(input).None? && RefsExist(sys.books.db, userID, posting) && RowAllowed(posting)
  }

  /** Stores a rule at the start of a new orbit. */
  function Written(sys: System, id: Id, rule: Rule, base: set<Instant>, edited: bool): System {
    sys.(rules := sys.rules[id := rule],
         tracks := sys.tracks[id := Track(rule.nextRunAt, [], base, edited)],
         born := sys.born + {id})
  }

  function Created(sys: System, userID: Id, id: Id, input: RuleInput): System {
    if id in sys.born || !Writable(sys, userID, input) then sys
    else Written(sys, id, RuleFor(userID, input, None), {}, false)
  }

  function Edited(sys: System, userID: Id, id: Id, input: RuleInput): System {
    if id !in sys.rules || sys.rules[id].userID != userID || Held(sys, id) || !Writable(sys, userID, input) then sys
    else Written(sys, id, RuleFor(userID, input, sys.rules[id].lastRunAt), Instants(sys.runs, id), true)
  }

  /** Deleting a rule deletes its runs; the transactions they posted stay. */
  function Deleted(sys: System, userID: Id, id: Id): System {
    if id !in sys.rules || sys.rules[id].userID != userID || Held(sys, id) then sys
    else
      sys.(rules := sys.rules - {id},
           tracks := sys.tracks - {id},
           runs := map key | key in sys.runs && key.0 != id :: sys.runs[key])
  }

  /** Steps that are blocked, refused or do not apply leave the system as it is. */
  function Exec(sys: System, step: Step): System {
    match step
    case PickDue(worker, id, now) =>
      if id in sys.rules && Due(sys.rules[id], now) then Picked(sys, worker, id, Scheduled) else sys
    case PickManual(worker, userID, id) =>
      if id in sys.rules && sys.rules[id].userID == userID then Picked(sys, worker, id, Manual) else sys
    case Finish(worker, now, txID) => if worker in sys.holds then Finished(sys, worker, now, txID) else sys
    case Abort(worker) => Released(sys, worker)
    case CreateRule(userID, id, input) => Created(sys, userID, id, input)
    case EditRule(userID, id, input) => Edited(sys, userID, id, input)
    case DeleteRule(userID, id) => Deleted(sys, userID, id)
    case OtherLedgerCall(op) => sys.(books := Apply(sys.books, op))
  }

  function ExecAll(sys: System, steps: seq<Step>): System {
    if steps == [] then sys else Exec(ExecAll(sys, steps[..|steps| - 1]), steps[|steps| - 1])
  }

  function Start(books: Books): System {
    System(books, map[], map[], map[], map[], {}, [])
  }

  // ---------------------------------------------------------------- rules follow their orbits

  function Elements(s: seq<Instant>): set<Instant> {
    set t | t in s
  }

  predicate Tracked(rule: Rule, track: Track, executed: set<Instant>) {
    && RuleOk(rule)
    && Chain(rule.cadence, track.start, track.history, rule.nextRunAt)
    && (forall t :: t in track.history ==> t < rule.nextRunAt)
    && executed == track.base + Elements(track.history)
    && (!track.edited ==> track.base == {})
  }

  predicate RuleTracked(sys: System, id: Id)
    requires id in sys.rules && id in sys.tracks
  {
    Tracked(sys.rules[id], sys.tracks[id], Instants(sys.runs, id))
  }

  predicate RulesOk(sys: System) {
    && sys.tracks.Keys == sys.rules.Keys <= sys.born
    && (forall id :: id in sys.rules ==> RuleTracked(sys, id))
    && (forall key :: key in sys.runs ==> key.0 in sys.rules)
  }

  predicate HoldOk(sys: System, hold: Hold) {
    hold.id in sys.rules && hold.rule == sys.rules[hold.id]
  }

  predicate HoldsOk(sys: System) {
    && (forall w :: w in sys.holds ==> HoldOk(sys, sys.holds[w]))
    && (forall v, w :: v in sys.holds && w in sys.holds && v != w ==> sys.holds[v].id != sys.holds[w].id)
  }

  /** What an outcome says about rules and runs; the occurrence was executed before or is executed now. */
  predicate Fits(sys: System, hold: Hold, now: Instant, txID: Id, outcome: Outcome) {
    var Hold(id, rule, runType) := hold;
    match outcome
    case Refused(_) => true
    case Skipped(st) =>
      && Advanced(rule, now).Ok? && st.rules == sys.rules[id := Advanced(rule, now).value]
      && (id, rule.nextRunAt) in sys.runs && st.runs == sys.runs && st.db == sys.books.db
    case Executed(st) =>
      && Advanced(rule, now).Ok? && st.rules == sys.rules[id := Advanced(rule, now).value]
      && (id, rule.nextRunAt) !in sys.runs
      && st.runs == sys.runs[(id, rule.nextRunAt) := RunRow(rule.userID, runType, txID)]
  }

  lemma OutcomeFits(sys: System, hold: Hold, now: Instant, txID: Id)
    ensures Fits(sys, hold, now, txID, OutcomeOf(sys, hold, now, txID))
  {
  }

  /** Executing an instant adds it to its rule's instants, unless it was there already. */
  lemma InstantsGrow(runs: map<(Id, Instant), RunRow>, runs': map<(Id, Instant), RunRow>, id: Id, t: Instant,
                     row: RunRow, other: Id)
    requires runs' == runs[(id, t) := row] || (runs' == runs && (id, t) in runs)
    ensures Instants(runs', other) == if other == id then Instants(runs, id) + {t} else Instants(runs, other)
  {
  }

  lemma InstantsShrink(runs: map<(Id, Instant), RunRow>, id: Id, other: Id)
    requires other != id
    ensures Instants(map key | key in runs && key.0 != id :: runs[key], other) == Instants(runs, other)
  {
  }

  /** Moving on by one instant keeps a rule on its orbit, once the instant left behind has its run. */
  lemma AdvanceKeepsTracked(rule: Rule, track: Track, executed: set<Instant>, now: Instant)
    requires Tracked(rule, track, executed)
    ensures Advanced(rule, now).Ok?
    ensures Tracked(Advanced(rule, now).value, track.(history := track.history + [rule.nextRunAt]),
                    executed + {rule.nextRunAt})
  {
    AdvanceMovesOneStep(rule, now);
    var next := Advanced(rule, now).value;
    ChainExtends(rule.cadence, track.start, track.history, rule.nextRunAt, next.nextRunAt);
  }

  lemma {:induction false} InstallKeepsRules(sys: System, id: Id, rule: Rule, st: State, now: Instant, row: RunRow)
    requires RulesOk(sys) && id in sys.rules && rule == sys.rules[id]
    requires Advanced(rule, now).Ok? && st.rules == sys.rules[id := Advanced(rule, now).value]
    requires st.runs == sys.runs[(id, rule.nextRunAt) := row]
          || (st.runs == sys.runs && (id, rule.nextRunAt) in sys.runs)
    ensures RulesOk(Installed(sys, id, rule, st))
  {
    var after := Installed(sys, id, rule, st);
    assert RuleTracked(after, id) by {
      assert RuleTracked(sys, id);
      InstantsGrow(sys.runs, st.runs, id, rule.nextRunAt, row, id);
      AdvanceKeepsTracked(rule, sys.tracks[id], Instants(sys.runs, id), now);
    }
    forall other | other in after.rules && other != id ensures RuleTracked(after, other) {
      assert RuleTracked(sys, other);
      InstantsGrow(sys.runs, st.runs, id, rule.nextRunAt, row, other);
    }
  }

  lemma ReleaseKeepsRules(sys: System, worker: Worker)
    requires RulesOk(sys)
    ensures RulesOk(Released(sys, worker))
  {
    forall id | id in sys.rules ensures RuleTracked(Released(sys, worker), id) {
      assert RuleTracked(sys, id);
    }
  }

  lemma {:induction false} SettleKeepsRules(sys: System, worker: Worker, now: Instant, txID: Id, outcome: Outcome)
    requires RulesOk(sys) && worker in sys.holds && HoldOk(sys, sys.holds[worker])
    requires Fits(sys, sys.holds[worker], now, txID, outcome)
    ensures RulesOk(Settled(sys, worker, txID, outcome))
  {
    var Hold(id, rule, runType) := sys.holds[worker];
    ReleaseKeepsRules(sys, worker);
    match outcome
    case Refused(_) =>
    case Skipped(st) =>
      InstallKeepsRules(Released(sys, worker), id, rule, st, now, sys.runs[(id, rule.nextRunAt)]);
    case Executed(st) =>
      InstallKeepsRules(Released(sys, worker), id, rule, st, now, RunRow(rule.userID, runType, txID));
  }

  lemma WriteKeepsRules(sys: System, id: Id, rule: Rule, edited: bool)
    requires RulesOk(sys) && RuleOk(rule)
    requires !edited ==> id !in sys.born
    ensures RulesOk(Written(sys, id, rule, Instants(sys.runs, id), edited))
  {
    var after := Written(sys, id, rule, Instants(sys.runs, id), edited);
    assert RuleTracked(after, id);
    forall other | other in after.rules && other != id ensures RuleTracked(after, other) {
      assert RuleTracked(sys, other);
    }
  }

  lemma {:induction false} DeleteKeepsRules(sys: System, userID: Id, id: Id)
    requires RulesOk(sys)
    ensures RulesOk(Deleted(sys, userID, id))
  {
    var after := Deleted(sys, userID, id);
    if after != sys {
      forall other | other in after.rules ensures RuleTracked(after, other) {
        assert RuleTracked(sys, other);
        InstantsShrink(sys.runs, id, other);
      }
    }
  }

  /** Only the rule of a finished worker changes, and no other worker holds it. */
  lemma SettleKeepsHolds(sys: System, worker: Worker, now: Instant, txID: Id, outcome: Outcome)
    requires HoldsOk(sys) && worker in sys.holds && sys.holds[worker].id in sys.tracks
    requires Fits(sys, sys.holds[worker], now, txID, outcome)
    ensures HoldsOk(Settled(sys, worker, txID, outcome))
  {
    var after, id := Settled(sys, worker, txID, outcome), sys.holds[worker].id;
    assert after.holds == sys.holds - {worker};
    forall w | w in after.holds ensures HoldOk(after, after.holds[w]) {
      assert HoldOk(sys, sys.holds[w]) && sys.holds[w].id != id;
    }
  }

  /** A rule that nobody holds may change. */
  lemma UnheldMayChange(sys: System, sys': System, id: Id)
    requires HoldsOk(sys) && !Held(sys, id) && sys'.holds == sys.holds
    requires forall other :: other in sys.rules && other != id ==>
               other in sys'.rules && sys'.rules[other] == sys.rules[other]
    ensures HoldsOk(sys')
  {
  }

  // ---------------------------------------------------------------- at most one transaction each

  predicate PostedFor(post: Post, key: (Id, Instant), row: RunRow) {
    && post.ruleID == key.0 && post.scheduledFor == key.1
    && post.call.Create? && post.call.id == row.transactionID && post.call.userID == row.userID
    && post.call.input.transactionAt == key.1
  }

  predicate PostOk(sys: System, p: Post) {
    p.ruleID in sys.born && (p.ruleID in sys.rules ==> (p.ruleID, p.scheduledFor) in sys.runs)
  }

  predicate SameOccurrence(p: Post, q: Post) {
    p.ruleID == q.ruleID && p.scheduledFor == q.scheduledFor
  }

  predicate PostsOk(sys: System) {
    && (forall i :: 0 <= i < |sys.posted| ==> PostOk(sys, sys.posted[i]))
    && (forall i, j :: 0 <= i < j < |sys.posted| ==> !SameOccurrence(sys.posted[i], sys.posted[j]))
  }

  predicate HasPost(posted: seq<Post>, key: (Id, Instant), row: RunRow) {
    exists p :: p in posted && PostedFor(p, key, row)
  }

  predicate RunsPosted(sys: System) {
    forall key :: key in sys.runs ==> HasPost(sys.posted, key, sys.runs[key])
  }

  /** One more post is safe when its occurrence had no run before and has one now. */
  lemma PostOneMore(sys: System, sys': System, posts: seq<Post>, post: Post)
    requires PostsOk(sys) && sys'.posted == sys.posted + posts
    requires sys'.rules.Keys == sys.rules.Keys && sys'.born == sys.born && sys.runs.Keys <= sys'.runs.Keys
    requires posts == [] || posts == [post]
    requires posts == [post] ==>
      post.ruleID in sys.rules && (post.ruleID, post.scheduledFor) !in sys.runs && PostOk(sys', post)
    ensures PostsOk(sys')
  {
  }

  lemma {:induction false} SettleKeepsPosts(sys: System, worker: Worker, now: Instant, txID: Id, outcome: Outcome)
    requires RulesOk(sys) && worker in sys.holds && HoldOk(sys, sys.holds[worker]) && PostsOk(sys)
    requires Fits(sys, sys.holds[worker], now, txID, outcome)
    ensures PostsOk(Settled(sys, worker, txID, outcome))
  {
    var Hold(id, rule, _) := sys.holds[worker];
    var post := Post(id, rule.nextRunAt, Create(rule.userID, txID, Posting(rule)));
    if outcome.Executed? {
      PostOneMore(sys, Settled(sys, worker, txID, outcome), [post], post);
    } else {
      PostOneMore(sys, Settled(sys, worker, txID, outcome), [], post);
    }
  }

  lemma PostStays(posted: seq<Post>, more: seq<Post>, key: (Id, Instant), row: RunRow)
    requires HasPost(posted, key, row)
    ensures HasPost(posted + more, key, row)
  {
  }

  lemma SettleKeepsRunsPosted(sys: System, worker: Worker, now: Instant, txID: Id, outcome: Outcome)
    requires worker in sys.holds && sys.holds[worker].id in sys.tracks && RunsPosted(sys)
    requires Fits(sys, sys.holds[worker], now, txID, outcome)
    ensures RunsPosted(Settled(sys, worker, txID, outcome))
  {
    var Hold(id, rule, _) := sys.holds[worker];
    var after := Settled(sys, worker, txID, outcome);
    if outcome.Executed? {
      var post := after.posted[|sys.posted|];
      forall key | key in after.runs ensures HasPost(after.posted, key, after.runs[key]) {
        if key in sys.runs {
          PostStays(sys.posted, [post], key, sys.runs[key]);
        } else {
          assert post in after.posted && PostedFor(post, key, after.runs[key]);
        }
      }
    }
  }

  // ---------------------------------------------------------------- the ledger stays in balance

  /** A finished run moves the ledger by exactly the call it records, and by nothing when it records none. */
  lemma FinishMovesLedgerOnce(sys: System, worker: Worker, now: Instant, txID: Id)
    requires worker in sys.holds
    ensures
      var after := Finished(sys, worker, now, txID);
      var Hold(id, rule, _) := sys.holds[worker];
      var call := Create(rule.userID, txID, Posting(rule));
      || (after.books == sys.books && after.posted == sys.posted)
      || (&& Succeeds(sys.books.db, call) && after.books == Apply(sys.books, call)
          && after.posted == sys.posted + [Post(id, rule.nextRunAt, call)])
  {
  }

  // ---------------------------------------------------------------- every interleaving

  predicate TablesOk(sys: System) {
    RulesOk(sys) && HoldsOk(sys) && PostsOk(sys) && RunsPosted(sys)
  }

  ghost predicate SystemOk(sys: System) {
    TablesOk(sys) && LedgerInv(sys.books.db, sys.books.opening)
  }

  lemma PickKeepsTables(sys: System, worker: Worker, id: Id, runType: RunType)
    requires TablesOk(sys)
    ensures TablesOk(Picked(sys, worker, id, runType))
  {
    SameTables(sys, Picked(sys, worker, id, runType));
    PickKeepsHolds(sys, worker, id, runType);
  }

  lemma PickKeepsHolds(sys: System, worker: Worker, id: Id, runType: RunType)
    requires HoldsOk(sys)
    ensures HoldsOk(Picked(sys, worker, id, runType))
  {
  }

  lemma ReleaseKeepsTables(sys: System, worker: Worker)
    requires TablesOk(sys)
    ensures TablesOk(Released(sys, worker))
  {
    var after := Released(sys, worker);
    SameTables(sys, after);
    forall w | w in after.holds ensures HoldOk(after, after.holds[w]) {
      assert HoldOk(sys, sys.holds[w]);
    }
  }

  /** Rules, runs and posts do not depend on locks or on the ledger. */
  lemma SameTables(sys: System, sys': System)
    requires RulesOk(sys) && PostsOk(sys) && RunsPosted(sys)
    requires sys' == sys.(holds := sys'.holds, books := sys'.books)
    ensures RulesOk(sys') && PostsOk(sys') && RunsPosted(sys')
  {
    forall id | id in sys'.rules ensures RuleTracked(sys', id) {
      assert RuleTracked(sys, id);
    }
    forall i | 0 <= i < |sys'.posted| ensures PostOk(sys', sys'.posted[i]) {
      assert PostOk(sys, sys.posted[i]);
    }
  }

  lemma {:induction false} FinishKeepsTables(sys: System, worker: Worker, now: Instant, txID: Id)
    requires TablesOk(sys) && worker in sys.holds
    ensures TablesOk(Finished(sys, worker, now, txID))
  {
    var hold := sys.holds[worker];
    assert HoldOk(sys, hold);
    var outcome := OutcomeOf(sys, hold, now, txID);
    OutcomeFits(sys, hold, now, txID);
    SettleKeepsRules(sys, worker, now, txID, outcome);
    SettleKeepsHolds(sys, worker, now, txID, outcome);
    SettleKeepsPosts(sys, worker, now, txID, outcome);
    SettleKeepsRunsPosted(sys, worker, now, txID, outcome);
  }

  /** Writing a rule that nobody holds disturbs neither locks nor posts. */
  lemma {:induction false} WriteKeepsTables(sys: System, id: Id, rule: Rule, edited: bool)
    requires TablesOk(sys) && RuleOk(rule)
    requires if edited then id in sys.rules && !Held(sys, id) else id !in sys.born
    ensures TablesOk(Written(sys, id, rule, Instants(sys.runs, id), edited))
  {
    var after := Written(sys, id, rule, Instants(sys.runs, id), edited);
    WriteKeepsRules(sys, id, rule, edited);
    if !edited {
      NotHeldYet(sys, id);
    }
    UnheldMayChange(sys, after, id);
    forall i | 0 <= i < |after.posted| ensures PostOk(after, after.posted[i]) {
      assert PostOk(sys, sys.posted[i]);
    }
  }

  lemma NotHeldYet(sys: System, id: Id)
    requires HoldsOk(sys) && id !in sys.rules
    ensures !Held(sys, id)
  {
  }

  lemma WritableIsOk(sys: System, userID: Id, input: RuleInput, lastRunAt: Option<Instant>)
    requires Writable(sys, userID, input)
    ensures RuleOk(RuleFor(userID, input, lastRunAt))
  {
  }

  lemma NoInstants(sys: System, id: Id)
    requires RulesOk(sys) && id !in sys.born
    ensures Instants(sys.runs, id) == {}
  {
  }

  lemma {:induction false} CreateKeepsTables(sys: System, userID: Id, id: Id, input: RuleInput)
    requires TablesOk(sys)
    ensures TablesOk(Created(sys, userID, id, input))
  {
    if id !in sys.born && Writable(sys, userID, input) {
      WritableIsOk(sys, userID, input, None);
      NoInstants(sys, id);
      WriteKeepsTables(sys, id, RuleFor(userID, input, None), false);
    }
  }

  lemma {:induction false} EditKeepsTables(sys: System, userID: Id, id: Id, input: RuleInput)
    requires TablesOk(sys)
    ensures TablesOk(Edited(sys, userID, id, input))
  {
    if id in sys.rules && sys.rules[id].userID == userID && !Held(sys, id) && Writable(sys, userID, input) {
      WritableIsOk(sys, userID, input, sys.rules[id].lastRunAt);
      WriteKeepsTables(sys, id, RuleFor(userID, input, sys.rules[id].lastRunAt), true);
    }
  }

  lemma {:induction false} DeleteKeepsTables(sys: System, userID: Id, id: Id)
    requires TablesOk(sys)
    ensures TablesOk(Deleted(sys, userID, id))
  {
    DeleteKeepsRules(sys, userID, id);
    var after := Deleted(sys, userID, id);
    if after != sys {
      UnheldMayChange(sys, after, id);
      forall i | 0 <= i < |after.posted| ensures PostOk(after, after.posted[i]) {
        assert PostOk(sys, sys.posted[i]);
      }
    }
  }

  lemma LedgerCallKeepsTables(sys: System, op: Op)
    requires TablesOk(sys)
    ensures TablesOk(Exec(sys, OtherLedgerCall(op)))
  {
    var after := Exec(sys, OtherLedgerCall(op));
    SameTables(sys, after);
    forall w | w in after.holds ensures HoldOk(after, after.holds[w]) {
      assert HoldOk(sys, sys.holds[w]);
    }
  }

  lemma {:induction false} StepKeepsTables(sys: System, step: Step)
    requires TablesOk(sys)
    ensures TablesOk(Exec(sys, step))
  {
    match step
    case PickDue(worker, id, _) => PickKeepsTables(sys, worker, id, Scheduled);
    case PickManual(worker, _, id) => PickKeepsTables(sys, worker, id, Manual);
    case Finish(worker, now, txID) => if worker in sys.holds { FinishKeepsTables(sys, worker, now, txID); }
    case Abort(worker) => ReleaseKeepsTables(sys, worker);
    case CreateRule(userID, id, input) => CreateKeepsTables(sys, userID, id, input);
    case EditRule(userID, id, input) => EditKeepsTables(sys, userID, id, input);
    case DeleteRule(userID, id) => DeleteKeepsTables(sys, userID, id);
    case OtherLedgerCall(op) => LedgerCallKeepsTables(sys, op);
  }

  lemma {:induction false} FinishKeepsLedger(sys: System, worker: Worker, now: Instant, txID: Id)
    requires worker in sys.holds && LedgerInv(sys.books.db, sys.books.opening)
    ensures LedgerInv(Finished(sys, worker, now, txID).books.db, Finished(sys, worker, now, txID).books.opening)
  {
    var rule := sys.holds[worker].rule;
    FinishMovesLedgerOnce(sys, worker, now, txID);
    ApplyKeepsLedger(sys.books, Create(rule.userID, txID, Posting(rule)));
  }

  lemma {:induction false} StepKeepsLedger(sys: System, step: Step)
    requires LedgerInv(sys.books.db, sys.books.opening)
    ensures LedgerInv(Exec(sys, step).books.db, Exec(sys, step).books.opening)
  {
    if step.Finish? && step.worker in sys.holds {
      FinishKeepsLedger(sys, step.worker, step.now, step.txID);
    } else if step.OtherLedgerCall? {
      ApplyKeepsLedger(sys.books, step.op);
    }
  }

  lemma {:induction false} StepKeepsSystem(sys: System, step: Step)
    requires SystemOk(sys)
    ensures SystemOk(Exec(sys, step))
  {
    StepKeepsTables(sys, step);
    StepKeepsLedger(sys, step);
  }

  lemma {:induction false} ReachableIsOk(books: Books, steps: seq<Step>)
    requires LedgerInv(books.db, books.opening)
    ensures SystemOk(ExecAll(Start(books), steps))
  {
    if steps != [] {
      ReachableIsOk(books, steps[..|steps| - 1]);
      StepKeepsSystem(ExecAll(Start(books), steps[..|steps| - 1]), steps[|steps| - 1]);
    }
  }

  /** No occurrence of a rule ever posts a second ledger transaction, every run belongs to a posted
      transaction, and the ledger stays in balance throughout. */
  lemma {:induction false} AtMostOncePerOccurrence(books: Books, steps: seq<Step>)
    requires LedgerInv(books.db, books.opening)
    ensures
      var sys := ExecAll(Start(books), steps);
      && (forall i, j :: 0 <= i < j < |sys.posted| ==> !SameOccurrence(sys.posted[i], sys.posted[j]))
      && (forall key :: key in sys.runs ==> HasPost(sys.posted, key, sys.runs[key]))
      && (forall i :: 0 <= i < |sys.posted| && sys.posted[i].ruleID in sys.rules ==>
            (sys.posted[i].ruleID, sys.posted[i].scheduledFor) in sys.runs)
      && LedgerInv(sys.books.db, sys.books.opening)
  {
    ReachableIsOk(books, steps);
    var sys := ExecAll(Start(books), steps);
    forall i | 0 <= i < |sys.posted| && sys.posted[i].ruleID in sys.rules
      ensures (sys.posted[i].ruleID, sys.posted[i].scheduledFor) in sys.runs
    {
      assert PostOk(sys, sys.posted[i]);
    }
  }

  lemma {:induction false} ChainVisitsOrbit(c: Cadence, start: Instant, history: seq<Instant>, next: Instant, k: nat)
    requires ValidCadence(c) && Chain(c, start, history, next) && k < |history|
    ensures history[k] == Occurrence(start, c, k)
  {
    ChainPrefix(c, start, history, next, k);
    ChainIsOrbit(c, start, history[..k], history[k]);
  }

  predicate GapFree(rule: Rule, track: Track, executed: set<Instant>, t: Instant)
    requires ValidCadence(rule.cadence)
  {
    var k := |track.history|;
    && rule.nextRunAt == Occurrence(track.start, rule.cadence, k)
    && (t in executed <==> t in track.base || exists j: nat :: j < k && t == Occurrence(track.start, rule.cadence, j))
  }

  lemma TrackedIsGapFree(rule: Rule, track: Track, executed: set<Instant>, t: Instant)
    requires Tracked(rule, track, executed)
    ensures GapFree(rule, track, executed, t)
  {
    ChainIsOrbit(rule.cadence, track.start, track.history, rule.nextRunAt);
    forall j: nat | j < |track.history| ensures track.history[j] == Occurrence(track.start, rule.cadence, j) {
      ChainVisitsOrbit(rule.cadence, track.start, track.history, rule.nextRunAt, j);
    }
    if t in Elements(track.history) {
      var j: nat :| j < |track.history| && track.history[j] == t;
      assert t == Occurrence(track.start, rule.cadence, j);
    }
  }

  /** The executed instants of a rule are those it had before its last edit, none if it was never
      edited, together with a gap-free prefix of the orbit it has been on since; its next run is the
      following instant of that orbit, and while it is active that instant is not past its end. */
  lemma {:induction false} ExecutedIsGapFreePrefix(books: Books, steps: seq<Step>, id: Id, t: Instant)
    requires LedgerInv(books.db, books.opening)
    requires id in ExecAll(Start(books), steps).rules
    ensures
      var sys := ExecAll(Start(books), steps);
      id in sys.tracks &&
      var rule, track := sys.rules[id], sys.tracks[id];
      && RuleOk(rule)
      && GapFree(rule, track, Instants(sys.runs, id), t)
      && (!track.edited ==> track.base == {})
  {
    ReachableIsOk(books, steps);
    var sys := ExecAll(Start(books), steps);
    assert RuleTracked(sys, id);
    TrackedIsGapFree(sys.rules[id], sys.tracks[id], Instants(sys.runs, id), t);
  }
}
