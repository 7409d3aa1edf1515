/** Installment plans over whole runs, beside any other ledger calls: the months a plan has counted down
    agree with what its transactions have taken from its wallet. */
module InstallmentRuns {
  import opened Common
  import opened Sums
  import opened Ledger
  import opened LedgerRuns
  import opened Installments

  /** The months left when a plan was last written, and the transactions it has posted since. */
  datatype Track = Track(start: int, posted: seq<Id>)

  /** The tables; the tracks of the stored plans; transactions that a ledger call changed or removed. */
  datatype System = System(
    books: Books,
    plans: map<Id, Plan>,
    payments: map<Id, PaymentRecord>,
    tracks: map<Id, Track>,
    touched: set<Id>)

  datatype Step =
    | CreatePlan(userID: Id, id: Id, plan: Plan)
    | UpdatePlan(userID: Id, id: Id, plan: Plan)
    | DeletePlan(userID: Id, id: Id)
    | PayPlan(userID: Id, id: Id, txID: Id, paidAt: Instant, note: string)
    | LedgerCall(op: Op)

  /** Creating a plan defaults an empty status. */
  function Created(userID: Id, plan: Plan): Plan {
    plan.(userID := userID, status := if plan.status == UNSET_STATUS then Active else plan.status)
  }

  function Written(sys: System, id: Id, plan: Plan): System {
    sys.(plans := sys.plans[id := plan], tracks := sys.tracks[id := Track(plan.remainingMonths, [])])
  }

  /** Deleting a plan deletes its payments; the transactions they posted stay. */
  function Dropped(sys: System, id: Id): System {
    sys.(plans := sys.plans - {id}, tracks := sys.tracks - {id},
         payments := map tx | tx in sys.payments && sys.payments[tx].planID != id :: sys.payments[tx])
  }

  /** Posts one month's expense, records the payment and counts the months down. */
  function Paid(sys: System, userID: Id, id: Id, txID: Id, paidAt: Instant, note: string): System
    requires id in sys.tracks && PaySucceeds(sys.books.db, sys.plans, userID, id, txID, paidAt, note)
  {
    var plan, track := sys.plans[id], sys.tracks[id];
    sys.(books := Apply(sys.books, Create(userID, txID, PaymentPosting(plan, paidAt, note))),
         plans := sys.plans[id := PaidPlan(plan)],
         payments := sys.payments[txID := PaymentRecord(userID, id, plan.monthlyMinor, paidAt, note)],
         tracks := sys.tracks[id := track.(posted := track.posted + [txID])])
  }

  /** The transactions a ledger call changes or removes. */
  function Touches(db: Database, op: Op): set<Id> {
    if (op.Update? || op.Delete?) && Succeeds(db, op) then {op.id} else {}
  }

  /** Deleting a transaction deletes the payment it belongs to. */
  function AfterLedgerCall(sys: System, op: Op): System {
    var touched := Touches(sys.books.db, op);
    sys.(books := Apply(sys.books, op),
         payments := if op.Delete? then sys.payments - touched else sys.payments,
         touched := sys.touched + touched)
  }

  function Exec(sys: System, step: Step): System {
    match step
    case CreatePlan(userID, id, plan) =>
      var stored := Created(userID, plan);
      if id in sys.plans || !Writable(sys.books.db, userID, stored) then sys else Written(sys, id, stored)
    case UpdatePlan(userID, id, plan) =>
      var stored := plan.(userID := userID);
      if id !in sys.plans || sys.plans[id].userID != userID || !Writable(sys.books.db, userID, stored) then sys
      else Written(sys, id, stored)
    case DeletePlan(userID, id) =>
      if id in sys.plans && sys.plans[id].userID == userID then Dropped(sys, id) else sys
    case PayPlan(userID, id, txID, paidAt, note) =>
      if id in sys.tracks && PaySucceeds(sys.books.db, sys.plans, userID, id, txID, paidAt, note)
      then Paid(sys, userID, id, txID, paidAt, note) else sys
    case LedgerCall(op) => AfterLedgerCall(sys, op)
  }

  function ExecAll(sys: System, steps: seq<Step>): System {
    if steps == [] then sys else Exec(ExecAll(sys, steps[..|steps| - 1]), steps[|steps| - 1])
  }

  function Start(books: Books): System {
    System(books, map[], map[], map[], {})
  }

  // ---------------------------------------------------------------- months

  /** Payments count the months down, and the one that uses up the last month pays the plan off. */
  predicate Tracked(plan: Plan, track: Track) {
    && PlanOk(plan)
    && track.start <= plan.tenorMonths
    && plan.remainingMonths + |track.posted| == track.start
    && (track.posted != [] ==> plan.status == if plan.remainingMonths == 0 then PaidOff else Active)
  }

  predicate PlansOk(sys: System) {
    && sys.plans.Keys == sys.tracks.Keys
    && forall id :: id in sys.plans ==> Tracked(sys.plans[id], sys.tracks[id])
  }

  lemma WriteKeepsPlans(sys: System, userID: Id, id: Id, plan: Plan)
    requires PlansOk(sys) && Writable(sys.books.db, userID, plan)
    ensures PlansOk(Written(sys, id, plan))
  {
    WritableIsOk(sys.books.db, userID, plan);
  }

  lemma PayKeepsPlans(sys: System, userID: Id, id: Id, txID: Id, paidAt: Instant, note: string)
    requires PlansOk(sys)
    requires id in sys.tracks && PaySucceeds(sys.books.db, sys.plans, userID, id, txID, paidAt, note)
    ensures PlansOk(Paid(sys, userID, id, txID, paidAt, note))
  {
  }

  lemma StepKeepsPlans(sys: System, step: Step)
    requires PlansOk(sys)
    ensures PlansOk(Exec(sys, step))
  {
    match step
    case CreatePlan(userID, id, plan) =>
      var stored := Created(userID, plan);
      if id !in sys.plans && Writable(sys.books.db, userID, stored) {
        WriteKeepsPlans(sys, userID, id, stored);
      }
    case UpdatePlan(userID, id, plan) =>
      var stored := plan.(userID := userID);
      if id in sys.plans && sys.plans[id].userID == userID && Writable(sys.books.db, userID, stored) {
        WriteKeepsPlans(sys, userID, id, stored);
      }
    case DeletePlan(_, _) =>
    case PayPlan(userID, id, txID, paidAt, note) =>
      if id in sys.tracks && PaySucceeds(sys.books.db, sys.plans, userID, id, txID, paidAt, note) {
        PayKeepsPlans(sys, userID, id, txID, paidAt, note);
      }
    case LedgerCall(_) =>
  }

  lemma {:induction false} RunKeepsPlans(sys: System, steps: seq<Step>)
    requires PlansOk(sys)
    ensures PlansOk(ExecAll(sys, steps))
  {
    if steps != [] {
      RunKeepsPlans(sys, steps[..|steps| - 1]);
      StepKeepsPlans(ExecAll(sys, steps[..|steps| - 1]), steps[|steps| - 1]);
    }
  }

  // ---------------------------------------------------------------- money

  lemma {:induction false} StepKeepsLedger(sys: System, step: Step)
    requires LedgerInv(sys.books.db, sys.books.opening)
    ensures LedgerInv(Exec(sys, step).books.db, Exec(sys, step).books.opening)
  {
    if step.PayPlan? && step.id in sys.plans {
      var posting := PaymentPosting(sys.plans[step.id], step.paidAt, step.note);
      ApplyKeepsLedger(sys.books, Create(step.userID, step.txID, posting));
    } else if step.LedgerCall? {
      ApplyKeepsLedger(sys.books, step.op);
    }
  }

  lemma {:induction false} RunKeepsLedger(sys: System, steps: seq<Step>)
    requires LedgerInv(sys.books.db, sys.books.opening)
    ensures LedgerInv(ExecAll(sys, steps).books.db, ExecAll(sys, steps).books.opening)
  {
    if steps != [] {
      RunKeepsLedger(sys, steps[..|steps| - 1]);
      StepKeepsLedger(ExecAll(sys, steps[..|steps| - 1]), steps[|steps| - 1]);
    }
  }

  /** A posted transaction as the plan posted it, with its payment record. */
  predicate IsPayment(rows: map<Id, Transaction>, payments: map<Id, PaymentRecord>, tx: Id, id: Id, plan: Plan) {
    && tx in rows && rows[tx].kind == Expense && rows[tx].walletID == plan.walletID
    && rows[tx].amountMinor == plan.monthlyMinor
    && tx in payments && payments[tx].planID == id && payments[tx].amountMinor == plan.monthlyMinor
  }

  predicate PaymentsKept(rows: map<Id, Transaction>, payments: map<Id, PaymentRecord>, touched: set<Id>,
      id: Id, plan: Plan, posted: seq<Id>) {
    forall i :: 0 <= i < |posted| && posted[i] !in touched ==> IsPayment(rows, payments, posted[i], id, plan)
  }

  /** A plan posts each transaction once, unless its identifier was freed by a deletion in between. */
  predicate PostedOnce(posted: seq<Id>, touched: set<Id>) {
    forall i, j :: 0 <= i < j < |posted| && posted[i] == posted[j] ==> posted[i] in touched
  }

  predicate HistoryOk(sys: System, id: Id)
    requires id in sys.plans && id in sys.tracks
  {
    var posted := sys.tracks[id].posted;
    && PaymentsKept(sys.books.db.transactions, sys.payments, sys.touched, id, sys.plans[id], posted)
    && PostedOnce(posted, sys.touched)
  }

  predicate HistoriesOk(sys: System) {
    && sys.plans.Keys == sys.tracks.Keys
    && forall id :: id in sys.plans ==> HistoryOk(sys, id)
  }

  /** A step leaves alone what it has not touched: transactions, and the payments of plan id. */
  predicate Stays(sys: System, sys': System, id: Id) {
    && sys.touched <= sys'.touched
    && (forall tx :: tx in sys.books.db.transactions && tx !in sys'.touched ==>
          tx in sys'.books.db.transactions && sys'.books.db.transactions[tx] == sys.books.db.transactions[tx])
    && (forall tx :: tx in sys.payments && sys.payments[tx].planID == id
                     && tx in sys.books.db.transactions && tx !in sys'.touched ==>
          tx in sys'.payments && sys'.payments[tx] == sys.payments[tx])
  }

  lemma HistoryStays(sys: System, sys': System, id: Id)
    requires id in sys.plans && id in sys.tracks && id in sys'.plans && id in sys'.tracks
    requires HistoryOk(sys, id) && Stays(sys, sys', id)
    requires sys'.tracks[id] == sys.tracks[id] && sys'.plans[id] == sys.plans[id]
    ensures HistoryOk(sys', id)
  {
    var posted := sys.tracks[id].posted;
    forall i | 0 <= i < |posted| && posted[i] !in sys'.touched
      ensures IsPayment(sys'.books.db.transactions, sys'.payments, posted[i], id, sys'.plans[id])
    {
      assert IsPayment(sys.books.db.transactions, sys.payments, posted[i], id, sys.plans[id]);
    }
  }

  lemma LedgerCallStays(sys: System, op: Op, id: Id)
    ensures Stays(sys, AfterLedgerCall(sys, op), id)
  {
  }

  lemma PaidTables(sys: System, userID: Id, id: Id, txID: Id, paidAt: Instant, note: string)
    requires id in sys.tracks && PaySucceeds(sys.books.db, sys.plans, userID, id, txID, paidAt, note)
    ensures
      var sys' := Paid(sys, userID, id, txID, paidAt, note);
      && txID !in sys.books.db.transactions
      && (forall other :: Stays(sys, sys', other))
      && IsPayment(sys'.books.db.transactions, sys'.payments, txID, id, sys.plans[id])
  {
  }

  lemma PaidHistory(sys: System, userID: Id, id: Id, txID: Id, paidAt: Instant, note: string)
    requires id in sys.tracks && PaySucceeds(sys.books.db, sys.plans, userID, id, txID, paidAt, note)
    requires HistoryOk(sys, id)
    ensures HistoryOk(Paid(sys, userID, id, txID, paidAt, note), id)
  {
    PaidTables(sys, userID, id, txID, paidAt, note);
    var sys' := Paid(sys, userID, id, txID, paidAt, note);
    var before, after := sys.tracks[id].posted, sys'.tracks[id].posted;
    var rows, rows' := sys.books.db.transactions, sys'.books.db.transactions;
    assert after == before + [txID] && sys'.touched == sys.touched;
    forall i | 0 <= i < |after| && after[i] !in sys'.touched
      ensures IsPayment(rows', sys'.payments, after[i], id, sys'.plans[id])
    {
      if i < |before| {
        assert IsPayment(rows, sys.payments, before[i], id, sys.plans[id]);
      }
    }
    forall i | 0 <= i < |before| && before[i] == txID ensures txID in sys.touched {
      assert txID !in sys.touched ==> IsPayment(rows, sys.payments, before[i], id, sys.plans[id]);
    }
  }

  lemma PayKeepsHistories(sys: System, userID: Id, id: Id, txID: Id, paidAt: Instant, note: string)
    requires HistoriesOk(sys)
    requires id in sys.tracks && PaySucceeds(sys.books.db, sys.plans, userID, id, txID, paidAt, note)
    ensures HistoriesOk(Paid(sys, userID, id, txID, paidAt, note))
  {
    var sys' := Paid(sys, userID, id, txID, paidAt, note);
    PaidTables(sys, userID, id, txID, paidAt, note);
    PaidHistory(sys, userID, id, txID, paidAt, note);
    forall other | other in sys'.plans && other != id ensures HistoryOk(sys', other) {
      HistoryStays(sys, sys', other);
    }
  }

  lemma WriteKeepsHistories(sys: System, id: Id, plan: Plan)
    requires HistoriesOk(sys)
    ensures HistoriesOk(Written(sys, id, plan))
  {
    var sys' := Written(sys, id, plan);
    forall other | other in sys'.plans && other != id ensures HistoryOk(sys', other) {
      HistoryStays(sys, sys', other);
    }
  }

  lemma DropKeepsHistories(sys: System, id: Id)
    requires HistoriesOk(sys)
    ensures HistoriesOk(Dropped(sys, id))
  {
    var sys' := Dropped(sys, id);
    forall other | other in sys'.plans ensures HistoryOk(sys', other) {
      HistoryStays(sys, sys', other);
    }
  }

  lemma LedgerCallKeepsHistories(sys: System, op: Op)
    requires HistoriesOk(sys)
    ensures HistoriesOk(AfterLedgerCall(sys, op))
  {
    var sys' := AfterLedgerCall(sys, op);
    forall id | id in sys'.plans ensures HistoryOk(sys', id) {
      LedgerCallStays(sys, op, id);
      HistoryStays(sys, sys', id);
    }
  }

  lemma StepKeepsHistories(sys: System, step: Step)
    requires HistoriesOk(sys)
    ensures HistoriesOk(Exec(sys, step))
  {
    match step
    case CreatePlan(userID, id, plan) =>
      WriteKeepsHistories(sys, id, Created(userID, plan));
    case UpdatePlan(userID, id, plan) => WriteKeepsHistories(sys, id, plan.(userID := userID));
    case DeletePlan(_, id) => DropKeepsHistories(sys, id);
    case PayPlan(userID, id, txID, paidAt, note) =>
      if id in sys.tracks && PaySucceeds(sys.books.db, sys.plans, userID, id, txID, paidAt, note) {
        PayKeepsHistories(sys, userID, id, txID, paidAt, note);
      }
    case LedgerCall(op) => LedgerCallKeepsHistories(sys, op);
  }

  lemma {:induction false} RunKeepsHistories(sys: System, steps: seq<Step>)
    requires HistoriesOk(sys)
    ensures HistoriesOk(ExecAll(sys, steps))
  {
    if steps != [] {
      RunKeepsHistories(sys, steps[..|steps| - 1]);
      StepKeepsHistories(ExecAll(sys, steps[..|steps| - 1]), steps[|steps| - 1]);
    }
  }

  // ---------------------------------------------------------------- what a plan has taken

  function Elements(posted: seq<Id>): set<Id> {
    set tx | tx in posted
  }

  /** What the given transactions contribute to the balance of wallet w, each counted once. */
  ghost function TakenFrom(rows: map<Id, Transaction>, posted: seq<Id>, w: Id): int {
    Sum(Restricted(Contributions(rows, w), Elements(posted)))
  }

  predicate AllPayments(rows: map<Id, Transaction>, payments: map<Id, PaymentRecord>, id: Id, plan: Plan,
      posted: seq<Id>) {
    && (forall i :: 0 <= i < |posted| ==> IsPayment(rows, payments, posted[i], id, plan))
    && (forall i, j :: 0 <= i < j < |posted| ==> posted[i] != posted[j])
  }

  /** What one payment does to the balance of wallet w. */
  function Charge(plan: Plan, w: Id): int {
    var monthly: int := plan.monthlyMinor;
    if w == plan.walletID then -monthly else 0
  }

  lemma OneElementMore(m: map<Id, int>, posted: seq<Id>, tx: Id)
    requires tx in m && tx !in posted
    ensures Sum(Restricted(m, Elements(posted + [tx]))) == Sum(Restricted(m, Elements(posted))) + m[tx]
  {
    SumInsert(Restricted(m, Elements(posted)), tx, m[tx]);
    assert Elements(posted + [tx]) == Elements(posted) + {tx};
    assert Restricted(m, Elements(posted + [tx])) == Restricted(m, Elements(posted))[tx := m[tx]];
  }

  lemma OnePaymentMore(rows: map<Id, Transaction>, posted: seq<Id>, tx: Id, w: Id)
    requires tx in rows && tx !in posted
    ensures TakenFrom(rows, posted + [tx], w) == TakenFrom(rows, posted, w) + rows[tx].Effect(w)
  {
    OneElementMore(Contributions(rows, w), posted, tx);
  }

  lemma PaymentCharges(rows: map<Id, Transaction>, payments: map<Id, PaymentRecord>, tx: Id, id: Id, plan: Plan, w: Id)
    requires IsPayment(rows, payments, tx, id, plan)
    ensures rows[tx].Effect(w) == Charge(plan, w)
  {
  }

  lemma OneMore(a: int, n: int)
    ensures a * (n + 1) == a * n + a
  {
  }

  lemma {:induction false} PaymentsTake(rows: map<Id, Transaction>, payments: map<Id, PaymentRecord>, id: Id,
      plan: Plan, posted: seq<Id>, w: Id)
    requires AllPayments(rows, payments, id, plan, posted)
    ensures TakenFrom(rows, posted, w) == Charge(plan, w) * |posted|
  {
    if posted == [] {
      SumZero(Restricted(Contributions(rows, w), {}));
      assert Elements(posted) == {};
    } else {
      var front, last := posted[..|posted| - 1], posted[|posted| - 1];
      assert posted == front + [last];
      PaymentsTake(rows, payments, id, plan, front, w);
      OnePaymentMore(rows, front, last, w);
      PaymentCharges(rows, payments, last, id, plan, w);
      OneMore(Charge(plan, w), |front|);
    }
  }

  /** No ledger call has changed or removed what the plan posted since it was last written. */
  predicate Untouched(sys: System, id: Id) {
    id in sys.tracks && forall tx :: tx in sys.tracks[id].posted ==> tx !in sys.touched
  }

  /** The plan's transactions have taken the monthly amount from its wallet, and nothing from any other,
      for every month counted down; its payment records say the same. */
  ghost predicate HasTaken(sys: System, id: Id, w: Id)
    requires id in sys.plans && id in sys.tracks
  {
    var plan, track := sys.plans[id], sys.tracks[id];
    && TakenFrom(sys.books.db.transactions, track.posted, w)
       == Charge(plan, w) * (track.start - plan.remainingMonths)
    && (forall tx :: tx in track.posted ==>
          tx in sys.payments && sys.payments[tx].planID == id && sys.payments[tx].amountMinor == plan.monthlyMinor)
  }

  /** A plan that starts with its full tenor is paid off by exactly the tenor-th payment. */
  predicate PaidOffOnTime(plan: Plan, track: Track) {
    track.start == plan.tenorMonths && track.posted != [] ==>
      (plan.status == PaidOff <==> |track.posted| == plan.tenorMonths)
  }

  lemma HistoryTakes(sys: System, id: Id, w: Id)
    requires id in sys.plans && id in sys.tracks && HistoryOk(sys, id) && Untouched(sys, id)
    requires Tracked(sys.plans[id], sys.tracks[id])
    ensures HasTaken(sys, id, w)
  {
    var plan, track, rows := sys.plans[id], sys.tracks[id], sys.books.db.transactions;
    forall i | 0 <= i < |track.posted| ensures IsPayment(rows, sys.payments, track.posted[i], id, plan) {
      assert track.posted[i] in track.posted;
    }
    PaymentsTake(rows, sys.payments, id, plan, track.posted, w);
  }

  lemma RunState(books: Books, steps: seq<Step>, id: Id)
    requires id in ExecAll(Start(books), steps).plans
    ensures
      var sys := ExecAll(Start(books), steps);
      id in sys.tracks && HistoryOk(sys, id) && Tracked(sys.plans[id], sys.tracks[id])
  {
    RunKeepsPlans(Start(books), steps);
    RunKeepsHistories(Start(books), steps);
  }

  /** What is known of a stored plan: its payments count its months down, and while they are untouched
      they account for its wallet. */
  ghost predicate PlanAccounted(sys: System, id: Id, w: Id)
    requires id in sys.plans
  {
    && id in sys.tracks
    && sys.plans[id].remainingMonths + |sys.tracks[id].posted| == sys.tracks[id].start
    && PaidOffOnTime(sys.plans[id], sys.tracks[id])
    && (Untouched(sys, id) ==> HasTaken(sys, id, w))
  }

  /** Over any run of plan calls and other ledger calls, the months a plan has counted down since it was
      last written are the transactions it has posted; as long as none of them is changed or removed,
      they have taken exactly the monthly amount per month from its wallet and nothing from any other. */
  lemma {:induction false} ChargesItsTotal(books: Books, steps: seq<Step>, id: Id, w: Id)
    ensures var sys := ExecAll(Start(books), steps); id in sys.plans ==> PlanAccounted(sys, id, w)
  {
    var sys := ExecAll(Start(books), steps);
    if id in sys.plans {
      RunState(books, steps, id);
      if Untouched(sys, id) {
        HistoryTakes(sys, id, w);
      }
    }
  }

  lemma FullTenor(plan: Plan, track: Track)
    requires Tracked(plan, track) && plan.status == PaidOff && track.start == plan.tenorMonths as int
    ensures |track.posted| == plan.tenorMonths as int
    ensures Charge(plan, plan.walletID) * (track.start - plan.remainingMonths) + plan.totalMinor as int == 0
  {
    var monthly: int, tenor: int := plan.monthlyMinor, plan.tenorMonths;
    assert plan.remainingMonths == 0;
    assert (-monthly) * tenor == -(monthly * tenor);
  }

  lemma HistoryPaidOff(sys: System, id: Id)
    requires id in sys.plans && id in sys.tracks && HistoryOk(sys, id) && Untouched(sys, id)
    requires Tracked(sys.plans[id], sys.tracks[id])
    requires sys.plans[id].status == PaidOff && sys.tracks[id].start == sys.plans[id].tenorMonths as int
    ensures TookItsTotal(sys, id)
  {
    HistoryTakes(sys, id, sys.plans[id].walletID);
    FullTenor(sys.plans[id], sys.tracks[id]);
  }

  /** The plan has posted as many transactions as its tenor, and they have taken its total. */
  ghost predicate TookItsTotal(sys: System, id: Id)
    requires id in sys.plans && id in sys.tracks
  {
    var plan, posted := sys.plans[id], sys.tracks[id].posted;
    && |posted| == plan.tenorMonths as int
    && TakenFrom(sys.books.db.transactions, posted, plan.walletID) + plan.totalMinor as int == 0
  }

  /** Paid off after starting with its full tenor, by payments that are as they were posted. */
  predicate FullyPaid(sys: System, id: Id) {
    && id in sys.plans && id in sys.tracks && Untouched(sys, id)
    && sys.plans[id].status == PaidOff && sys.tracks[id].start == sys.plans[id].tenorMonths as int
  }

  /** A plan that started with its full tenor and is paid off has taken exactly its total. */
  lemma {:induction false} PaidOffTookItsTotal(books: Books, steps: seq<Step>, id: Id)
    ensures var sys := ExecAll(Start(books), steps); FullyPaid(sys, id) ==> TookItsTotal(sys, id)
  {
    var sys := ExecAll(Start(books), steps);
    if FullyPaid(sys, id) {
      RunState(books, steps, id);
      HistoryPaidOff(sys, id);
    }
  }
}
