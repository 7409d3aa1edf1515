/** Concurrent ledger calls, broken into statements. Each session writes wallet rows and the
    transaction row only under row locks that it keeps until it commits or rolls back, reads the
    latest committed version of a row once it holds the lock, and may be aborted at any point.
    Meanwhile wallets are opened and closed, shares, categories and tags change, and debts pin
    transactions; only what a row lock protects has to wait. */
module LedgerSessions {
  import opened Common
  import opened Sums
  import opened Ledger
  import opened LedgerRuns

  type Sid = nat

  type Call = op: Op | op.MovesMoney() witness Delete(NO_ID, NO_ID)

  datatype Phase = Opened | Reverting | Posting | Written

  /** One database transaction in progress: the row it locked, the deltas it has applied and still
      has to apply, and its uncommitted wallet balances. */
  datatype Session = Session(
    call: Call,
    phase: Phase,
    before: Option<Transaction>,
    applied: seq<BalanceDelta>,
    todo: seq<BalanceDelta>,
    draft: map<Id, int>)

  /** The committed tables and what the wallets were opened with, the sessions, their locks, and the
      committed calls and changes in order. */
  datatype System = System(
    db: Database,
    opening: map<Id, int>,
    sessions: map<Sid, Session>,
    rowLocks: map<Id, Sid>,
    walletLocks: map<Id, Sid>,
    log: seq<Op>)

  datatype Step =
    | Begin(sid: Sid, call: Op)
    | LockRow(sid: Sid)
    | CheckInput(sid: Sid)
    | MoveWallet(sid: Sid)
    | WriteRow(sid: Sid)
    | Commit(sid: Sid)
    | Abort(sid: Sid)
    | Change(op: Op)

  function Released(locks: map<Id, Sid>, sid: Sid): map<Id, Sid> {
    map k | k in locks && locks[k] != sid :: locks[k]
  }

  function RolledBack(sys: System, sid: Sid): System {
    sys.(sessions := sys.sessions - {sid},
         rowLocks := Released(sys.rowLocks, sid),
         walletLocks := Released(sys.walletLocks, sid))
  }

  predicate Free(locks: map<Id, Sid>, key: Id, sid: Sid) {
    key in locks ==> locks[key] == sid
  }

  function WithSession(sys: System, sid: Sid, s: Session): System {
    sys.(sessions := sys.sessions[sid := s])
  }

  function AfterBegin(sys: System, sid: Sid, call: Op): System {
    if sid in sys.sessions || !call.MovesMoney() then sys
    else WithSession(sys, sid, Session(call, Opened, None, [], [], map[]))
  }

  /** SELECT ... FOR UPDATE: waits for the lock, then reads the committed row. */
  function AfterLockRow(sys: System, sid: Sid, s: Session): System {
    var call := s.call;
    if s.phase != Opened || call.Create? || call.id in sys.rowLocks then sys
    else if call.id !in sys.db.transactions then RolledBack(sys, sid)
    else
      var row := sys.db.transactions[call.id];
      if row.userID != call.userID || !ValidInput(row.Input()) then RolledBack(sys, sid)
      else
        WithSession(sys, sid, s.(phase := Reverting, before := Some(row), todo := Reversed(Deltas(row.Input()))))
          .(rowLocks := sys.rowLocks[call.id := sid])
  }

  predicate MayCheck(s: Session) {
    (s.call.Create? && s.phase == Opened) || (s.call.Update? && s.phase == Reverting && s.todo == [])
  }

  function AfterCheckInput(sys: System, sid: Sid, s: Session): System {
    var call := s.call;
    if !MayCheck(s) then sys
    else if !RefsExist(sys.db, call.userID, call.input) || !ValidInput(call.input) then RolledBack(sys, sid)
    else WithSession(sys, sid, s.(phase := Posting, todo := Deltas(call.input)))
  }

  /** The session once its next delta is applied to its own view of the wallet. */
  function Drafted(db: Database, s: Session): Session
    requires s.todo != [] && s.todo[0].walletID in db.wallets
  {
    var BalanceDelta(w, amount) := s.todo[0];
    var seen := if w in s.draft then s.draft[w] else db.wallets[w].balanceMinor;
    s.(applied := s.applied + [s.todo[0]], todo := s.todo[1..], draft := s.draft[w := seen + amount])
  }

  /** One conditional UPDATE of one wallet row, under that row's lock. */
  function AfterMoveWallet(sys: System, sid: Sid, s: Session): System {
    if s.todo == [] || !Free(sys.walletLocks, s.todo[0].walletID, sid) then sys
    else if !CanRecord(sys.db, s.call.userID, s.todo[0].walletID) then RolledBack(sys, sid)
    else WithSession(sys, sid, Drafted(sys.db, s)).(walletLocks := sys.walletLocks[s.todo[0].walletID := sid])
  }

  /** The foreign keys of a row that is written: its category and its tags are still the user's. */
  predicate ReferencesHold(db: Database, userID: Id, input: TransactionInput) {
    && (input.categoryID != NO_ID ==>
          input.categoryID in db.categories && db.categories[input.categoryID].userID == userID)
    && forall tagID :: tagID in input.tagIDs ==> OwnsTag(db, userID, tagID)
  }

  function AfterWriteRow(sys: System, sid: Sid, s: Session): System {
    var call := s.call;
    if s.todo != [] then sys
    else match call
      case Create(_, id, input) =>
        if s.phase != Posting || !Free(sys.rowLocks, id, sid) then sys
        else if id in sys.db.transactions || !RowAllowed(input) || !ReferencesHold(sys.db, call.userID, input)
        then RolledBack(sys, sid)
        else WithSession(sys, sid, s.(phase := Written)).(rowLocks := sys.rowLocks[id := sid])
      case Update(_, _, input) =>
        if s.phase != Posting then sys
        else if !RowAllowed(input) || !ReferencesHold(sys.db, call.userID, input) then RolledBack(sys, sid)
        else WithSession(sys, sid, s.(phase := Written))
      case Delete(_, id) =>
        if s.phase != Reverting then sys
        else if id in sys.db.retained then RolledBack(sys, sid)
        else WithSession(sys, sid, s.(phase := Written))
  }

  /** What the session's own statements have made of the tables. */
  function Installed(db: Database, s: Session): Database {
    var wallets := map w | w in db.wallets ::
      if w in s.draft then db.wallets[w].(balanceMinor := s.draft[w]) else db.wallets[w];
    match s.call
    case Create(userID, id, input) =>
      db.(wallets := wallets, transactions := db.transactions[id := RowFor(userID, input)])
    case Update(userID, id, input) =>
      db.(wallets := wallets, transactions := db.transactions[id := RowFor(userID, input)])
    case Delete(_, id) => db.(wallets := wallets, transactions := db.transactions - {id})
  }

  function AfterCommit(sys: System, sid: Sid, s: Session): System {
    if s.phase != Written then sys
    else RolledBack(sys, sid).(db := Installed(sys.db, s), log := sys.log + [s.call])
  }

  /** Closing a wallet waits for a session that has moved it, and pinning a transaction for one that has
      locked it. */
  predicate Waits(sys: System, op: Op) {
    || (op.CloseWallet? && op.id in sys.walletLocks)
    || (op.Retain? && exists id :: id in op.ids && id !in sys.db.retained && id in sys.rowLocks)
  }

  function AfterChange(sys: System, op: Op): System {
    if op.MovesMoney() || Waits(sys, op) then sys
    else
      var books := Apply(Books(sys.db, sys.opening), op);
      sys.(db := books.db, opening := books.opening, log := sys.log + [op])
  }

  /** Steps that are blocked or do not apply leave the system as it is. */
  function Exec(sys: System, step: Step): System {
    match step
    case Begin(sid, call) => AfterBegin(sys, sid, call)
    case LockRow(sid) => if sid in sys.sessions then AfterLockRow(sys, sid, sys.sessions[sid]) else sys
    case CheckInput(sid) => if sid in sys.sessions then AfterCheckInput(sys, sid, sys.sessions[sid]) else sys
    case MoveWallet(sid) => if sid in sys.sessions then AfterMoveWallet(sys, sid, sys.sessions[sid]) else sys
    case WriteRow(sid) => if sid in sys.sessions then AfterWriteRow(sys, sid, sys.sessions[sid]) else sys
    case Commit(sid) => if sid in sys.sessions then AfterCommit(sys, sid, sys.sessions[sid]) else sys
    case Abort(sid) => RolledBack(sys, sid)
    case Change(op) => AfterChange(sys, op)
  }

  function ExecAll(sys: System, steps: seq<Step>): System {
    if steps == [] then sys else Exec(ExecAll(sys, steps[..|steps| - 1]), steps[|steps| - 1])
  }

  function Start(books: Books): System {
    System(books.db, books.opening, map[], map[], map[], [])
  }

  // ---------------------------------------------------------------- the invariant

  function Back(before: Option<Transaction>): seq<BalanceDelta> {
    if before.Some? && ValidInput(before.value.Input()) then Reversed(Deltas(before.value.Input())) else []
  }

  function Forth(s: Session): seq<BalanceDelta> {
    if (s.phase == Posting || s.phase == Written) && !s.call.Delete? && ValidInput(s.call.input)
    then Deltas(s.call.input) else []
  }

  /** The session's drafts are the committed balances of wallets it has locked, moved by exactly the
      deltas it has applied. */
  predicate DraftOk(sys: System, sid: Sid, s: Session) {
    && (forall w :: w in s.draft ==>
          && w in sys.db.wallets && w in sys.walletLocks && sys.walletLocks[w] == sid
          && s.draft[w] == sys.db.wallets[w].balanceMinor + DeltaSum(s.applied, w))
    && (forall d :: d in s.applied ==> d.walletID in s.draft)
  }

  /** The row the session read is still the committed one, because it holds its lock. */
  predicate RowOk(sys: System, sid: Sid, s: Session) {
    var id := s.call.id;
    && (s.before.Some? || s.phase == Written ==> id in sys.rowLocks && sys.rowLocks[id] == sid)
    && (s.before.Some? ==>
          && id in sys.db.transactions && s.before.value == sys.db.transactions[id]
          && s.before.value.userID == s.call.userID && ValidInput(s.before.value.Input()))
    && (s.before.Some? <==> s.phase != Opened && !s.call.Create?)
  }

  predicate ProgressOk(sys: System, s: Session) {
    var call := s.call;
    && s.applied + s.todo == Back(s.before) + Forth(s)
    && (s.phase == Reverting ==> !call.Create?)
    && (s.phase == Posting ==> !call.Delete?)
    && ((s.phase == Posting || s.phase == Written) && !call.Delete? ==> ValidInput(call.input))
    && (s.phase == Written ==>
          && s.todo == []
          && (call.Create? ==> call.id !in sys.db.transactions)
          && (call.Delete? ==> call.id !in sys.db.retained)
          && (!call.Delete? ==> RowAllowed(call.input)))
  }

  predicate SessionOk(sys: System, sid: Sid, s: Session) {
    DraftOk(sys, sid, s) && RowOk(sys, sid, s) && ProgressOk(sys, s)
  }

  predicate SessionsOk(sys: System) {
    forall sid :: sid in sys.sessions ==> SessionOk(sys, sid, sys.sessions[sid])
  }

  // ---------------------------------------------------------------- steps keep the invariant

  predicate KeepsLocks(before: map<Id, Sid>, after: map<Id, Sid>, sid: Sid) {
    forall k :: k in before && before[k] == sid ==> k in after && after[k] == sid
  }

  /** A session is undisturbed while the tables stand still and its own locks stay put. */
  lemma UndisturbedByLocks(sys: System, sys': System, sid: Sid, s: Session)
    requires SessionOk(sys, sid, s)
    requires sys'.db == sys.db
    requires KeepsLocks(sys.rowLocks, sys'.rowLocks, sid) && KeepsLocks(sys.walletLocks, sys'.walletLocks, sid)
    ensures SessionOk(sys', sid, s)
  {
  }

  /** A step of one session that commits nothing leaves the other sessions' entries and locks alone. */
  predicate OnlyTouches(sys: System, sys': System, sid: Sid) {
    && sys'.db == sys.db && sys'.opening == sys.opening
    && sys'.log == sys.log
    && forall other :: other != sid && other in sys'.sessions ==>
         && other in sys.sessions && sys'.sessions[other] == sys.sessions[other]
         && KeepsLocks(sys.rowLocks, sys'.rowLocks, other)
         && KeepsLocks(sys.walletLocks, sys'.walletLocks, other)
  }

  lemma OwnStep(sys: System, sys': System, sid: Sid)
    requires SessionsOk(sys) && OnlyTouches(sys, sys', sid)
    requires sid in sys'.sessions ==> SessionOk(sys', sid, sys'.sessions[sid])
    ensures SessionsOk(sys')
  {
    forall other | other in sys'.sessions && other != sid ensures SessionOk(sys', other, sys'.sessions[other]) {
      UndisturbedByLocks(sys, sys', other, sys.sessions[other]);
    }
  }

  /** A draft does not depend on the phase, the plan or the row locks. */
  lemma DraftIgnores(sys: System, sys': System, sid: Sid, s: Session, s': Session)
    requires DraftOk(sys, sid, s)
    requires sys'.db == sys.db && sys'.walletLocks == sys.walletLocks
    requires s'.call == s.call && s'.draft == s.draft && s'.applied == s.applied
    ensures DraftOk(sys', sid, s')
  {
  }

  lemma LockedKeepsOwn(sys: System, sys': System, sid: Sid, s: Session)
    requires SessionOk(sys, sid, s) && s.phase == Opened && !s.call.Create? && s.call.id in sys.db.transactions
    requires var row := sys.db.transactions[s.call.id]; row.userID == s.call.userID && ValidInput(row.Input())
    requires sys'.db == sys.db && sys'.walletLocks == sys.walletLocks && sys'.rowLocks == sys.rowLocks[s.call.id := sid]
    ensures var row := sys.db.transactions[s.call.id];
            SessionOk(sys', sid, s.(phase := Reverting, before := Some(row), todo := Reversed(Deltas(row.Input()))))
  {
    var row := sys.db.transactions[s.call.id];
    assert s.applied == [];
    DraftIgnores(sys, sys', sid, s, s.(phase := Reverting, before := Some(row), todo := Reversed(Deltas(row.Input()))));
  }

  lemma {:induction false} LockRowKeepsOwn(sys: System, sid: Sid, s: Session)
    requires sid in sys.sessions && sys.sessions[sid] == s && SessionOk(sys, sid, s)
    ensures var sys' := AfterLockRow(sys, sid, s); sid in sys'.sessions ==> SessionOk(sys', sid, sys'.sessions[sid])
  {
    var sys' := AfterLockRow(sys, sid, s);
    if sys' != sys && sys' != RolledBack(sys, sid) {
      LockedKeepsOwn(sys, sys', sid, s);
    }
  }

  lemma RollbackTouchesOwn(sys: System, sid: Sid)
    ensures OnlyTouches(sys, RolledBack(sys, sid), sid)
  {
  }

  /** A session that gains locks nobody else holds touches nobody else. */
  lemma LockingTouchesOwn(sys: System, sid: Sid, s: Session, rowLocks: map<Id, Sid>, walletLocks: map<Id, Sid>)
    requires forall k :: k in sys.rowLocks && sys.rowLocks[k] != sid ==> k in rowLocks && rowLocks[k] == sys.rowLocks[k]
    requires forall k :: k in sys.walletLocks && sys.walletLocks[k] != sid ==>
               k in walletLocks && walletLocks[k] == sys.walletLocks[k]
    ensures OnlyTouches(sys, WithSession(sys, sid, s).(rowLocks := rowLocks, walletLocks := walletLocks), sid)
  {
  }

  lemma {:induction false} LockRowTouchesOwn(sys: System, sid: Sid, s: Session)
    ensures OnlyTouches(sys, AfterLockRow(sys, sid, s), sid)
  {
    RollbackTouchesOwn(sys, sid);
    var sys' := AfterLockRow(sys, sid, s);
    if sys' != sys && sys' != RolledBack(sys, sid) {
      LockingTouchesOwn(sys, sid, sys'.sessions[sid], sys'.rowLocks, sys'.walletLocks);
    }
  }

  lemma CheckedKeepsOwn(sys: System, sys': System, sid: Sid, s: Session)
    requires SessionOk(sys, sid, s) && MayCheck(s) && ValidInput(s.call.input)
    requires sys'.db == sys.db && sys'.walletLocks == sys.walletLocks && sys'.rowLocks == sys.rowLocks
    ensures SessionOk(sys', sid, s.(phase := Posting, todo := Deltas(s.call.input)))
  {
    assert s.applied + [] == s.applied;
    DraftIgnores(sys, sys', sid, s, s.(phase := Posting, todo := Deltas(s.call.input)));
  }

  lemma {:induction false} CheckInputKeepsOwn(sys: System, sid: Sid, s: Session)
    requires sid in sys.sessions && sys.sessions[sid] == s && SessionOk(sys, sid, s)
    ensures var sys' := AfterCheckInput(sys, sid, s); sid in sys'.sessions ==> SessionOk(sys', sid, sys'.sessions[sid])
  {
    var sys' := AfterCheckInput(sys, sid, s);
    if sys' != sys && sys' != RolledBack(sys, sid) {
      CheckedKeepsOwn(sys, sys', sid, s);
    }
  }

  lemma {:induction false} CheckInputTouchesOwn(sys: System, sid: Sid, s: Session)
    ensures OnlyTouches(sys, AfterCheckInput(sys, sid, s), sid)
  {
    RollbackTouchesOwn(sys, sid);
    var sys' := AfterCheckInput(sys, sid, s);
    if sys' != sys && sys' != RolledBack(sys, sid) {
      LockingTouchesOwn(sys, sid, sys'.sessions[sid], sys'.rowLocks, sys'.walletLocks);
    }
  }

  /** Drafting one more delta keeps the draft equal to the committed balance plus the applied deltas. */
  lemma DraftOneMore(sys: System, sys': System, sid: Sid, s: Session)
    requires DraftOk(sys, sid, s)
    requires s.todo != [] && CanRecord(sys.db, s.call.userID, s.todo[0].walletID)
    requires sys'.db == sys.db && sys'.walletLocks == sys.walletLocks[s.todo[0].walletID := sid]
    ensures DraftOk(sys', sid, Drafted(sys.db, s))
  {
    var d, s' := s.todo[0], Drafted(sys.db, s);
    if d.walletID !in s.draft {
      DeltaSumUntouched(s.applied, d.walletID);
    }
    forall w | w in s'.draft
      ensures w in sys.db.wallets && s'.draft[w] == sys.db.wallets[w].balanceMinor + DeltaSum(s'.applied, w)
    {
      DeltaSumOneMore(s.applied, d, w);
    }
  }

  lemma MoveWalletKeepsRow(sys: System, sys': System, sid: Sid, s: Session)
    requires RowOk(sys, sid, s) && ProgressOk(sys, s)
    requires s.todo != [] && s.todo[0].walletID in sys.db.wallets
    requires sys'.db == sys.db && sys'.rowLocks == sys.rowLocks
    ensures RowOk(sys', sid, Drafted(sys.db, s)) && ProgressOk(sys', Drafted(sys.db, s))
  {
    assert s.applied + [s.todo[0]] + s.todo[1..] == s.applied + s.todo;
  }

  lemma {:induction false} MoveWalletKeepsOwn(sys: System, sid: Sid, s: Session)
    requires sid in sys.sessions && sys.sessions[sid] == s && SessionOk(sys, sid, s)
    ensures var sys' := AfterMoveWallet(sys, sid, s); sid in sys'.sessions ==> SessionOk(sys', sid, sys'.sessions[sid])
  {
    var sys' := AfterMoveWallet(sys, sid, s);
    if s.todo == [] || !Free(sys.walletLocks, s.todo[0].walletID, sid) {
    } else if CanRecord(sys.db, s.call.userID, s.todo[0].walletID) {
      DraftOneMore(sys, sys', sid, s);
      MoveWalletKeepsRow(sys, sys', sid, s);
      assert sys'.sessions[sid] == Drafted(sys.db, s);
    }
  }

  lemma {:induction false} MoveWalletTouchesOwn(sys: System, sid: Sid, s: Session)
    ensures OnlyTouches(sys, AfterMoveWallet(sys, sid, s), sid)
  {
    RollbackTouchesOwn(sys, sid);
    var sys' := AfterMoveWallet(sys, sid, s);
    if sys' != sys && sys' != RolledBack(sys, sid) {
      LockingTouchesOwn(sys, sid, sys'.sessions[sid], sys'.rowLocks, sys'.walletLocks);
    }
  }

  /** The row of a session with nothing left to apply may be written. */
  predicate MayWrite(db: Database, s: Session) {
    && s.todo == []
    && s.phase == (if s.call.Delete? then Reverting else Posting)
    && (s.call.Create? ==> s.call.id !in db.transactions)
    && if s.call.Delete? then s.call.id !in db.retained else RowAllowed(s.call.input)
  }

  lemma WrittenKeepsOwn(sys: System, sys': System, sid: Sid, s: Session)
    requires SessionOk(sys, sid, s) && MayWrite(sys.db, s)
    requires sys'.db == sys.db && sys'.walletLocks == sys.walletLocks
    requires sys'.rowLocks == if s.call.Create? then sys.rowLocks[s.call.id := sid] else sys.rowLocks
    ensures SessionOk(sys', sid, s.(phase := Written))
  {
    DraftIgnores(sys, sys', sid, s, s.(phase := Written));
    assert Forth(s.(phase := Written)) == Forth(s);
  }

  /** Writing the row rolls back, waits, or leaves the session written. */
  lemma WriteRowOutcome(sys: System, sid: Sid, s: Session)
    ensures
      var sys' := AfterWriteRow(sys, sid, s);
      || sys' == sys || sys' == RolledBack(sys, sid)
      || (&& MayWrite(sys.db, s) && (s.call.Create? ==> Free(sys.rowLocks, s.call.id, sid))
          && sys' == WithSession(sys, sid, s.(phase := Written))
                       .(rowLocks := if s.call.Create? then sys.rowLocks[s.call.id := sid] else sys.rowLocks))
  {
  }

  lemma {:induction false} WriteRowKeepsOwn(sys: System, sid: Sid, s: Session)
    requires sid in sys.sessions && sys.sessions[sid] == s && SessionOk(sys, sid, s)
    ensures var sys' := AfterWriteRow(sys, sid, s); sid in sys'.sessions ==> SessionOk(sys', sid, sys'.sessions[sid])
  {
    WriteRowOutcome(sys, sid, s);
    var sys' := AfterWriteRow(sys, sid, s);
    if sys' != sys && sys' != RolledBack(sys, sid) {
      WrittenKeepsOwn(sys, sys', sid, s);
    }
  }

  lemma {:induction false} WriteRowTouchesOwn(sys: System, sid: Sid, s: Session)
    ensures OnlyTouches(sys, AfterWriteRow(sys, sid, s), sid)
  {
    RollbackTouchesOwn(sys, sid);
    WriteRowOutcome(sys, sid, s);
    var sys' := AfterWriteRow(sys, sid, s);
    if sys' != sys && sys' != RolledBack(sys, sid) {
      LockingTouchesOwn(sys, sid, sys'.sessions[sid], sys'.rowLocks, sys'.walletLocks);
    }
  }

  // ---------------------------------------------------------------- commits and changes keep the invariant

  lemma CommitKeepsDraft(sys: System, sid: Sid, s: Session, other: Sid, o: Session)
    requires sid != other && DraftOk(sys, sid, s) && DraftOk(sys, other, o)
    ensures DraftOk(RolledBack(sys, sid).(db := Installed(sys.db, s)), other, o)
  {
    forall w | w in o.draft ensures w !in s.draft {}
  }

  lemma CommitKeepsRow(sys: System, sid: Sid, s: Session, other: Sid, o: Session)
    requires sid != other && s.phase == Written
    requires RowOk(sys, sid, s) && RowOk(sys, other, o) && ProgressOk(sys, o)
    ensures var sys' := RolledBack(sys, sid).(db := Installed(sys.db, s)); RowOk(sys', other, o) && ProgressOk(sys', o)
  {
    if o.before.Some? || o.phase == Written {
      assert o.call.id != s.call.id;
    }
  }

  lemma {:induction false} CommitKeepsSessions(sys: System, sid: Sid)
    requires SessionsOk(sys) && sid in sys.sessions
    ensures SessionsOk(AfterCommit(sys, sid, sys.sessions[sid]))
  {
    var s := sys.sessions[sid];
    var sys' := AfterCommit(sys, sid, s);
    if s.phase == Written {
      var mid := RolledBack(sys, sid).(db := Installed(sys.db, s));
      forall other | other in sys'.sessions ensures SessionOk(sys', other, sys'.sessions[other]) {
        var o := sys.sessions[other];
        CommitKeepsDraft(sys, sid, s, other, o);
        CommitKeepsRow(sys, sid, s, other, o);
        UndisturbedByLocks(mid, sys', other, o);
      }
    }
  }

  /** A change that does not have to wait leaves locked wallets and all rows alone, and pins no locked row. */
  lemma ChangeLeavesLocked(sys: System, op: Op)
    requires !op.MovesMoney() && !Waits(sys, op)
    ensures
      var db := AfterChange(sys, op).db;
      && db.transactions == sys.db.transactions
      && (forall w :: w in sys.walletLocks && w in sys.db.wallets ==>
            w in db.wallets && db.wallets[w] == sys.db.wallets[w])
      && (forall id :: id in sys.rowLocks && id !in sys.db.retained ==> id !in db.retained)
  {
  }

  lemma ChangeKeepsSession(sys: System, op: Op, sid: Sid, s: Session)
    requires SessionOk(sys, sid, s)
    ensures SessionOk(AfterChange(sys, op), sid, s)
  {
    if !op.MovesMoney() && !Waits(sys, op) {
      ChangeLeavesLocked(sys, op);
    }
  }

  lemma ChangeKeepsSessions(sys: System, op: Op)
    requires SessionsOk(sys)
    ensures SessionsOk(AfterChange(sys, op))
  {
    forall sid | sid in sys.sessions { ChangeKeepsSession(sys, op, sid, sys.sessions[sid]); }
  }

  // ---------------------------------------------------------------- what a commit does

  function RowNow(db: Database, id: Id): Option<Transaction> {
    if id in db.transactions then Some(db.transactions[id]) else None
  }

  function RowAfter(call: Call): Option<Transaction> {
    if call.Delete? then None else Some(RowFor(call.userID, call.input))
  }

  /** The row of a call put in place, with the wallets moved to match, whoever may write them by now. */
  function Put(db: Database, call: Call): Database {
    db.(wallets := Rebalanced(db.wallets, RowNow(db, call.id), RowAfter(call)),
        transactions := if call.Delete? then db.transactions - {call.id}
                        else db.transactions[call.id := RowFor(call.userID, call.input)])
  }

  /** The call fits the tables: it creates a row that is not there, or changes one of its own user's that
      is, and no deleted one is pinned; the row it writes is sound. */
  predicate Fits(db: Database, call: Call) {
    && (call.Create? <==> call.id !in db.transactions)
    && (!call.Create? ==> db.transactions[call.id].userID == call.userID)
    && (call.Delete? ==> call.id !in db.retained)
    && (!call.Delete? ==> Sound(RowFor(call.userID, call.input), db.wallets.Keys))
  }

  /** A finished session has applied the effect of the row it writes less that of the row it takes back. */
  lemma FinishedSum(sys: System, sid: Sid, s: Session, w: Id)
    requires RowOk(sys, sid, s) && ProgressOk(sys, s) && s.phase == Written
    ensures DeltaSum(s.applied, w) == EffectOf(RowAfter(s.call), w) - EffectOf(s.before, w)
  {
    assert s.applied + s.todo == s.applied;
    DeltaSumAppend(Back(s.before), Forth(s), w);
    if s.before.Some? {
      DeltasAreEffect(s.before.value, w);
      ReversalCancels(Deltas(s.before.value.Input()), w);
    }
    if !s.call.Delete? {
      InputDeltasAreEffect(s.call.userID, s.call.input, w);
    }
  }

  lemma FinishedDraft(sys: System, sid: Sid, s: Session, w: Id)
    requires DraftOk(sys, sid, s) && w in sys.db.wallets
    ensures
      Installed(sys.db, s).wallets[w]
      == sys.db.wallets[w].(balanceMinor := sys.db.wallets[w].balanceMinor + DeltaSum(s.applied, w))
  {
    if w !in s.draft {
      DeltaSumUntouched(s.applied, w);
    }
  }

  lemma InputDeltasAreEffect(userID: Id, input: TransactionInput, w: Id)
    requires ValidInput(input)
    ensures DeltaSum(Deltas(input), w) == RowFor(userID, input).Effect(w)
    ensures (exists d :: d in Deltas(input) && d.walletID == w) <==> w in RowFor(userID, input).Touches()
  {
    DeltasAreEffect(RowFor(userID, input), w);
  }

  lemma {:induction false} InstalledWallets(sys: System, sid: Sid, s: Session)
    requires SessionOk(sys, sid, s) && s.phase == Written
    ensures Installed(sys.db, s).wallets == Rebalanced(sys.db.wallets, s.before, RowAfter(s.call))
  {
    forall w | w in sys.db.wallets
      ensures Installed(sys.db, s).wallets[w] == Rebalanced(sys.db.wallets, s.before, RowAfter(s.call))[w]
    {
      FinishedDraft(sys, sid, s, w);
      FinishedSum(sys, sid, s, w);
    }
  }

  lemma BeforeIsRowNow(sys: System, sid: Sid, s: Session)
    requires RowOk(sys, sid, s) && ProgressOk(sys, s) && s.phase == Written
    ensures s.before == RowNow(sys.db, s.call.id)
  {
  }

  /** A commit puts the call's row in place and moves the wallets by exactly the difference. */
  lemma {:induction false} CommitPutsRow(sys: System, sid: Sid, s: Session)
    requires SessionOk(sys, sid, s) && s.phase == Written
    ensures Installed(sys.db, s) == Put(sys.db, s.call)
  {
    InstalledWallets(sys, sid, s);
    BeforeIsRowNow(sys, sid, s);
  }

  lemma CommitFits(sys: System, sid: Sid, s: Session)
    requires SessionOk(sys, sid, s) && s.phase == Written
    ensures Fits(sys.db, s.call)
  {
    if !s.call.Delete? {
      var row := RowFor(s.call.userID, s.call.input);
      forall w | w in row.Touches() ensures w in sys.db.wallets {
        InputDeltasAreEffect(s.call.userID, s.call.input, w);
        var d :| d in Deltas(s.call.input) && d.walletID == w;
        assert d in s.applied + s.todo;
      }
    }
  }

  lemma PutKeepsWellFormed(db: Database, call: Call)
    requires WellFormed(db) && Fits(db, call)
    ensures WellFormed(Put(db, call))
  {
  }

  lemma {:induction false} PutContribution(db: Database, call: Call, w: Id)
    requires Fits(db, call)
    ensures Sum(Contributions(Put(db, call).transactions, w))
         == Sum(Contributions(db.transactions, w)) - EffectOf(RowNow(db, call.id), w) + EffectOf(RowAfter(call), w)
  {
    match call
    case Create(userID, id, input) => InsertedContribution(db.transactions, id, RowFor(userID, input), w);
    case Update(userID, id, input) => ReplacedContribution(db.transactions, id, RowFor(userID, input), w);
    case Delete(_, id) => RemovedContribution(db.transactions, id, w);
  }

  lemma {:induction false} PutKeepsLedger(db: Database, opening: map<Id, int>, call: Call)
    requires LedgerInv(db, opening) && Fits(db, call)
    ensures LedgerInv(Put(db, call), opening)
  {
    PutKeepsWellFormed(db, call);
    forall w | w in db.wallets { PutContribution(db, call, w); }
    RebalanceKeepsBalanced(db, Put(db, call), opening, RowNow(db, call.id), RowAfter(call));
  }

  // ---------------------------------------------------------------- commits are serial while access lasts

  /** The user may still write what the session has written, and still has what its check found. */
  predicate AccessOk(db: Database, s: Session) {
    && (forall d :: d in s.applied ==> CanRecord(db, s.call.userID, d.walletID))
    && ((s.phase == Posting || s.phase == Written) && !s.call.Delete? ==> RefsExist(db, s.call.userID, s.call.input))
  }

  lemma CanReverseIff(sys: System, sid: Sid, s: Session)
    requires SessionOk(sys, sid, s) && s.phase == Written && !s.call.Create?
    ensures CanReverse(sys.db, s.call.userID, s.call.id)
       <==> forall d :: d in Back(s.before) ==> CanRecord(sys.db, s.call.userID, d.walletID)
  {
    DeltasAreReversible(sys.db, s.call.userID, s.before.value);
  }

  /** A finished call would succeed as a whole on the committed tables exactly when its user has kept the
      access it used. */
  lemma SucceedsIffAccess(sys: System, sid: Sid, s: Session)
    requires SessionOk(sys, sid, s) && s.phase == Written
    ensures Succeeds(sys.db, s.call) <==> AccessOk(sys.db, s)
  {
    assert s.applied == Back(s.before) + Forth(s) by {
      assert s.applied + s.todo == s.applied;
    }
    if !s.call.Create? {
      CanReverseIff(sys, sid, s);
    }
    if !s.call.Delete? && RefsExist(sys.db, s.call.userID, s.call.input) {
      CheckedRefsCoverDeltas(sys.db, s.call.userID, s.call.input);
    }
  }

  lemma PutIsApply(db: Database, opening: map<Id, int>, call: Call)
    requires Succeeds(db, call)
    ensures Books(Put(db, call), opening) == Apply(Books(db, opening), call)
  {
  }

  /** As long as its user keeps the access it used, a commit does to the committed tables what the whole
      call would do to them in one piece. */
  lemma {:induction false} CommitIsSerial(sys: System, sid: Sid, s: Session, opening: map<Id, int>)
    requires SessionOk(sys, sid, s) && s.phase == Written
    ensures Succeeds(sys.db, s.call) <==> AccessOk(sys.db, s)
    ensures AccessOk(sys.db, s) ==> Books(Installed(sys.db, s), opening) == Apply(Books(sys.db, opening), s.call)
  {
    SucceedsIffAccess(sys, sid, s);
    CommitPutsRow(sys, sid, s);
    if AccessOk(sys.db, s) {
      PutIsApply(sys.db, opening, s.call);
    }
  }

  // ---------------------------------------------------------------- every interleaving

  /** The committed calls put in place one after the other, with the changes between them. */
  function Replay(books: Books, log: seq<Op>): Books {
    if log == [] then books
    else
      var before, last := Replay(books, log[..|log| - 1]), log[|log| - 1];
      if last.MovesMoney() then before.(db := Put(before.db, last)) else Apply(before, last)
  }

  predicate FitsInTurn(books: Books, log: seq<Op>, i: nat)
    requires i < |log|
  {
    log[i].MovesMoney() ==> Fits(Replay(books, log[..i]).db, log[i])
  }

  predicate FittingLog(books: Books, log: seq<Op>) {
    forall i: nat :: i < |log| ==> FitsInTurn(books, log, i)
  }

  predicate SystemOk(books: Books, sys: System) {
    && SessionsOk(sys)
    && FittingLog(books, sys.log)
    && Replay(books, sys.log) == Books(sys.db, sys.opening)
  }

  lemma LogOneMore(books: Books, log: seq<Op>, op: Op)
    requires FittingLog(books, log)
    requires op.MovesMoney() ==> Fits(Replay(books, log).db, op)
    ensures FittingLog(books, log + [op])
    ensures Replay(books, log + [op])
         == var before := Replay(books, log);
            if op.MovesMoney() then before.(db := Put(before.db, op)) else Apply(before, op)
  {
    assert (log + [op])[..|log|] == log;
    forall i: nat | i < |log + [op]| ensures FitsInTurn(books, log + [op], i) {
      if i < |log| {
        assert FitsInTurn(books, log, i);
        assert log[..i] == (log + [op])[..i];
      }
    }
  }

  lemma {:induction false} CommitKeepsSystem(books: Books, sys: System, sid: Sid)
    requires SystemOk(books, sys) && sid in sys.sessions
    ensures SystemOk(books, AfterCommit(sys, sid, sys.sessions[sid]))
  {
    var s := sys.sessions[sid];
    CommitKeepsSessions(sys, sid);
    if s.phase == Written {
      CommitPutsRow(sys, sid, s);
      CommitFits(sys, sid, s);
      LogOneMore(books, sys.log, s.call);
    }
  }

  lemma {:induction false} ChangeKeepsSystem(books: Books, sys: System, op: Op)
    requires SystemOk(books, sys)
    ensures SystemOk(books, AfterChange(sys, op))
  {
    ChangeKeepsSessions(sys, op);
    if !op.MovesMoney() {
      LogOneMore(books, sys.log, op);
    }
  }

  lemma LocalStepKeepsSystem(books: Books, sys: System, sys': System, sid: Sid)
    requires SystemOk(books, sys) && OnlyTouches(sys, sys', sid)
    requires sid in sys'.sessions ==> SessionOk(sys', sid, sys'.sessions[sid])
    ensures SystemOk(books, sys')
  {
    OwnStep(sys, sys', sid);
  }

  /** The steps of a session that commit nothing. */
  predicate Local(step: Step) {
    !step.Commit? && !step.Change?
  }

  lemma {:induction false} LocalStepTouchesOwn(sys: System, step: Step)
    requires Local(step)
    ensures OnlyTouches(sys, Exec(sys, step), step.sid)
  {
    match step {
      case Begin(sid, call) => BeginTouchesOwn(sys, sid, call);
      case Abort(sid) => RollbackTouchesOwn(sys, sid);
      case LockRow(sid) => if sid in sys.sessions { LockRowTouchesOwn(sys, sid, sys.sessions[sid]); }
      case CheckInput(sid) => if sid in sys.sessions { CheckInputTouchesOwn(sys, sid, sys.sessions[sid]); }
      case MoveWallet(sid) => if sid in sys.sessions { MoveWalletTouchesOwn(sys, sid, sys.sessions[sid]); }
      case WriteRow(sid) => if sid in sys.sessions { WriteRowTouchesOwn(sys, sid, sys.sessions[sid]); }
    }
  }

  lemma {:induction false} LocalStepKeepsOwn(sys: System, step: Step)
    requires SessionsOk(sys) && Local(step) && step.sid in Exec(sys, step).sessions
    ensures SessionOk(Exec(sys, step), step.sid, Exec(sys, step).sessions[step.sid])
  {
    match step {
      case Begin(sid, call) => BeginKeepsOwn(sys, sid, call);
      case Abort(_) =>
      case LockRow(sid) => if sid in sys.sessions { LockRowKeepsOwn(sys, sid, sys.sessions[sid]); }
      case CheckInput(sid) => if sid in sys.sessions { CheckInputKeepsOwn(sys, sid, sys.sessions[sid]); }
      case MoveWallet(sid) => if sid in sys.sessions { MoveWalletKeepsOwn(sys, sid, sys.sessions[sid]); }
      case WriteRow(sid) => if sid in sys.sessions { WriteRowKeepsOwn(sys, sid, sys.sessions[sid]); }
    }
  }

  lemma BeginTouchesOwn(sys: System, sid: Sid, call: Op)
    ensures OnlyTouches(sys, AfterBegin(sys, sid, call), sid)
  {
  }

  lemma BeginKeepsOwn(sys: System, sid: Sid, call: Op)
    requires SessionsOk(sys)
    ensures var sys' := AfterBegin(sys, sid, call); sid in sys'.sessions ==> SessionOk(sys', sid, sys'.sessions[sid])
  {
  }

  lemma {:induction false} ExecKeepsSystem(books: Books, sys: System, step: Step)
    requires SystemOk(books, sys)
    ensures SystemOk(books, Exec(sys, step))
  {
    if step.Change? {
      ChangeKeepsSystem(books, sys, step.op);
    } else if step.Commit? {
      if step.sid in sys.sessions {
        CommitKeepsSystem(books, sys, step.sid);
      }
    } else {
      LocalStepTouchesOwn(sys, step);
      if step.sid in Exec(sys, step).sessions {
        LocalStepKeepsOwn(sys, step);
      }
      LocalStepKeepsSystem(books, sys, Exec(sys, step), step.sid);
    }
  }

  lemma {:induction false} ReachableIsOk(books: Books, steps: seq<Step>)
    ensures SystemOk(books, ExecAll(Start(books), steps))
  {
    if steps != [] {
      ReachableIsOk(books, steps[..|steps| - 1]);
      ExecKeepsSystem(books, ExecAll(Start(books), steps[..|steps| - 1]), steps[|steps| - 1]);
    }
  }

  lemma {:induction false} ReplayKeepsLedger(books: Books, log: seq<Op>)
    requires LedgerInv(books.db, books.opening) && FittingLog(books, log)
    ensures LedgerInv(Replay(books, log).db, Replay(books, log).opening)
  {
    if log != [] {
      var front, last := log[..|log| - 1], log[|log| - 1];
      forall i: nat | i < |front| ensures FitsInTurn(books, front, i) {
        assert FitsInTurn(books, log, i) && front[..i] == log[..i];
      }
      ReplayKeepsLedger(books, front);
      assert FitsInTurn(books, log, |front|);
      if last.MovesMoney() {
        PutKeepsLedger(Replay(books, front).db, Replay(books, front).opening, last);
      } else {
        ApplyKeepsLedger(Replay(books, front), last);
      }
    }
  }

  /** However statements and changes interleave, even if access is withdrawn from calls in progress, the
      committed tables are the committed rows put in place in commit order with the changes between
      them, and the ledger is in balance. */
  lemma {:induction false} InterleavingKeepsLedger(books: Books, steps: seq<Step>)
    requires LedgerInv(books.db, books.opening)
    ensures
      var sys := ExecAll(Start(books), steps);
      && FittingLog(books, sys.log)
      && Replay(books, sys.log) == Books(sys.db, sys.opening)
      && LedgerInv(sys.db, sys.opening)
  {
    ReachableIsOk(books, steps);
    ReplayKeepsLedger(books, ExecAll(Start(books), steps).log);
  }

  predicate SucceedsInTurn(books: Books, log: seq<Op>, i: nat)
    requires i < |log|
  {
    log[i].MovesMoney() ==> Succeeds(Run(books, log[..i]).db, log[i])
  }

  /** The calls of a log all succeed when run one after the other, with the changes between them. */
  predicate SerialRun(books: Books, log: seq<Op>) {
    forall i: nat :: i < |log| ==> SucceedsInTurn(books, log, i)
  }

  /** No commit comes after its user has lost access that its session used. */
  predicate AccessHeld(sys: System, steps: seq<Step>) {
    steps != [] ==>
      var front, last := steps[..|steps| - 1], steps[|steps| - 1];
      AccessHeld(sys, front) && CommitsWithAccess(ExecAll(sys, front), last)
  }

  predicate CommitsWithAccess(sys: System, step: Step) {
    step.Commit? && step.sid in sys.sessions && sys.sessions[step.sid].phase == Written ==>
      AccessOk(sys.db, sys.sessions[step.sid])
  }

  lemma SerialOneMore(books: Books, log: seq<Op>, op: Op)
    ensures SerialRun(books, log + [op])
       <==> SerialRun(books, log) && (op.MovesMoney() ==> Succeeds(Run(books, log).db, op))
    ensures Run(books, log + [op]) == Apply(Run(books, log), op)
  {
    var longer := log + [op];
    assert longer[..|log|] == log && longer[|log|] == op;
    forall i: nat | i < |log| ensures SucceedsInTurn(books, longer, i) <==> SucceedsInTurn(books, log, i) {
      assert log[..i] == longer[..i] && log[i] == longer[i];
    }
    if SerialRun(books, longer) {
      assert SucceedsInTurn(books, longer, |log|);
      forall i: nat | i < |log| ensures SucceedsInTurn(books, log, i) {
        assert SucceedsInTurn(books, longer, i);
      }
    }
  }

  predicate SerialSoFar(books: Books, sys: System) {
    SerialRun(books, sys.log) && Run(books, sys.log) == Books(sys.db, sys.opening)
  }

  lemma {:induction false} CommitIsSerialIff(books: Books, sys: System, sid: Sid, s: Session)
    requires SystemOk(books, sys) && SerialSoFar(books, sys)
    requires sid in sys.sessions && sys.sessions[sid] == s && s.phase == Written
    ensures SerialRun(books, sys.log + [s.call]) <==> AccessOk(sys.db, s)
    ensures AccessOk(sys.db, s) ==> Run(books, sys.log + [s.call]) == Books(Installed(sys.db, s), sys.opening)
  {
    CommitIsSerial(sys, sid, s, sys.opening);
    SerialOneMore(books, sys.log, s.call);
  }

  lemma {:induction false} ChangeIsSerial(books: Books, sys: System, op: Op)
    requires SerialSoFar(books, sys)
    ensures SerialSoFar(books, AfterChange(sys, op))
  {
    SerialOneMore(books, sys.log, op);
  }

  lemma {:induction false} StepIsSerialIff(books: Books, sys: System, step: Step)
    requires SystemOk(books, sys) && SerialSoFar(books, sys)
    ensures SerialRun(books, Exec(sys, step).log) <==> CommitsWithAccess(sys, step)
    ensures CommitsWithAccess(sys, step) ==> SerialSoFar(books, Exec(sys, step))
  {
    if step.Change? {
      ChangeIsSerial(books, sys, step.op);
    } else if step.Commit? {
      if step.sid in sys.sessions && sys.sessions[step.sid].phase == Written {
        CommitIsSerialIff(books, sys, step.sid, sys.sessions[step.sid]);
      }
    } else {
      LocalStepTouchesOwn(sys, step);
    }
  }

  lemma LogGrows(sys: System, step: Step)
    ensures sys.log <= Exec(sys, step).log
  {
  }

  lemma SerialPrefix(books: Books, log: seq<Op>, longer: seq<Op>)
    requires SerialRun(books, longer) && log <= longer
    ensures SerialRun(books, log)
  {
    forall i: nat | i < |log| ensures SucceedsInTurn(books, log, i) {
      assert SucceedsInTurn(books, longer, i) && log[..i] == longer[..i];
    }
  }

  /** Run one after the other in commit order, with the changes between them, the committed calls all
      succeed and give the committed tables, exactly when no call was committed after its user had lost
      access that it used. */
  lemma {:induction false} InterleavingIsSerial(books: Books, steps: seq<Step>)
    ensures
      var sys := ExecAll(Start(books), steps);
      && (SerialRun(books, sys.log) <==> AccessHeld(Start(books), steps))
      && (AccessHeld(Start(books), steps) ==> Run(books, sys.log) == Books(sys.db, sys.opening))
  {
    if steps != [] {
      var front, last := steps[..|steps| - 1], steps[|steps| - 1];
      var sys := ExecAll(Start(books), front);
      InterleavingIsSerial(books, front);
      ReachableIsOk(books, front);
      if AccessHeld(Start(books), front) {
        StepIsSerialIff(books, sys, last);
      } else if SerialRun(books, Exec(sys, last).log) {
        LogGrows(sys, last);
        SerialPrefix(books, sys.log, Exec(sys, last).log);
      }
    }
  }

  // ---------------------------------------------------------------- changes that withdraw nothing

  predicate AllAccessOk(sys: System) {
    forall sid :: sid in sys.sessions ==> AccessOk(sys.db, sys.sessions[sid])
  }

  /** The change leaves the sessions in progress the access they have used. */
  predicate Harmless(sys: System, step: Step) {
    step.Change? ==> forall sid :: sid in sys.sessions && AccessOk(sys.db, sys.sessions[sid]) ==>
      AccessOk(Exec(sys, step).db, sys.sessions[sid])
  }

  predicate NothingWithdrawn(sys: System, steps: seq<Step>) {
    steps != [] ==>
      var front, last := steps[..|steps| - 1], steps[|steps| - 1];
      NothingWithdrawn(sys, front) && Harmless(ExecAll(sys, front), last)
  }

  /** A commit changes balances but no owner and no share, category or tag. */
  lemma CommitKeepsAccess(db: Database, s: Session, o: Session)
    requires AccessOk(db, o)
    ensures AccessOk(Installed(db, s), o)
  {
    forall d | d in o.applied { CommitKeepsChecks(db, s, o.call.userID, d.walletID); }
    if !o.call.Delete? {
      CommitKeepsRefs(db, s, o.call.userID, o.call.input);
    }
  }

  lemma CommitKeepsChecks(db: Database, s: Session, userID: Id, w: Id)
    ensures CanRecord(Installed(db, s), userID, w) <==> CanRecord(db, userID, w)
  {
  }

  lemma CommitKeepsRefs(db: Database, s: Session, userID: Id, input: TransactionInput)
    ensures RefsExist(Installed(db, s), userID, input) <==> RefsExist(db, userID, input)
  {
    CommitKeepsChecks(db, s, userID, input.walletID);
    CommitKeepsChecks(db, s, userID, input.toWalletID);
  }

  lemma CommitKeepsAllAccess(sys: System, sid: Sid, s: Session)
    requires AllAccessOk(sys)
    ensures AllAccessOk(AfterCommit(sys, sid, s))
  {
    forall other | other in sys.sessions {
      CommitKeepsAccess(sys.db, s, sys.sessions[other]);
    }
  }

  lemma CheckInputKeepsAccess(sys: System, sid: Sid, s: Session)
    requires sid in sys.sessions && sys.sessions[sid] == s && AccessOk(sys.db, s)
    ensures var sys' := AfterCheckInput(sys, sid, s); sid in sys'.sessions ==> AccessOk(sys.db, sys'.sessions[sid])
  {
  }

  lemma MoveWalletKeepsAccess(sys: System, sid: Sid, s: Session)
    requires sid in sys.sessions && sys.sessions[sid] == s && AccessOk(sys.db, s)
    ensures var sys' := AfterMoveWallet(sys, sid, s); sid in sys'.sessions ==> AccessOk(sys.db, sys'.sessions[sid])
  {
  }

  lemma LockRowKeepsAccess(sys: System, sid: Sid, s: Session)
    requires sid in sys.sessions && sys.sessions[sid] == s && AccessOk(sys.db, s)
    ensures var sys' := AfterLockRow(sys, sid, s); sid in sys'.sessions ==> AccessOk(sys.db, sys'.sessions[sid])
  {
  }

  lemma WriteRowKeepsAccess(sys: System, sid: Sid, s: Session)
    requires sid in sys.sessions && sys.sessions[sid] == s && AccessOk(sys.db, s)
    ensures var sys' := AfterWriteRow(sys, sid, s); sid in sys'.sessions ==> AccessOk(sys.db, sys'.sessions[sid])
  {
    WriteRowOutcome(sys, sid, s);
  }

  lemma {:induction false} LocalStepKeepsAccess(sys: System, step: Step)
    requires Local(step) && step.sid in Exec(sys, step).sessions
    requires step.sid in sys.sessions ==> AccessOk(sys.db, sys.sessions[step.sid])
    ensures AccessOk(sys.db, Exec(sys, step).sessions[step.sid])
  {
    if step.sid in sys.sessions && !step.Begin? {
      var sid := step.sid;
      var s := sys.sessions[sid];
      match step {
        case LockRow(_) => LockRowKeepsAccess(sys, sid, s);
        case CheckInput(_) => CheckInputKeepsAccess(sys, sid, s);
        case MoveWallet(_) => MoveWalletKeepsAccess(sys, sid, s);
        case WriteRow(_) => WriteRowKeepsAccess(sys, sid, s);
        case Abort(_) =>
      }
    }
  }

  lemma {:induction false} LocalStepKeepsAllAccess(sys: System, step: Step)
    requires AllAccessOk(sys) && Local(step)
    ensures AllAccessOk(Exec(sys, step))
  {
    LocalStepTouchesOwn(sys, step);
    if step.sid in Exec(sys, step).sessions {
      LocalStepKeepsAccess(sys, step);
    }
  }

  lemma {:induction false} StepKeepsAccess(sys: System, step: Step)
    requires AllAccessOk(sys) && Harmless(sys, step)
    ensures AllAccessOk(Exec(sys, step))
  {
    if step.Commit? {
      if step.sid in sys.sessions && sys.sessions[step.sid].phase == Written {
        CommitKeepsAllAccess(sys, step.sid, sys.sessions[step.sid]);
      }
    } else if !step.Change? {
      LocalStepKeepsAllAccess(sys, step);
    }
  }

  lemma {:induction false} AccessLasts(books: Books, steps: seq<Step>)
    requires NothingWithdrawn(Start(books), steps)
    ensures AccessHeld(Start(books), steps) && AllAccessOk(ExecAll(Start(books), steps))
  {
    if steps != [] {
      var front, last := steps[..|steps| - 1], steps[|steps| - 1];
      AccessLasts(books, front);
      StepKeepsAccess(ExecAll(Start(books), front), last);
    }
  }

  /** In particular the committed calls are serial when no change withdraws what a call in progress has
      used. */
  lemma {:induction false} SerialUnlessWithdrawn(books: Books, steps: seq<Step>)
    requires NothingWithdrawn(Start(books), steps)
    ensures
      var sys := ExecAll(Start(books), steps);
      SerialRun(books, sys.log) && Run(books, sys.log) == Books(sys.db, sys.opening)
  {
    AccessLasts(books, steps);
    InterleavingIsSerial(books, steps);
  }

  /** A row that a committed call deleted is neither updated nor deleted again unless it was created anew. */
  lemma {:induction false} NeverReversedTwice(books: Books, steps: seq<Step>, i: nat, j: nat)
    requires var log := ExecAll(Start(books), steps).log;
             && i < j < |log|
             && log[i].Delete? && (log[j].Delete? || log[j].Update?) && log[i].id == log[j].id
    ensures var log := ExecAll(Start(books), steps).log;
            exists k :: i < k < j && log[k].Create? && log[k].id == log[i].id
  {
    ReachableIsOk(books, steps);
    var log := ExecAll(Start(books), steps).log;
    assert FitsInTurn(books, log, j);
    if forall k :: i < k < j ==> !(log[k].Create? && log[k].id == log[i].id) {
      DeletedStaysAway(books, log, i, j);
    }
  }

  /** What the last entry of a log does to the row with the given identifier. */
  lemma RowPresence(books: Books, log: seq<Op>, j: nat, id: Id)
    requires 0 < j <= |log| && FitsInTurn(books, log, j - 1)
    ensures log[j - 1].Delete? && log[j - 1].id == id ==> id !in Replay(books, log[..j]).db.transactions
    ensures id !in Replay(books, log[..j - 1]).db.transactions && !(log[j - 1].Create? && log[j - 1].id == id)
        ==> id !in Replay(books, log[..j]).db.transactions
  {
    assert log[..j][..j - 1] == log[..j - 1];
  }

  lemma {:induction false} DeletedStaysAway(books: Books, log: seq<Op>, i: nat, j: nat)
    requires FittingLog(books, log) && i < j <= |log| && log[i].Delete?
    requires forall k :: i < k < j ==> !(log[k].Create? && log[k].id == log[i].id)
    ensures log[i].id !in Replay(books, log[..j]).db.transactions
  {
    assert FitsInTurn(books, log, j - 1);
    RowPresence(books, log, j, log[i].id);
    if j > i + 1 {
      DeletedStaysAway(books, log, i, j - 1);
    }
  }

  // ---------------------------------------------------------------- the protocol can finish

  lemma {:induction false} ExecAllAppend(sys: System, a: seq<Step>, b: seq<Step>)
    ensures ExecAll(sys, a + b) == ExecAll(ExecAll(sys, a), b)
  {
    if b == [] {
      assert a + b == a;
    } else {
      assert (a + b)[..|a + b| - 1] == a + b[..|b| - 1];
      ExecAllAppend(sys, a, b[..|b| - 1]);
    }
  }

  lemma ExecOneMore(sys: System, steps: seq<Step>, step: Step)
    ensures ExecAll(sys, steps + [step]) == Exec(ExecAll(sys, steps), step)
  {
  }

  /** No other session runs, so no lock can block this one. */
  predicate Alone(sys: System, sid: Sid) {
    && sys.sessions.Keys == {sid}
    && (forall k :: k in sys.rowLocks ==> sys.rowLocks[k] == sid)
    && (forall k :: k in sys.walletLocks ==> sys.walletLocks[k] == sid)
  }

  /** A session that is alone and may write all its wallets applies all its deltas. */
  lemma {:induction false} Drain(sys: System, sid: Sid) returns (steps: seq<Step>, after: System)
    requires Alone(sys, sid)
    requires forall d :: d in sys.sessions[sid].todo ==> CanRecord(sys.db, sys.sessions[sid].call.userID, d.walletID)
    ensures after == ExecAll(sys, steps) && Alone(after, sid)
    ensures after.db == sys.db && after.log == sys.log && after.rowLocks == sys.rowLocks
    ensures var s, s' := sys.sessions[sid], after.sessions[sid];
            s'.call == s.call && s'.phase == s.phase && s'.before == s.before && s'.todo == []
    decreases |sys.sessions[sid].todo|
  {
    var s := sys.sessions[sid];
    if s.todo == [] {
      steps, after := [], sys;
    } else {
      assert s.todo[0] in s.todo;
      var next := Exec(sys, MoveWallet(sid));
      var rest: seq<Step>;
      rest, after := Drain(next, sid);
      steps := [MoveWallet(sid)] + rest;
      ExecOneMore(sys, [], MoveWallet(sid));
      assert [] + [MoveWallet(sid)] == [MoveWallet(sid)];
      ExecAllAppend(sys, [MoveWallet(sid)], rest);
    }
  }

  lemma FirstStep(sys: System, step: Step)
    ensures ExecAll(sys, [step]) == Exec(sys, step)
  {
  }

  /** Takes the row under its lock and takes its deltas back. */
  lemma TakeBack(books: Books, sid: Sid, call: Call) returns (steps: seq<Step>, after: System)
    requires !call.Create? && CanReverse(books.db, call.userID, call.id)
    ensures after == ExecAll(Start(books), steps) && Alone(after, sid)
    ensures after.db == books.db && after.log == []
    ensures var s := after.sessions[sid]; s.call == call && s.phase == Reverting && s.todo == []
  {
    var begun := Exec(Start(books), Begin(sid, call));
    var locked := Exec(begun, LockRow(sid));
    FirstStep(Start(books), Begin(sid, call));
    ExecOneMore(Start(books), [Begin(sid, call)], LockRow(sid));
    DeltasAreReversible(books.db, call.userID, books.db.transactions[call.id]);
    var rest: seq<Step>;
    rest, after := Drain(locked, sid);
    steps := [Begin(sid, call)] + [LockRow(sid)] + rest;
    ExecAllAppend(Start(books), [Begin(sid, call)] + [LockRow(sid)], rest);
  }

  /** Checks the input and applies its deltas. */
  lemma PutForth(sys: System, sid: Sid, steps: seq<Step>, books: Books) returns (more: seq<Step>, after: System)
    requires sys == ExecAll(Start(books), steps) && Alone(sys, sid) && sys.db == books.db && sys.log == []
    requires
      var s := sys.sessions[sid];
      && ((s.call.Create? && s.phase == Opened) || (s.call.Update? && s.phase == Reverting))
      && s.todo == []
      && CanPost(books.db, s.call.userID, s.call.input)
    ensures after == ExecAll(Start(books), more) && Alone(after, sid)
    ensures after.db == books.db && after.log == []
    ensures var s := after.sessions[sid]; s.call == sys.sessions[sid].call && s.phase == Posting && s.todo == []
  {
    var call := sys.sessions[sid].call;
    var checked := Exec(sys, CheckInput(sid));
    ExecOneMore(Start(books), steps, CheckInput(sid));
    CheckedRefsCoverDeltas(books.db, call.userID, call.input);
    var rest: seq<Step>;
    rest, after := Drain(checked, sid);
    more := steps + [CheckInput(sid)] + rest;
    ExecAllAppend(Start(books), steps + [CheckInput(sid)], rest);
  }

  lemma WritesAlone(sys: System, sid: Sid, s: Session)
    requires Alone(sys, sid) && sys.sessions[sid] == s
    requires s.todo == [] && s.phase == (if s.call.Delete? then Reverting else Posting) && Succeeds(sys.db, s.call)
    ensures
      AfterWriteRow(sys, sid, s)
      == WithSession(sys, sid, s.(phase := Written))
           .(rowLocks := if s.call.Create? then sys.rowLocks[s.call.id := sid] else sys.rowLocks)
  {
  }

  lemma {:induction false} AloneCanWrite(sys: System, sid: Sid)
    requires Alone(sys, sid) && sys.log == []
    requires
      var s := sys.sessions[sid];
      s.todo == [] && s.phase == (if s.call.Delete? then Reverting else Posting) && Succeeds(sys.db, s.call)
    ensures
      var sys' := Exec(sys, WriteRow(sid));
      && Alone(sys', sid) && sys'.db == sys.db && sys'.log == []
      && sys'.sessions[sid].call == sys.sessions[sid].call && sys'.sessions[sid].phase == Written
  {
    WritesAlone(sys, sid, sys.sessions[sid]);
  }

  /** Every call that succeeds in one piece can be carried, statement by statement, to where only its
      commit is missing. */
  lemma SucceedingCallCanFinish(books: Books, sid: Sid, call: Call) returns (steps: seq<Step>, after: System)
    requires Succeeds(books.db, call)
    ensures after == ExecAll(Start(books), steps) && Alone(after, sid) && after.db == books.db && after.log == []
    ensures after.sessions[sid].call == call && after.sessions[sid].phase == Written
  {
    match call {
      case Create(_, _, _) =>
        var begun := Exec(Start(books), Begin(sid, call));
        FirstStep(Start(books), Begin(sid, call));
        steps, after := PutForth(begun, sid, [Begin(sid, call)], books);
      case Update(_, _, _) =>
        steps, after := TakeBack(books, sid, call);
        steps, after := PutForth(after, sid, steps, books);
      case Delete(_, _) =>
        steps, after := TakeBack(books, sid, call);
    }
    ExecOneMore(Start(books), steps, WriteRow(sid));
    AloneCanWrite(after, sid);
    steps, after := steps + [WriteRow(sid)], Exec(after, WriteRow(sid));
  }

  /** Every call that succeeds in one piece can also be carried to its commit statement by statement. */
  lemma SucceedingCallCanCommit(books: Books, sid: Sid, call: Call) returns (steps: seq<Step>)
    requires Succeeds(books.db, call)
    ensures ExecAll(Start(books), steps).log == [call]
  {
    var ready: System;
    steps, ready := SucceedingCallCanFinish(books, sid, call);
    ExecOneMore(Start(books), steps, Commit(sid));
    steps := steps + [Commit(sid)];
  }

  /** The input: if shares, categories or tags change so that the call would be refused, but only once it
      has run its statements, then it is committed all the same, and the committed calls are not serial. */
  lemma WithdrawnAccessIsUsed(books: Books, sid: Sid, call: Call, change: Op) returns (steps: seq<Step>)
    requires Succeeds(books.db, call)
    requires change.ChangeReferences? && !Succeeds(Apply(books, change).db, call)
    ensures var log := ExecAll(Start(books), steps).log; log == [change, call] && !SerialRun(books, log)
  {
    var ready: System;
    steps, ready := SucceedingCallCanFinish(books, sid, call);
    ExecOneMore(Start(books), steps, Change(change));
    ExecOneMore(Start(books), steps + [Change(change)], Commit(sid));
    steps := steps + [Change(change)] + [Commit(sid)];
    assert Run(books, [change]) == Apply(books, change) by {
      assert [change][..0] == [];
    }
    assert [change, call][..1] == [change] && !SucceedsInTurn(books, [change, call], 1);
  }
}
