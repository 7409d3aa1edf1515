/** Shared goals: membership, and the one goal wallet of every joined member. */
module Goals {
  import opened Common

  datatype MemberStatus = Pending | Joined | Rejected

  datatype Goal = Goal(userID: Id, name: string)

  /** A wallet as goals see it; goalID is NO_ID for an ordinary wallet. */
  datatype WalletRow = WalletRow(userID: Id, name: string, goalID: Id)

  datatype State = State(goals: map<Id, Goal>, members: map<(Id, Id), MemberStatus>, wallets: map<Id, WalletRow>)

  datatype GoalError =
    | NotFound | NotAuthorized | OwnerCannotRespond | AlreadyJoined | AlreadyRejected | CannotInviteSelf
    | GoalWalletReadOnly
    | ConstraintViolated

  function GoalWalletName(goalName: string, goalID: Id): string {
    "[Goal] " + goalName + " (" + (if |goalID| > 8 then goalID[..8] else goalID) + ")"
  }

  /** Wallet names are unique per user. */
  predicate NameTaken(wallets: map<Id, WalletRow>, userID: Id, name: string, except: Id) {
    exists id :: id in wallets && id != except && wallets[id].userID == userID && wallets[id].name == name
  }

  /** The insert of a wallet: a fresh id, a goal that exists, a free name. */
  predicate WalletInserts(st: State, walletID: Id, wallet: WalletRow) {
    && walletID !in st.wallets && (wallet.goalID != NO_ID ==> wallet.goalID in st.goals)
    && !NameTaken(st.wallets, wallet.userID, wallet.name, walletID)
  }

  predicate CreateSucceeds(st: State, userID: Id, goalID: Id, walletID: Id, name: string) {
    && goalID !in st.goals && goalID != NO_ID && (goalID, userID) !in st.members
    && walletID !in st.wallets && !NameTaken(st.wallets, userID, GoalWalletName(name, goalID), walletID)
  }

  /** A goal, its owner as a joined member, and the owner's goal wallet, all or none. */
  function AfterCreate(st: State, userID: Id, goalID: Id, walletID: Id, name: string): State {
    if !CreateSucceeds(st, userID, goalID, walletID, name) then st
    else State(st.goals[goalID := Goal(userID, name)],
               st.members[(goalID, userID) := Joined],
               st.wallets[walletID := WalletRow(userID, GoalWalletName(name, goalID), goalID)])
  }

  /** INSERT ... ON CONFLICT DO UPDATE: a joined member stays joined. */
  function AfterAddMember(st: State, goalID: Id, userID: Id, status: MemberStatus): State {
    var key := (goalID, userID);
    st.(members := st.members[key := if key in st.members && st.members[key] == Joined then Joined else status])
  }

  function InviteError(st: State, userID: Id, goalID: Id, invited: Id): Option<GoalError> {
    var visible := goalID in st.goals
      && (st.goals[goalID].userID == userID
          || ((goalID, userID) in st.members && st.members[(goalID, userID)] != Rejected));
    if !visible then Some(NotFound)
    else if st.goals[goalID].userID != userID then Some(NotAuthorized)
    else if invited == userID then Some(CannotInviteSelf)
    else None
  }

  function AfterInvite(st: State, userID: Id, goalID: Id, invited: Id): State {
    if InviteError(st, userID, goalID, invited).Some? then st else AfterAddMember(st, goalID, invited, Pending)
  }

  function MemberWallet(goal: Goal, goalID: Id, userID: Id): WalletRow {
    WalletRow(userID, GoalWalletName(goal.name, goalID), goalID)
  }

  function RespondError(st: State, goalID: Id, userID: Id, walletID: Id, status: MemberStatus): Option<GoalError> {
    if goalID !in st.goals then Some(NotFound)
    else if st.goals[goalID].userID == userID then Some(OwnerCannotRespond)
    else if (goalID, userID) !in st.members then Some(NotFound)
    else if st.members[(goalID, userID)] == Joined then Some(AlreadyJoined)
    else if st.members[(goalID, userID)] == Rejected then Some(AlreadyRejected)
    else if status == Joined && !WalletInserts(st, walletID, MemberWallet(st.goals[goalID], goalID, userID))
    then Some(ConstraintViolated)
    else None
  }

  function AfterRespond(st: State, goalID: Id, userID: Id, walletID: Id, status: MemberStatus): State {
    if RespondError(st, goalID, userID, walletID, status).Some? then st
    else
      st.(members := st.members[(goalID, userID) := status],
          wallets := if status == Joined
                     then st.wallets[walletID := MemberWallet(st.goals[goalID], goalID, userID)]
                     else st.wallets)
  }

  // ---------------------------------------------------------------- the calls

  class GoalRepository {
    var goals: map<Id, Goal>
    var members: map<(Id, Id), MemberStatus>
    var wallets: map<Id, WalletRow>

    constructor (st: State)
      ensures Tables() == st
    {
      goals, members, wallets := st.goals, st.members, st.wallets;
    }

    function Tables(): State
      reads this
    {
      State(goals, members, wallets)
    }

    method Rollback(begun: State)
      modifies this
      ensures Tables() == begun
    {
      goals, members, wallets := begun.goals, begun.members, begun.wallets;
    }

    method CreateGoalWallet(userID: Id, walletID: Id, goalID: Id, goalName: string) returns (ok: bool)
      modifies this
      ensures
        var wallet := WalletRow(userID, GoalWalletName(goalName, goalID), goalID);
        && ok == WalletInserts(old(Tables()), walletID, wallet)
        && Tables() == if ok then old(Tables()).(wallets := old(wallets)[walletID := wallet]) else old(Tables())
    {
      var wallet := WalletRow(userID, GoalWalletName(goalName, goalID), goalID);
      var nameFree := forall id :: id in wallets ==> wallets[id].userID != userID || wallets[id].name != wallet.name;
      ok := walletID !in wallets && (goalID == NO_ID || goalID in goals) && nameFree;
      if ok {
        wallets := wallets[walletID := wallet];
      }
    }

    method CreateWithOwnerWallet(userID: Id, goalID: Id, walletID: Id, name: string) returns (ok: bool)
      modifies this
      ensures ok <==> CreateSucceeds(old(Tables()), userID, goalID, walletID, name)
      ensures Tables() == AfterCreate(old(Tables()), userID, goalID, walletID, name)
    {
      var begun := Tables();
      if goalID in goals || goalID == NO_ID {
        return false;
      }
      goals := goals[goalID := Goal(userID, name)];
      if (goalID, userID) in members {
        Rollback(begun);
        return false;
      }
      members := members[(goalID, userID) := Joined];
      ok := CreateGoalWallet(userID, walletID, goalID, name);
      if !ok {
        Rollback(begun);
      }
    }

    method AddMember(goalID: Id, userID: Id, status: MemberStatus)
      modifies this`members
      ensures Tables() == AfterAddMember(old(Tables()), goalID, userID, status)
    {
      if (goalID, userID) !in members {
        members := members[(goalID, userID) := status];
      } else {
        members := members[(goalID, userID) := if members[(goalID, userID)] == Joined then Joined else status];
      }
    }

    /** Only the owner invites, and only others; someone else who can see the goal is told so, and to
        everybody else there is no such goal. */
    method InviteMember(userID: Id, goalID: Id, invited: Id) returns (error: Option<GoalError>)
      modifies this`members
      ensures error.None? <==> goalID in goals && goals[goalID].userID == userID && invited != userID
      ensures error == Some(CannotInviteSelf) <==> goalID in goals && goals[goalID].userID == userID == invited
      ensures error == Some(NotAuthorized) <==>
        && goalID in goals && goals[goalID].userID != userID
        && (goalID, userID) in old(members) && old(members)[(goalID, userID)] != Rejected
      ensures error.Some? ==>
        && members == old(members)
        && (error.value == NotAuthorized || error.value == CannotInviteSelf || error.value == NotFound)
      ensures error.None? ==>
        members == old(members)[(goalID, invited) :=
                     if (goalID, invited) in old(members) && old(members)[(goalID, invited)] == Joined
                     then Joined else Pending]
      ensures Tables() == AfterInvite(old(Tables()), userID, goalID, invited)
    {
      if goalID !in goals {
        return Some(NotFound);
      }
      var owner := goals[goalID].userID;
      if owner != userID && ((goalID, userID) !in members || members[(goalID, userID)] == Rejected) {
        return Some(NotFound);
      }
      if owner != userID {
        return Some(NotAuthorized);
      }
      if invited == userID {
        return Some(CannotInviteSelf);
      }
      AddMember(goalID, invited, Pending);
      return None;
    }

    /** Under the locks of the goal and the membership: writes the answer and, on joining, the member's
        goal wallet; a wallet name already in use undoes the answer too. */
    method RespondInvite(goalID: Id, userID: Id, walletID: Id, status: MemberStatus) returns (error: Option<GoalError>)
      modifies this
      ensures error == RespondError(old(Tables()), goalID, userID, walletID, status)
      ensures Tables() == AfterRespond(old(Tables()), goalID, userID, walletID, status)
    {
      var begun := Tables();
      if goalID !in goals {
        return Some(NotFound);
      }
      if goals[goalID].userID == userID {
        return Some(OwnerCannotRespond);
      }
      if (goalID, userID) !in members {
        return Some(NotFound);
      }
      var current := members[(goalID, userID)];
      if current == Joined {
        return Some(AlreadyJoined);
      }
      if current == Rejected {
        return Some(AlreadyRejected);
      }
      members := members[(goalID, userID) := status];
      if status == Joined {
        var ok := CreateGoalWallet(userID, walletID, goalID, goals[goalID].name);
        if !ok {
          Rollback(begun);
          return Some(ConstraintViolated);
        }
      }
      return None;
    }
  }

  // ---------------------------------------------------------------- whole runs

  datatype Op =
    | Create(userID: Id, goalID: Id, walletID: Id, name: string)
    | Rename(userID: Id, goalID: Id, name: string)
    | Invite(userID: Id, goalID: Id, invited: Id)
    | Respond(goalID: Id, userID: Id, walletID: Id, status: MemberStatus)
    | OpenWallet(userID: Id, walletID: Id, name: string)
    | RenameWallet(userID: Id, walletID: Id, name: string)
    | DeleteWallet(userID: Id, walletID: Id)

  /** Ordinary wallets come and go; goal wallets can be neither renamed nor deleted by their owner. */
  function Apply(st: State, op: Op): State {
    match op
    case Create(userID, goalID, walletID, name) => AfterCreate(st, userID, goalID, walletID, name)
    case Rename(userID, goalID, name) =>
      if goalID in st.goals && st.goals[goalID].userID == userID
      then st.(goals := st.goals[goalID := st.goals[goalID].(name := name)]) else st
    case Invite(userID, goalID, invited) => AfterInvite(st, userID, goalID, invited)
    case Respond(goalID, userID, walletID, status) => AfterRespond(st, goalID, userID, walletID, status)
    case OpenWallet(userID, walletID, name) =>
      if WalletInserts(st, walletID, WalletRow(userID, name, NO_ID))
      then st.(wallets := st.wallets[walletID := WalletRow(userID, name, NO_ID)]) else st
    case RenameWallet(userID, walletID, name) =>
      if walletID in st.wallets && st.wallets[walletID].goalID == NO_ID && st.wallets[walletID].userID == userID
         && !NameTaken(st.wallets, userID, name, walletID)
      then st.(wallets := st.wallets[walletID := st.wallets[walletID].(name := name)]) else st
    case DeleteWallet(userID, walletID) =>
      if walletID in st.wallets && st.wallets[walletID].goalID == NO_ID && st.wallets[walletID].userID == userID
      then st.(wallets := st.wallets - {walletID}) else st
  }

  function Run(st: State, ops: seq<Op>): State {
    if ops == [] then st else Apply(Run(st, ops[..|ops| - 1]), ops[|ops| - 1])
  }

  const EMPTY: State := State(map[], map[], map[])

  predicate IsGoalWallet(wallets: map<Id, WalletRow>, id: Id, goalID: Id, userID: Id) {
    id in wallets && wallets[id].goalID == goalID && wallets[id].userID == userID
  }

  predicate HasGoalWallet(wallets: map<Id, WalletRow>, goalID: Id, userID: Id) {
    exists id :: id in wallets && IsGoalWallet(wallets, id, goalID, userID)
  }

  predicate IsJoined(members: map<(Id, Id), MemberStatus>, goalID: Id, userID: Id) {
    (goalID, userID) in members && members[(goalID, userID)] == Joined
  }

  /** Joined members have a goal wallet. */
  predicate JoinedHave(st: State) {
    forall key :: key in st.members && st.members[key] == Joined ==> HasGoalWallet(st.wallets, key.0, key.1)
  }

  /** Goal wallets belong to joined members. */
  predicate HoldersJoined(st: State) {
    forall id :: id in st.wallets && st.wallets[id].goalID != NO_ID ==>
      IsJoined(st.members, st.wallets[id].goalID, st.wallets[id].userID)
  }

  /** No member has two wallets for one goal. */
  predicate OneWalletEach(wallets: map<Id, WalletRow>) {
    forall a, b :: a in wallets && b in wallets && a != b && wallets[a].goalID != NO_ID ==>
      wallets[a].goalID != wallets[b].goalID || wallets[a].userID != wallets[b].userID
  }

  predicate MembersOk(st: State) {
    && (forall key :: key in st.members ==> key.0 in st.goals && key.0 != NO_ID)
    && (forall goalID :: goalID in st.goals ==> IsJoined(st.members, goalID, st.goals[goalID].userID))
  }

  predicate GoalsOk(st: State) {
    MembersOk(st) && JoinedHave(st) && HoldersJoined(st) && OneWalletEach(st.wallets)
  }

  lemma ApplyKeepsMembers(st: State, op: Op)
    requires MembersOk(st)
    ensures MembersOk(Apply(st, op))
  {
  }

  /** Goal wallets never disappear and never change hands. */
  lemma GoalWalletsStay(st: State, op: Op, goalID: Id, userID: Id)
    requires goalID != NO_ID && HasGoalWallet(st.wallets, goalID, userID)
    ensures HasGoalWallet(Apply(st, op).wallets, goalID, userID)
  {
    var id :| id in st.wallets && IsGoalWallet(st.wallets, id, goalID, userID);
    assert IsGoalWallet(Apply(st, op).wallets, id, goalID, userID);
  }

  /** Whoever joins gets a goal wallet in the same call. */
  lemma JoiningBringsWallet(st: State, op: Op, goalID: Id, userID: Id)
    requires IsJoined(Apply(st, op).members, goalID, userID) && !IsJoined(st.members, goalID, userID)
    ensures HasGoalWallet(Apply(st, op).wallets, goalID, userID)
  {
    assert op.Create? || op.Respond?;
    assert IsGoalWallet(Apply(st, op).wallets, op.walletID, goalID, userID);
  }

  lemma ApplyKeepsJoinedHave(st: State, op: Op)
    requires MembersOk(st) && JoinedHave(st)
    ensures JoinedHave(Apply(st, op))
  {
    var st' := Apply(st, op);
    ApplyKeepsMembers(st, op);
    forall key | key in st'.members && st'.members[key] == Joined ensures HasGoalWallet(st'.wallets, key.0, key.1) {
      if IsJoined(st.members, key.0, key.1) {
        GoalWalletsStay(st, op, key.0, key.1);
      } else {
        JoiningBringsWallet(st, op, key.0, key.1);
      }
    }
  }

  /** Joined is terminal. */
  lemma JoinedStays(st: State, op: Op, goalID: Id, userID: Id)
    requires IsJoined(st.members, goalID, userID)
    ensures IsJoined(Apply(st, op).members, goalID, userID)
  {
  }

  lemma ApplyKeepsHoldersJoined(st: State, op: Op)
    requires HoldersJoined(st)
    ensures HoldersJoined(Apply(st, op))
  {
    var st' := Apply(st, op);
    forall id | id in st'.wallets && st'.wallets[id].goalID != NO_ID
      ensures IsJoined(st'.members, st'.wallets[id].goalID, st'.wallets[id].userID)
    {
      if id in st.wallets && st.wallets[id] == st'.wallets[id] {
        JoinedStays(st, op, st.wallets[id].goalID, st.wallets[id].userID);
      }
    }
  }

  /** A goal wallet is new only for somebody who had not joined before. */
  lemma NewHolderHadNotJoined(st: State, op: Op, id: Id)
    requires MembersOk(st)
    requires id in Apply(st, op).wallets && Apply(st, op).wallets[id].goalID != NO_ID && id !in st.wallets
    ensures !IsJoined(st.members, Apply(st, op).wallets[id].goalID, Apply(st, op).wallets[id].userID)
    ensures Apply(st, op).wallets == st.wallets[id := Apply(st, op).wallets[id]]
  {
  }

  lemma OldWalletsStay(st: State, op: Op, id: Id)
    requires id in Apply(st, op).wallets && id in st.wallets
    ensures Apply(st, op).wallets[id].goalID == st.wallets[id].goalID
    ensures Apply(st, op).wallets[id].userID == st.wallets[id].userID
  {
  }

  lemma ApplyKeepsOneWalletEach(st: State, op: Op)
    requires MembersOk(st) && HoldersJoined(st) && OneWalletEach(st.wallets)
    ensures OneWalletEach(Apply(st, op).wallets)
  {
    var wallets := Apply(st, op).wallets;
    forall a, b | a in wallets && b in wallets && a != b && wallets[a].goalID != NO_ID
      ensures wallets[a].goalID != wallets[b].goalID || wallets[a].userID != wallets[b].userID
    {
      if a !in st.wallets {
        NewHolderHadNotJoined(st, op, a);
      } else if b !in st.wallets {
        OldWalletsStay(st, op, a);
        if wallets[b].goalID != NO_ID {
          NewHolderHadNotJoined(st, op, b);
        }
      } else {
        OldWalletsStay(st, op, a);
        OldWalletsStay(st, op, b);
      }
    }
  }

  lemma {:induction false} RunKeepsGoals(ops: seq<Op>)
    ensures GoalsOk(Run(EMPTY, ops))
  {
    if ops != [] {
      var before, op := Run(EMPTY, ops[..|ops| - 1]), ops[|ops| - 1];
      RunKeepsGoals(ops[..|ops| - 1]);
      ApplyKeepsMembers(before, op);
      ApplyKeepsJoinedHave(before, op);
      ApplyKeepsHoldersJoined(before, op);
      ApplyKeepsOneWalletEach(before, op);
    }
  }

  /** In every reachable state a user has exactly one goal wallet for a goal they have joined, and none
      for any other goal. */
  lemma OneWalletIffJoined(ops: seq<Op>, goalID: Id, userID: Id, a: Id, b: Id)
    requires goalID != NO_ID
    ensures
      var st := Run(EMPTY, ops);
      && (HasGoalWallet(st.wallets, goalID, userID) <==> IsJoined(st.members, goalID, userID))
      && (IsGoalWallet(st.wallets, a, goalID, userID) && IsGoalWallet(st.wallets, b, goalID, userID) ==> a == b)
  {
    RunKeepsGoals(ops);
    var st := Run(EMPTY, ops);
    if IsJoined(st.members, goalID, userID) {
      assert (goalID, userID) in st.members;
    }
    if HasGoalWallet(st.wallets, goalID, userID) {
      var id :| id in st.wallets && IsGoalWallet(st.wallets, id, goalID, userID);
      assert IsJoined(st.members, st.wallets[id].goalID, st.wallets[id].userID);
    }
  }

  lemma {:induction false} RunAppend(st: State, a: seq<Op>, b: seq<Op>)
    ensures Run(st, a + b) == Run(Run(st, a), b)
  {
    if b == [] {
      assert a + b == a;
    } else {
      assert (a + b)[..|a + b| - 1] == a + b[..|b| - 1];
      RunAppend(st, a, b[..|b| - 1]);
    }
  }

  /** Once joined, always joined, with a goal wallet, whatever calls follow. */
  lemma {:induction false} JoinedForever(ops: seq<Op>, later: seq<Op>, goalID: Id, userID: Id)
    requires goalID != NO_ID && IsJoined(Run(EMPTY, ops).members, goalID, userID)
    ensures IsJoined(Run(EMPTY, ops + later).members, goalID, userID)
    ensures HasGoalWallet(Run(EMPTY, ops + later).wallets, goalID, userID)
  {
    RunAppend(EMPTY, ops, later);
    if later == [] {
      OneWalletIffJoined(ops, goalID, userID, NO_ID, NO_ID);
    } else {
      var front := later[..|later| - 1];
      RunAppend(EMPTY, ops, front);
      JoinedForever(ops, front, goalID, userID);
      JoinedStays(Run(EMPTY, ops + front), later[|later| - 1], goalID, userID);
      GoalWalletsStay(Run(EMPTY, ops + front), later[|later| - 1], goalID, userID);
    }
  }

  /** A rejected invitation changes only through a new invitation by the goal's owner, and then it is
      pending: nobody goes from rejected to joined in one call. */
  lemma RejectedNeedsNewInvite(st: State, op: Op, goalID: Id, userID: Id)
    requires MembersOk(st)
    requires (goalID, userID) in st.members && st.members[(goalID, userID)] == Rejected
    ensures
      var members := Apply(st, op).members;
      && (goalID, userID) in members
      && (members[(goalID, userID)] == Rejected
          || (members[(goalID, userID)] == Pending && op == Invite(st.goals[goalID].userID, goalID, userID)))
  {
  }
}
