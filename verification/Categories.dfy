/** The category calls: the checks each makes, in order, and what it writes; and what whole runs of
    calls keep. A call is one step: its checks and its write see the same table. */
module Categories {
  import opened Common
  import opened CategoryForest

  datatype CategoryError =
    | InvalidType | NotFound | ParentTypeMismatch | DepthExceeded | CyclicReference | RepeatedID
    | ConstraintViolated
    | QueryFailed

  datatype CategoryInput = CategoryInput(name: string, kind: string, parentID: Id)

  const MAX_DEPTH: nat := 3

  predicate IsValidType(kind: string) {
    kind == "income" || kind == "expense"
  }

  predicate Owns(t: Table, userID: Id, id: Id) {
    id in t && t[id].userID == userID
  }

  function ParentError(t: Table, userID: Id, kind: string, parentID: Id): Option<CategoryError> {
    if parentID == NO_ID then None
    else if !Owns(t, userID, parentID) then Some(NotFound)
    else if t[parentID].kind != kind then Some(ParentTypeMismatch)
    else None
  }

  ghost function DepthError(t: Table, parentID: Id): Option<CategoryError>
    requires Forest(t)
  {
    if parentID == NO_ID then None
    else if parentID !in t then Some(QueryFailed)
    else if Depth(t, parentID) >= MAX_DEPTH then Some(DepthExceeded)
    else None
  }

  ghost function CycleError(t: Table, id: Id, parentID: Id): Option<CategoryError> {
    if parentID != NO_ID && Reaches(t, parentID, id) then Some(CyclicReference) else None
  }

  predicate NameTaken(t: Table, userID: Id, input: CategoryInput, except: Id) {
    exists id :: id in t && id != except
              && t[id].userID == userID && t[id].name == input.name && t[id].kind == input.kind
  }

  predicate HasChildren(t: Table, id: Id) {
    exists child :: child in t && t[child].parentID == id
  }

  function OrElse(a: Option<CategoryError>, b: Option<CategoryError>): Option<CategoryError> {
    if a.Some? then a else b
  }

  /** The first check that fails decides the error. */
  ghost function CreateError(t: Table, userID: Id, newID: Id, input: CategoryInput): Option<CategoryError>
    requires Forest(t)
  {
    if !IsValidType(input.kind) then Some(InvalidType)
    else OrElse(ParentError(t, userID, input.kind, input.parentID),
         OrElse(DepthError(t, input.parentID),
                if newID in t || newID == NO_ID || NameTaken(t, userID, input, newID)
                then Some(ConstraintViolated) else None))
  }

  ghost function UpdateError(t: Table, userID: Id, id: Id, input: CategoryInput): Option<CategoryError>
    requires Forest(t)
  {
    if !IsValidType(input.kind) then Some(InvalidType)
    else OrElse(CycleError(t, id, input.parentID),
         OrElse(ParentError(t, userID, input.kind, input.parentID),
         OrElse(DepthError(t, input.parentID),
                if !Owns(t, userID, id) then Some(NotFound)
                else if NameTaken(t, userID, input, id) || (input.kind != t[id].kind && HasChildren(t, id))
                then Some(ConstraintViolated) else None)))
  }

  function DeleteError(t: Table, userID: Id, id: Id, referenced: set<Id>): Option<CategoryError> {
    if !Owns(t, userID, id) then Some(NotFound)
    else if HasChildren(t, id) || id in referenced then Some(ConstraintViolated)
    else None
  }

  /** One past the user's last position, or 0. */
  ghost predicate NextPosition(t: Table, userID: Id, position: int) {
    && (forall id :: Owns(t, userID, id) ==> t[id].position < position)
    && (if exists id :: Owns(t, userID, id)
        then exists id :: Owns(t, userID, id) && t[id].position == position - 1
        else position == 0)
  }

  function Added(t: Table, userID: Id, newID: Id, input: CategoryInput, position: int): Table {
    t[newID := CategoryRow(userID, input.parentID, input.name, input.kind, position)]
  }

  function Changed(t: Table, id: Id, input: CategoryInput): Table
    requires id in t
  {
    t[id := t[id].(name := input.name, kind := input.kind, parentID := input.parentID)]
  }

  function IndexOf(ids: seq<Id>, id: Id): (i: nat)
    requires id in ids
    ensures i < |ids| && ids[i] == id
  {
    if ids[0] == id then 0 else 1 + IndexOf(ids[1..], id)
  }

  predicate Repeats(ids: seq<Id>) {
    exists i, j :: 0 <= i < j < |ids| && ids[i] == ids[j]
  }

  /** Every listed category takes its place in the list as its position. */
  function Rearranged(t: Table, userID: Id, ids: seq<Id>): Table {
    map id | id in t :: if id in ids && t[id].userID == userID then t[id].(position := IndexOf(ids, id)) else t[id]
  }

  function ReorderError(t: Table, userID: Id, ids: seq<Id>): Option<CategoryError> {
    if Repeats(ids) then Some(RepeatedID)
    else if exists id :: id in ids && !Owns(t, userID, id) then Some(NotFound)
    else None
  }

  // ---------------------------------------------------------------- calls keep the forest

  lemma FreshIsUnreached(t: Table, id: Id, x: Id)
    requires Referential(t) && id !in t && (x in t || x == NO_ID)
    ensures !Reaches(t, x, id)
  {
  }

  lemma CreateKeepsForest(t: Table, userID: Id, newID: Id, input: CategoryInput, position: int)
    requires Forest(t) && CreateError(t, userID, newID, input).None?
    ensures Forest(Added(t, userID, newID, input, position))
  {
    var t' := Added(t, userID, newID, input, position);
    FreshIsUnreached(t, newID, input.parentID);
    CycleIffReached(t, t', newID);
    forall id | id in t' ensures ParentAllowed(t', t'[id]) {
      assert id != newID ==> ParentAllowed(t, t[id]);
    }
  }

  lemma ChangeKeepsReferential(t: Table, userID: Id, id: Id, input: CategoryInput)
    requires Referential(t) && Owns(t, userID, id)
    requires ParentError(t, userID, input.kind, input.parentID).None? && input.parentID != id
    requires input.kind != t[id].kind ==> !HasChildren(t, id)
    ensures Referential(Changed(t, id, input))
  {
  }

  lemma UpdateKeepsForest(t: Table, userID: Id, id: Id, input: CategoryInput)
    requires Forest(t) && UpdateError(t, userID, id, input).None?
    ensures Forest(Changed(t, id, input))
  {
    SelfIsReached(t, id);
    ChangeKeepsReferential(t, userID, id, input);
    UnrootedIsUnreached(t, id);
    CycleIffReached(t, Changed(t, id, input), id);
  }

  lemma SelfIsReached(t: Table, id: Id)
    requires id != NO_ID
    ensures Reaches(t, id, id)
  {
    assert Up(t, id, 0) == id;
  }

  lemma UnrootedIsUnreached(t: Table, id: Id)
    requires NO_ID !in t
    ensures !Reaches(t, NO_ID, id)
  {
    forall k: nat ensures Up(t, NO_ID, k) == NO_ID {
      UpFromNothing(t, k);
    }
  }

  lemma DeleteKeepsForest(t: Table, id: Id)
    requires Forest(t) && id in t && !HasChildren(t, id)
    ensures Forest(t - {id})
  {
    var t' := t - {id};
    forall x | x in t' ensures ParentAllowed(t', t'[x]) {
      assert ParentAllowed(t, t[x]) && t[x].parentID != id;
    }
    forall x, k: nat | x in t' && k > 0 ensures Up(t', x, k) != x {
      forall j: nat | j < k ensures Up(t', x, j) != id {
        UpStaysInTable(t', x, j);
      }
      SameWalk(t', t, id, x, k);
      assert Up(t, x, k) != x;
    }
  }

  lemma {:induction false} WalksIgnorePositions(t: Table, t': Table, x: Id, k: nat)
    requires t.Keys == t'.Keys && forall id :: id in t ==> t'[id].parentID == t[id].parentID
    ensures Up(t', x, k) == Up(t, x, k)
  {
    if k > 0 {
      WalksIgnorePositions(t, t', x, k - 1);
    }
  }

  lemma ReorderKeepsForest(t: Table, userID: Id, ids: seq<Id>)
    requires Forest(t)
    ensures Forest(Rearranged(t, userID, ids))
    ensures forall id :: id in t ==> Depth(Rearranged(t, userID, ids), id) == Depth(t, id)
  {
    var t' := Rearranged(t, userID, ids);
    forall x, k: nat ensures Up(t', x, k) == Up(t, x, k) {
      WalksIgnorePositions(t, t', x, k);
    }
    forall id | id in t' ensures ParentAllowed(t', t'[id]) {
      assert ParentAllowed(t, t[id]);
    }
    forall id | id in t ensures Depth(t', id) == Depth(t, id) {
      DepthIs(t', id, Depth(t, id));
    }
  }

  // ---------------------------------------------------------------- three levels

  ghost predicate Shallow(t: Table)
    requires Forest(t)
  {
    forall id :: id in t ==> Depth(t, id) <= MAX_DEPTH
  }

  lemma CreateStaysShallow(t: Table, userID: Id, newID: Id, input: CategoryInput, position: int)
    requires Forest(t) && CreateError(t, userID, newID, input).None? && Shallow(t)
    ensures Forest(Added(t, userID, newID, input, position)) && Shallow(Added(t, userID, newID, input, position))
  {
    var t' := Added(t, userID, newID, input, position);
    CreateKeepsForest(t, userID, newID, input, position);
    forall id | id in t ensures Depth(t', id) == Depth(t, id) {
      FreshIsUnreached(t, newID, id);
      DepthUnchanged(t, t', newID, id);
    }
    FreshIsUnreached(t, newID, input.parentID);
    DepthUnchanged(t, t', newID, input.parentID);
    DepthBelow(t', newID);
    DepthIs(t, NO_ID, 0);
  }

  /** A move puts the category itself within three levels, and carries everything below it along: a
      category r levels below it ends up r levels deeper than it. */
  lemma MoveShiftsSubtree(t: Table, userID: Id, id: Id, input: CategoryInput, x: Id, r: nat)
    requires Forest(t) && UpdateError(t, userID, id, input).None?
    requires x in t && Up(t, x, r) == id
    ensures Forest(Changed(t, id, input))
    ensures
      var t' := Changed(t, id, input);
      && Depth(t', id) == 1 + Depth(t, input.parentID) <= MAX_DEPTH
      && Depth(t', x) == r + Depth(t', id)
      && Depth(t', x) - Depth(t, x) == Depth(t', id) - Depth(t, id)
  {
    UpdateKeepsForest(t, userID, id, input);
    DepthAfterMove(t, Changed(t, id, input), id, x, r);
    DepthIs(t, NO_ID, 0);
  }

  /** Nothing below id lies more than the given number of levels below it. */
  ghost predicate HeightWithin(t: Table, id: Id, levels: int) {
    forall x, r: nat :: x in t && Up(t, x, r) == id ==> r <= levels
  }

  /** A move keeps the whole forest within three levels exactly when the moved subtree fits below its
      new parent; the check made before the write looks only at the parent. */
  lemma ShallowAfterMoveIff(t: Table, userID: Id, id: Id, input: CategoryInput)
    requires Forest(t) && UpdateError(t, userID, id, input).None? && Shallow(t)
    ensures Forest(Changed(t, id, input))
    ensures Shallow(Changed(t, id, input)) <==> HeightWithin(t, id, MAX_DEPTH - 1 - Depth(t, input.parentID))
  {
    var t' := Changed(t, id, input);
    UpdateKeepsForest(t, userID, id, input);
    var levels := MAX_DEPTH - 1 - Depth(t, input.parentID);
    if HeightWithin(t, id, levels) {
      forall x | x in t' ensures Depth(t', x) <= MAX_DEPTH {
        if Reaches(t, x, id) {
          var r: nat :| Up(t, x, r) == id;
          MoveShiftsSubtree(t, userID, id, input, x, r);
        } else {
          DepthUnchanged(t, t', id, x);
        }
      }
    } else {
      var x, r: nat :| x in t && Up(t, x, r) == id && r > levels;
      MoveShiftsSubtree(t, userID, id, input, x, r);
      assert x in t';
    }
  }

  /** Two chains of roots a and b, with c below b and d below c; b is moved under a. */
  function FourLevels(): Table {
    map["a" := CategoryRow("u", NO_ID, "a", "expense", 0),
        "b" := CategoryRow("u", NO_ID, "b", "expense", 1),
        "c" := CategoryRow("u", "b", "c", "expense", 2),
        "d" := CategoryRow("u", "c", "d", "expense", 3)]
  }

  lemma {:induction false} FourLevelsWalks()
    ensures Forest(FourLevels())
    ensures Depth(FourLevels(), "a") == 1 && Depth(FourLevels(), "b") == 1
    ensures Depth(FourLevels(), "c") == 2 && Depth(FourLevels(), "d") == 3
    ensures Up(FourLevels(), "d", 2) == "b" && !Reaches(FourLevels(), "a", "b")
  {
    var t := FourLevels();
    assert Up(t, "a", 1) == NO_ID && Up(t, "b", 1) == NO_ID;
    assert Up(t, "c", 1) == "b" && Up(t, "c", 2) == NO_ID;
    assert Up(t, "d", 1) == "c" && Up(t, "d", 2) == "b" && Up(t, "d", 3) == NO_ID;
    forall k: nat ensures k >= 3 ==> Up(t, "a", k) == Up(t, "b", k) == Up(t, "c", k) == Up(t, "d", k) == NO_ID {
      if k >= 3 {
        NothingAbove(t, "a", 1, k);
        NothingAbove(t, "b", 1, k);
        NothingAbove(t, "c", 2, k);
        NothingAbove(t, "d", 3, k);
      }
    }
    forall id, k: nat | id in t && k > 0 ensures Up(t, id, k) != id {
      assert k == 1 || k == 2 || k >= 3;
    }
    DepthIs(t, "a", 1);
    DepthIs(t, "b", 1);
    DepthIs(t, "c", 2);
    DepthIs(t, "d", 3);
    forall k: nat ensures Up(t, "a", k) != "b" {
      assert k == 0 || k == 1 || k == 2 || k >= 3;
    }
  }

  /** The documented limit of three levels does not survive a move: an accepted one makes four. */
  lemma MoveCanMakeFourLevels()
    ensures
      var t, input := FourLevels(), CategoryInput("b", "expense", "a");
      && Forest(t) && Shallow(t) && UpdateError(t, "u", "b", input).None?
      && Forest(Changed(t, "b", input)) && Depth(Changed(t, "b", input), "d") == 4
  {
    var t, input := FourLevels(), CategoryInput("b", "expense", "a");
    FourLevelsWalks();
    assert UpdateError(t, "u", "b", input).None?;
    MoveShiftsSubtree(t, "u", "b", input, "d", 2);
  }

  // ---------------------------------------------------------------- whole runs

  datatype Op =
    | Create(userID: Id, id: Id, input: CategoryInput, position: int)
    | Update(userID: Id, id: Id, input: CategoryInput)
    | Delete(userID: Id, id: Id, referenced: set<Id>)
    | Reorder(userID: Id, ids: seq<Id>)

  /** A call that fails a check or a constraint changes nothing. */
  ghost function Apply(t: Table, op: Op): (t': Table)
    requires Forest(t)
    ensures Forest(t')
  {
    match op
    case Create(userID, id, input, position) =>
      if CreateError(t, userID, id, input).Some? then t
      else CreateKeepsForest(t, userID, id, input, position); Added(t, userID, id, input, position)
    case Update(userID, id, input) =>
      if UpdateError(t, userID, id, input).Some? then t
      else UpdateKeepsForest(t, userID, id, input); Changed(t, id, input)
    case Delete(userID, id, referenced) =>
      if DeleteError(t, userID, id, referenced).Some? then t
      else DeleteKeepsForest(t, id); t - {id}
    case Reorder(userID, ids) =>
      if ReorderError(t, userID, ids).Some? then t
      else ReorderKeepsForest(t, userID, ids); Rearranged(t, userID, ids)
  }

  /** Every reachable hierarchy is a forest of same-owner, same-type trees. */
  ghost function Run(ops: seq<Op>): (t: Table)
    ensures Forest(t)
  {
    if ops == [] then map[] else Apply(Run(ops[..|ops| - 1]), ops[|ops| - 1])
  }

  lemma ApplyStaysShallow(t: Table, op: Op)
    requires Forest(t) && Shallow(t) && !op.Update?
    ensures Shallow(Apply(t, op))
  {
    match op
    case Create(userID, id, input, position) =>
      if CreateError(t, userID, id, input).None? {
        CreateStaysShallow(t, userID, id, input, position);
      }
    case Delete(userID, id, referenced) =>
      if DeleteError(t, userID, id, referenced).None? {
        DeleteStaysShallow(t, id);
      }
    case Reorder(userID, ids) =>
      ReorderKeepsForest(t, userID, ids);
  }

  lemma DeleteStaysShallow(t: Table, id: Id)
    requires Forest(t) && Shallow(t) && id in t && !HasChildren(t, id)
    ensures Forest(t - {id}) && Shallow(t - {id})
  {
    var t' := t - {id};
    DeleteKeepsForest(t, id);
    forall x | x in t' ensures Depth(t', x) <= MAX_DEPTH {
      FreshIsUnreached(t', id, x);
      DepthUnchanged(t', t, id, x);
    }
  }

  /** Without moves no category is ever deeper than three levels. */
  lemma {:induction false} RunWithoutMovesIsShallow(ops: seq<Op>)
    requires forall i :: 0 <= i < |ops| ==> !ops[i].Update?
    ensures Shallow(Run(ops))
  {
    if ops != [] {
      RunWithoutMovesIsShallow(ops[..|ops| - 1]);
      ApplyStaysShallow(Run(ops[..|ops| - 1]), ops[|ops| - 1]);
    }
  }
}
