/** Moves of categories whose checks and writes are separate statements, so that other calls come in
    between: when the hierarchy stays a forest. */
module CategoryOverlap {
  import opened Common
  import opened CategoryForest
  import opened Categories

  type Sid = nat

  /** A move that has passed its checks and is about to write. */
  datatype Move = Move(userID: Id, id: Id, input: CategoryInput)

  datatype System = System(t: Table, moves: map<Sid, Move>)

  /** What other calls write, each in one statement that the table's constraints admit, and the two
      statements of a move. The depth check only ever refuses more; its answer is a parameter. */
  datatype Step =
    | Insert(id: Id, userID: Id, input: CategoryInput, position: int)
    | Remove(id: Id)
    | Arrange(userID: Id, ids: seq<Id>)
    | CheckMove(sid: Sid, move: Move, shallow: bool)
    | WriteMove(sid: Sid)

  /** The checks of a move, made on the table as it is read. */
  ghost predicate Passes(t: Table, move: Move) {
    && CycleError(t, move.id, move.input.parentID).None?
    && ParentError(t, move.userID, move.input.kind, move.input.parentID).None?
  }

  /** What the table itself demands of the written row: its owner, a parent of the same owner and type,
      children of its own type. */
  predicate Admits(t: Table, move: Move) {
    && Owns(t, move.userID, move.id)
    && ParentError(t, move.userID, move.input.kind, move.input.parentID).None?
    && (move.input.kind != t[move.id].kind ==> !HasChildren(t, move.id) && move.input.parentID != move.id)
  }

  ghost function Exec(sys: System, step: Step): System {
    match step
    case Insert(id, userID, input, position) =>
      if id in sys.t || id == NO_ID || ParentError(sys.t, userID, input.kind, input.parentID).Some? then sys
      else sys.(t := Added(sys.t, userID, id, input, position))
    case Remove(id) => if id in sys.t && !HasChildren(sys.t, id) then sys.(t := sys.t - {id}) else sys
    case Arrange(userID, ids) => sys.(t := Rearranged(sys.t, userID, ids))
    case CheckMove(sid, move, shallow) =>
      if Passes(sys.t, move) && shallow then sys.(moves := sys.moves[sid := move]) else sys
    case WriteMove(sid) =>
      if sid !in sys.moves then sys
      else
        var move, rest := sys.moves[sid], sys.moves - {sid};
        System(if Admits(sys.t, move) then Changed(sys.t, move.id, move.input) else sys.t, rest)
  }

  ghost function ExecAll(sys: System, steps: seq<Step>): System {
    if steps == [] then sys else Exec(ExecAll(sys, steps[..|steps| - 1]), steps[|steps| - 1])
  }

  const START: System := System(map[], map[])

  // ---------------------------------------------------------------- whole runs

  lemma InsertKeepsReferential(t: Table, userID: Id, id: Id, input: CategoryInput, position: int)
    requires Referential(t) && id !in t && id != NO_ID
    requires ParentError(t, userID, input.kind, input.parentID).None?
    ensures Referential(Added(t, userID, id, input, position))
  {
    var t' := Added(t, userID, id, input, position);
    forall x | x in t' ensures ParentAllowed(t', t'[x]) {
      assert x != id ==> ParentAllowed(t, t[x]);
    }
  }

  lemma MoveKeepsReferential(t: Table, move: Move)
    requires Referential(t) && Admits(t, move)
    ensures Referential(Changed(t, move.id, move.input))
  {
    var t' := Changed(t, move.id, move.input);
    forall x | x in t' ensures ParentAllowed(t', t'[x]) {
      assert x != move.id ==> ParentAllowed(t, t[x]);
    }
  }

  /** References stay in order in every interleaving: the constraints see to that. */
  lemma StepKeepsReferential(sys: System, step: Step)
    requires Referential(sys.t)
    ensures Referential(Exec(sys, step).t)
  {
    match step
    case Insert(id, userID, input, position) =>
      if id !in sys.t && id != NO_ID && ParentError(sys.t, userID, input.kind, input.parentID).None? {
        InsertKeepsReferential(sys.t, userID, id, input, position);
      }
    case Remove(id) =>
      forall x | x in sys.t ensures ParentAllowed(sys.t, sys.t[x]) {}
    case Arrange(userID, ids) =>
      forall x | x in sys.t ensures ParentAllowed(sys.t, sys.t[x]) {}
    case CheckMove(_, _, _) =>
    case WriteMove(sid) =>
      if sid in sys.moves && Admits(sys.t, sys.moves[sid]) {
        MoveKeepsReferential(sys.t, sys.moves[sid]);
      }
  }

  /** The write comes while its category is still not on the walk from its new parent. */
  ghost predicate InTime(sys: System, step: Step) {
    step.WriteMove? && step.sid in sys.moves && Admits(sys.t, sys.moves[step.sid]) ==>
      !Reaches(sys.t, sys.moves[step.sid].input.parentID, sys.moves[step.sid].id)
  }

  lemma StepKeepsForestIff(sys: System, step: Step)
    requires Forest(sys.t)
    ensures Forest(Exec(sys, step).t) <==> InTime(sys, step)
  {
    StepKeepsReferential(sys, step);
    match step
    case Insert(id, userID, input, position) =>
      if Exec(sys, step) != sys {
        FreshIsUnreached(sys.t, id, input.parentID);
        CycleIffReached(sys.t, Added(sys.t, userID, id, input, position), id);
      }
    case Remove(id) =>
      if id in sys.t && !HasChildren(sys.t, id) {
        DeleteKeepsForest(sys.t, id);
      }
    case Arrange(userID, ids) => ReorderKeepsForest(sys.t, userID, ids);
    case CheckMove(_, _, _) =>
    case WriteMove(sid) =>
      if sid in sys.moves && Admits(sys.t, sys.moves[sid]) {
        CycleIffReached(sys.t, Changed(sys.t, sys.moves[sid].id, sys.moves[sid].input), sys.moves[sid].id);
      }
  }

  ghost predicate ForestThroughout(sys: System, steps: seq<Step>) {
    Forest(ExecAll(sys, steps).t) && (steps != [] ==> ForestThroughout(sys, steps[..|steps| - 1]))
  }

  ghost predicate AllInTime(sys: System, steps: seq<Step>) {
    steps != [] ==>
      AllInTime(sys, steps[..|steps| - 1]) && InTime(ExecAll(sys, steps[..|steps| - 1]), steps[|steps| - 1])
  }

  /** In a run whose calls overlap, the hierarchy is a forest all the way exactly when every move writes
      while its category is still not on the walk from its new parent. */
  lemma {:induction false} ForestIffInTime(steps: seq<Step>)
    ensures ForestThroughout(START, steps) <==> AllInTime(START, steps)
  {
    if steps != [] {
      var front := steps[..|steps| - 1];
      ForestIffInTime(front);
      if ForestThroughout(START, front) {
        StepKeepsForestIff(ExecAll(START, front), steps[|steps| - 1]);
      }
    }
  }

  // ---------------------------------------------------------------- two moves checked on one table

  /** A walk that never meets the changed category stays the same. */
  lemma SameWalks(t: Table, t': Table, id: Id, x: Id, k: nat)
    requires SameParents(t, t', id) && id != NO_ID && !Reaches(t, x, id)
    ensures Up(t', x, k) == Up(t, x, k)
  {
    SameWalk(t, t', id, x, k);
  }

  /** A walk that meets the moved category goes on from its new parent. */
  lemma WalkThroughMove(t: Table, t': Table, id: Id, x: Id) returns (m: nat)
    requires SameParents(t, t', id) && id in t' && id != NO_ID
    requires !Reaches(t, t'[id].parentID, id) && Reaches(t, x, id)
    ensures forall j: nat :: j <= m ==> Up(t', x, j) == Up(t, x, j)
    ensures forall j: nat :: Up(t', x, m + 1 + j) == Up(t, t'[id].parentID, j)
  {
    var parentID := t'[id].parentID;
    var k: nat :| Up(t, x, k) == id;
    m := FirstVisit(t, x, id, k);
    forall j: nat | j <= m ensures Up(t', x, j) == Up(t, x, j) {
      SameWalk(t, t', id, x, j);
    }
    forall j: nat ensures Up(t', x, m + 1 + j) == Up(t, parentID, j) {
      UpInTwoParts(t', x, m + 1, j);
      SameWalks(t, t', id, parentID, j);
    }
  }

  /** Once id hangs below parentID, the walk from x, which did not meet other before, meets it exactly
      when it met id and the walk from parentID meets other. */
  lemma ReachedAfterMove(t: Table, t': Table, id: Id, x: Id, other: Id)
    requires SameParents(t, t', id) && id in t' && id != NO_ID && other != id
    requires !Reaches(t, t'[id].parentID, id) && !Reaches(t, x, other)
    ensures Reaches(t', x, other) <==> Reaches(t, x, id) && Reaches(t, t'[id].parentID, other)
  {
    if Reaches(t, x, id) {
      var m := WalkThroughMove(t, t', id, x);
      if Reaches(t, t'[id].parentID, other) {
        var j: nat :| Up(t, t'[id].parentID, j) == other;
        assert Up(t', x, m + 1 + j) == other;
      }
      if Reaches(t', x, other) {
        var n: nat :| Up(t', x, n) == other;
        assert n > m;
        var j: nat := n - m - 1;
        assert Up(t', x, m + 1 + j) == Up(t, t'[id].parentID, j);
      }
    } else if Reaches(t', x, other) {
      var n: nat :| Up(t', x, n) == other;
      SameWalks(t, t', id, x, n);
    }
  }

  /** Two moves of different categories, both checked on the same forest and then both written, close a
      cycle exactly when the walk from each new parent meets the other moved category. */
  lemma OverlappingMovesIff(t: Table, a: Move, b: Move)
    requires Forest(t) && a.id in t && b.id in t && a.id != b.id && Passes(t, a) && Passes(t, b)
    ensures
      !Acyclic(Changed(Changed(t, a.id, a.input), b.id, b.input))
      <==> Reaches(t, a.input.parentID, b.id) && Reaches(t, b.input.parentID, a.id)
  {
    UnrootedIsUnreached(t, a.id);
    UnrootedIsUnreached(t, b.id);
    var mid := Changed(t, a.id, a.input);
    CycleIffReached(t, mid, a.id);
    CycleIffReached(mid, Changed(mid, b.id, b.input), b.id);
    ReachedAfterMove(t, mid, a.id, b.input.parentID, b.id);
  }

  /** Two overlapping moves of one category leave no cycle: the later one stands. */
  lemma SameCategoryMoves(t: Table, a: Move, b: Move)
    requires Forest(t) && a.id in t && a.id == b.id && Passes(t, b)
    ensures Acyclic(Changed(Changed(t, a.id, a.input), b.id, b.input))
  {
    UnrootedIsUnreached(t, b.id);
    CycleIffReached(t, Changed(Changed(t, a.id, a.input), b.id, b.input), b.id);
  }

  function TwoRoots(): Table {
    map["a" := CategoryRow("u", NO_ID, "a", "expense", 0), "b" := CategoryRow("u", NO_ID, "b", "expense", 1)]
  }

  lemma {:induction false} TwoRootsWalks()
    ensures Forest(TwoRoots()) && Depth(TwoRoots(), "a") == 1 && Depth(TwoRoots(), "b") == 1
    ensures !Reaches(TwoRoots(), "a", "b") && !Reaches(TwoRoots(), "b", "a")
  {
    var t := TwoRoots();
    assert Up(t, "a", 1) == NO_ID && Up(t, "b", 1) == NO_ID;
    forall k: nat ensures k >= 1 ==> Up(t, "a", k) == Up(t, "b", k) == NO_ID {
      if k >= 1 {
        NothingAbove(t, "a", 1, k);
        NothingAbove(t, "b", 1, k);
      }
    }
    DepthIs(t, "a", 1);
    DepthIs(t, "b", 1);
    forall k: nat ensures Up(t, "a", k) != "b" && Up(t, "b", k) != "a" {
      assert k == 0 || k >= 1;
    }
  }

  /** The input: of two roots each is moved under the other. Each move on its own is accepted, and the
      two, checked before either is written, close a cycle that every constraint admits. */
  lemma {:induction false} OverlappingMovesCanClose()
    ensures
      var t := TwoRoots();
      var a := Move("u", "a", CategoryInput("a", "expense", "b"));
      var b := Move("u", "b", CategoryInput("b", "expense", "a"));
      var mid := Changed(t, "a", a.input);
      && Forest(t) && UpdateError(t, "u", "a", a.input).None? && UpdateError(t, "u", "b", b.input).None?
      && Admits(t, a) && Admits(mid, b)
      && !Acyclic(Changed(mid, "b", b.input))
  {
    var t := TwoRoots();
    var a := Move("u", "a", CategoryInput("a", "expense", "b"));
    var b := Move("u", "b", CategoryInput("b", "expense", "a"));
    TwoRootsWalks();
    assert UpdateError(t, "u", "a", a.input).None?;
    assert UpdateError(t, "u", "b", b.input).None?;
    SelfIsReached(t, "a");
    SelfIsReached(t, "b");
    OverlappingMovesIff(t, a, b);
  }
}
