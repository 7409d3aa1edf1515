/** The category table and the calls on it: recursive queries as loops over the chain of parents, and
    the reorder request with its duplicate check. */
module CategoryRepository {
  import opened Common
  import opened CategoryForest
  import opened Categories

  lemma MissingReachesNothing(t: Table, x: Id, id: Id)
    requires NO_ID !in t && x !in t && x != id
    ensures !Reaches(t, x, id)
  {
    forall k: nat ensures id == NO_ID || Up(t, x, k) != id {
      if k > 0 {
        assert Up(t, x, 1) == NO_ID;
        NothingAbove(t, x, 1, k);
      }
    }
  }

  /** What a walk meets at all it meets before its end. */
  lemma ReachedWithinDepth(t: Table, x: Id, id: Id)
    requires Forest(t) && x in t
    ensures Reaches(t, x, id) <==> VisitedWithin(t, x, Depth(t, x), id)
  {
    if Reaches(t, x, id) {
      var k: nat :| Up(t, x, k) == id;
      NothingAbove(t, x, Depth(t, x), if k < Depth(t, x) then Depth(t, x) else k);
      assert k < Depth(t, x);
    }
  }

  class CategoryRepository {
    var categories: Table

    /** Categories that transactions, rules and plans refer to. */
    var referenced: set<Id>

    constructor (table: Table, inUse: set<Id>)
      ensures categories == table && referenced == inUse
    {
      categories, referenced := table, inUse;
    }

    ghost predicate Valid()
      reads this
    {
      Forest(categories)
    }

    /** Counts the rows of the chain from the parent up. */
    method CheckDepth(parentID: Id) returns (error: Option<CategoryError>)
      requires Valid()
      ensures error == DepthError(categories, parentID)
    {
      if parentID == NO_ID {
        return None;
      }
      if parentID !in categories {
        return Some(QueryFailed);
      }
      var row, depth := parentID, 0;
      while row != NO_ID
        invariant 0 <= depth <= Depth(categories, parentID)
        invariant row == Up(categories, parentID, depth)
        invariant row == NO_ID ==> depth == Depth(categories, parentID)
        decreases Depth(categories, parentID) - depth
      {
        UpStaysInTable(categories, parentID, depth);
        depth := depth + 1;
        row := categories[row].parentID;
      }
      return if depth >= 3 then Some(DepthExceeded) else None;
    }

    /** Looks for the category among the rows of the chain from its would-be parent up. */
    method CheckCycle(categoryID: Id, newParentID: Id) returns (error: Option<CategoryError>)
      requires Valid()
      ensures error == CycleError(categories, categoryID, newParentID)
    {
      if newParentID == NO_ID {
        return None;
      }
      if categoryID == newParentID {
        SelfIsReached(categories, categoryID);
        return Some(CyclicReference);
      }
      if newParentID !in categories {
        MissingReachesNothing(categories, newParentID, categoryID);
        return None;
      }
      var row, hasCycle := newParentID, false;
      ghost var steps: nat := 0;
      while row != NO_ID
        invariant steps <= Depth(categories, newParentID)
        invariant row == Up(categories, newParentID, steps)
        invariant row == NO_ID ==> steps == Depth(categories, newParentID)
        invariant hasCycle <==> VisitedWithin(categories, newParentID, steps, categoryID)
        decreases Depth(categories, newParentID) - steps
      {
        UpStaysInTable(categories, newParentID, steps);
        if row == categoryID {
          hasCycle := true;
        }
        steps := steps + 1;
        row := categories[row].parentID;
      }
      ReachedWithinDepth(categories, newParentID, categoryID);
      return if hasCycle then Some(CyclicReference) else None;
    }

    method Create(userID: Id, newID: Id, input: CategoryInput) returns (error: Option<CategoryError>)
      requires Valid()
      modifies this`categories
      ensures Valid()
      ensures error == CreateError(old(categories), userID, newID, input)
      ensures error.Some? ==> categories == old(categories)
      ensures error.None? ==>
        exists position ::
          NextPosition(old(categories), userID, position)
          && categories == Added(old(categories), userID, newID, input, position)
    {
      if !IsValidType(input.kind) {
        return Some(InvalidType);
      }
      error := ParentError(categories, userID, input.kind, input.parentID);
      if error.Some? {
        return;
      }
      error := CheckDepth(input.parentID);
      if error.Some? {
        return;
      }
      if newID in categories || newID == NO_ID || NameTaken(categories, userID, input, newID) {
        return Some(ConstraintViolated);
      }
      var position := AppendPosition(userID);
      CreateKeepsForest(categories, userID, newID, input, position);
      categories := Added(categories, userID, newID, input, position);
    }

    method AppendPosition(userID: Id) returns (position: int)
      ensures NextPosition(categories, userID, position)
    {
      var rest := set id | id in categories && Owns(categories, userID, id);
      ghost var all := rest;
      var empty := true;
      position := 0;
      while rest != {}
        invariant rest <= all && (empty <==> rest == all)
        invariant forall id :: id in all - rest ==> categories[id].position < position
        invariant if empty then position == 0 else exists id :: id in all && categories[id].position == position - 1
        decreases |rest|
      {
        var id :| id in rest;
        if empty || categories[id].position >= position {
          position := categories[id].position + 1;
        }
        empty := false;
        rest := rest - {id};
      }
      assert forall id :: Owns(categories, userID, id) <==> id in all;
    }

    method Update(userID: Id, id: Id, input: CategoryInput) returns (error: Option<CategoryError>)
      requires Valid()
      modifies this`categories
      ensures Valid()
      ensures error == UpdateError(old(categories), userID, id, input)
      ensures categories == if error.None? then Changed(old(categories), id, input) else old(categories)
    {
      if !IsValidType(input.kind) {
        return Some(InvalidType);
      }
      error := CheckCycle(id, input.parentID);
      if error.Some? {
        return;
      }
      error := ParentError(categories, userID, input.kind, input.parentID);
      if error.Some? {
        return;
      }
      error := CheckDepth(input.parentID);
      if error.Some? {
        return;
      }
      if !Owns(categories, userID, id) {
        return Some(NotFound);
      }
      if NameTaken(categories, userID, input, id)
         || (input.kind != categories[id].kind && HasChildren(categories, id))
      {
        return Some(ConstraintViolated);
      }
      UpdateKeepsForest(categories, userID, id, input);
      categories := Changed(categories, id, input);
    }

    method Delete(userID: Id, id: Id) returns (error: Option<CategoryError>)
      requires Valid()
      modifies this`categories
      ensures Valid()
      ensures error == DeleteError(old(categories), userID, id, referenced)
      ensures categories == if error.None? then old(categories) - {id} else old(categories)
    {
      if !Owns(categories, userID, id) {
        return Some(NotFound);
      }
      if HasChildren(categories, id) || id in referenced {
        return Some(ConstraintViolated);
      }
      DeleteKeepsForest(categories, id);
      categories := categories - {id};
      return None;
    }

    /** Refuses a repeated id, then writes every position in one statement and rolls back unless it
        touched as many rows as ids were given. */
    method Reorder(userID: Id, ids: seq<Id>) returns (error: Option<CategoryError>)
      requires Valid()
      modifies this`categories
      ensures Valid()
      ensures error == ReorderError(old(categories), userID, ids)
      ensures categories == if error.None? then Rearranged(old(categories), userID, ids) else old(categories)
    {
      var seen := {};
      for i := 0 to |ids|
        invariant seen == set k | 0 <= k < i :: ids[k]
        invariant forall j, k :: 0 <= j < k < i ==> ids[j] != ids[k]
      {
        if ids[i] in seen {
          return Some(RepeatedID);
        }
        seen := seen + {ids[i]};
      }
      var touched := set id | id in ids && Owns(categories, userID, id);
      DistinctCount(ids, touched);
      if |touched| != |ids| {
        var missing :| missing in ids && missing !in touched;
        return Some(NotFound);
      }
      ReorderKeepsForest(categories, userID, ids);
      categories := Rearranged(categories, userID, ids);
      return None;
    }
  }
}
