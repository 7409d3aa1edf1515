/** The category hierarchy as a parent relation: walks towards the root, cycles and depths, and what
    adding or moving a node does to them. */
module CategoryForest {
  import opened Common

  datatype CategoryRow = CategoryRow(userID: Id, parentID: Id, name: string, kind: string, position: int)

  type Table = map<Id, CategoryRow>

  /** The k-th step of the walk towards the root; NO_ID once the walk has left the table. */
  function Up(t: Table, id: Id, k: nat): Id {
    if k == 0 then id
    else
      var below := Up(t, id, k - 1);
      if below in t then t[below].parentID else NO_ID
  }

  /** No walk comes back to where it started. */
  ghost predicate Acyclic(t: Table) {
    forall id, k: nat :: id in t && k > 0 ==> Up(t, id, k) != id
  }

  /** The foreign key of the parent reference: same owner, same type. */
  predicate ParentAllowed(t: Table, category: CategoryRow) {
    category.parentID == NO_ID
    || (&& category.parentID in t
        && t[category.parentID].userID == category.userID
        && t[category.parentID].kind == category.kind)
  }

  predicate Referential(t: Table) {
    NO_ID !in t && forall id :: id in t ==> ParentAllowed(t, t[id])
  }

  ghost predicate Forest(t: Table) {
    Referential(t) && Acyclic(t)
  }

  // ---------------------------------------------------------------- walks

  lemma {:induction false} UpFromNothing(t: Table, k: nat)
    requires NO_ID !in t
    ensures Up(t, NO_ID, k) == NO_ID
  {
    if k > 0 {
      UpFromNothing(t, k - 1);
    }
  }

  lemma {:induction false} UpInTwoParts(t: Table, id: Id, i: nat, j: nat)
    ensures Up(t, id, i + j) == Up(t, Up(t, id, i), j)
  {
    if j > 0 {
      UpInTwoParts(t, id, i, j - 1);
    }
  }

  /** Once a walk has left the table it does not return. */
  lemma NothingAbove(t: Table, id: Id, j: nat, k: nat)
    requires NO_ID !in t && j <= k
    ensures Up(t, id, j) == NO_ID ==> Up(t, id, k) == NO_ID
  {
  }

  lemma {:induction false} UpStaysInTable(t: Table, id: Id, k: nat)
    requires Referential(t) && (id in t || id == NO_ID)
    ensures Up(t, id, k) in t || Up(t, id, k) == NO_ID
  {
  }

  /** In a forest no walk visits a category twice. */
  lemma UpDistinct(t: Table, id: Id, i: nat, j: nat)
    requires Acyclic(t) && i < j && Up(t, id, i) in t
    ensures Up(t, id, i) != Up(t, id, j)
  {
    UpInTwoParts(t, id, i, j - i);
    var k: nat := j - i;
    assert Up(t, Up(t, id, i), k) != Up(t, id, i);
  }

  ghost predicate VisitedWithin(t: Table, id: Id, k: nat, x: Id) {
    exists i: nat :: i < k && Up(t, id, i) == x
  }

  /** The first k categories of a walk, which are all different, are no more than the table holds. */
  lemma {:induction false} WalkIsShort(t: Table, id: Id, k: nat) returns (visited: set<Id>)
    requires Acyclic(t) && forall i: nat :: i < k ==> Up(t, id, i) in t
    ensures visited <= t.Keys && |visited| == k
    ensures forall x :: x in visited ==> VisitedWithin(t, id, k, x)
  {
    visited := {};
    if k > 0 {
      var before := WalkIsShort(t, id, k - 1);
      var last := Up(t, id, k - 1);
      forall x | x in before ensures x != last && VisitedWithin(t, id, k, x) {
        var i: nat :| i < k - 1 && Up(t, id, i) == x;
        UpDistinct(t, id, i, k - 1);
      }
      visited := before + {last};
    }
  }

  /** Every walk in a forest ends within as many steps as there are categories: the recursive queries
      terminate. */
  lemma WalkEnds(t: Table, id: Id)
    requires Forest(t) && (id in t || id == NO_ID)
    ensures exists k: nat :: k <= |t| && Up(t, id, k) == NO_ID
  {
    if forall i: nat :: i <= |t| ==> Up(t, id, i) != NO_ID {
      forall i: nat | i < |t| + 1 ensures Up(t, id, i) in t {
        UpStaysInTable(t, id, i);
      }
      var visited := WalkIsShort(t, id, |t| + 1);
      SubsetSize(visited, t.Keys);
    }
  }

  lemma {:induction false} SubsetSize<T>(a: set<T>, b: set<T>)
    requires a <= b
    ensures |a| <= |b|
  {
    if a != {} {
      var x :| x in a;
      SubsetSize(a - {x}, b - {x});
    }
  }

  // ---------------------------------------------------------------- depth

  /** The walk from id has exactly d categories. */
  ghost predicate HasDepth(t: Table, id: Id, d: nat) {
    Up(t, id, d) == NO_ID && forall j: nat :: j < d ==> Up(t, id, j) != NO_ID
  }

  lemma {:induction false} FirstEnd(t: Table, id: Id, k: nat) returns (d: nat)
    requires Up(t, id, k) == NO_ID
    ensures d <= k && HasDepth(t, id, d)
  {
    if j: nat :| j < k && Up(t, id, j) == NO_ID {
      d := FirstEnd(t, id, j);
    } else {
      d := k;
    }
  }

  lemma DepthExists(t: Table, id: Id)
    requires Forest(t) && (id in t || id == NO_ID)
    ensures exists d: nat :: HasDepth(t, id, d)
  {
    WalkEnds(t, id);
    var k: nat :| k <= |t| && Up(t, id, k) == NO_ID;
    var d := FirstEnd(t, id, k);
  }

  /** How many levels the chain from a category to its root has; a root is at depth 1. */
  ghost function Depth(t: Table, id: Id): (d: nat)
    requires Forest(t) && (id in t || id == NO_ID)
    ensures HasDepth(t, id, d)
  {
    DepthExists(t, id);
    var d: nat :| HasDepth(t, id, d);
    d
  }

  lemma DepthIs(t: Table, id: Id, d: nat)
    requires Forest(t) && (id in t || id == NO_ID) && HasDepth(t, id, d)
    ensures Depth(t, id) == d
  {
  }

  /** Depth adds up along a walk. */
  lemma DepthAlong(t: Table, id: Id, k: nat)
    requires Forest(t) && id in t && Up(t, id, k) in t
    ensures Depth(t, id) == k + Depth(t, Up(t, id, k))
  {
    var top := Up(t, id, k);
    var d := Depth(t, top);
    UpInTwoParts(t, id, k, d);
    forall j: nat | j < k + d ensures Up(t, id, j) != NO_ID {
      if j < k {
        NothingAbove(t, id, j, k);
      } else {
        UpInTwoParts(t, id, k, j - k);
      }
    }
    DepthIs(t, id, k + d);
  }

  // ---------------------------------------------------------------- setting one parent

  /** id is on the walk from below. */
  ghost predicate Reaches(t: Table, below: Id, id: Id) {
    id != NO_ID && exists k: nat :: Up(t, below, k) == id
  }

  /** Rows differ at most in id, and elsewhere have the same parents. */
  ghost predicate SameParents(t: Table, t': Table, id: Id) {
    forall x :: x != id ==> (x in t <==> x in t') && (x in t ==> t[x].parentID == t'[x].parentID)
  }

  /** Walks agree until they meet the changed category. */
  lemma {:induction false} SameWalk(t: Table, t': Table, id: Id, x: Id, k: nat)
    requires SameParents(t, t', id)
    requires forall j: nat :: j < k ==> Up(t, x, j) != id
    ensures Up(t', x, k) == Up(t, x, k)
  {
    if k > 0 {
      SameWalk(t, t', id, x, k - 1);
      assert Up(t, x, k - 1) != id;
    }
  }

  lemma {:induction false} FirstVisit(t: Table, x: Id, id: Id, k: nat) returns (m: nat)
    requires Up(t, x, k) == id
    ensures m <= k && Up(t, x, m) == id && forall j: nat :: j < m ==> Up(t, x, j) != id
  {
    if j: nat :| j < k && Up(t, x, j) == id {
      m := FirstVisit(t, x, id, j);
    } else {
      m := k;
    }
  }

  /** The walk from the new parent is the same before and after, up to the changed category. */
  lemma ReachIsUnchanged(t: Table, t': Table, id: Id, x: Id, k: nat)
    requires SameParents(t, t', id) && id != NO_ID && Up(t', x, k) == id
    ensures Reaches(t, x, id)
  {
    var m := FirstVisit(t', x, id, k);
    SameWalk(t', t, id, x, m);
    assert Up(t, x, m) == id;
  }

  /** A cycle of the changed table goes through the changed category. */
  lemma CycleThroughChange(t: Table, t': Table, id: Id, x: Id, k: nat)
    requires Acyclic(t) && SameParents(t, t', id) && id in t'
    requires x in t' && (x in t || x == id) && k > 0 && Up(t', x, k) == x
    ensures Up(t', id, k) == id
  {
    if forall j: nat :: j < k ==> Up(t', x, j) != id {
      assert Up(t', x, 0) != id;
      SameWalk(t', t, id, x, k);
    } else {
      var i: nat :| i < k && Up(t', x, i) == id;
      UpInTwoParts(t', x, i, k);
      UpInTwoParts(t', x, k, i);
    }
  }

  /** Hanging a category under a parent closes a cycle exactly when the category is already on the
      walk from that parent. */
  lemma CycleIffReached(t: Table, t': Table, id: Id)
    requires Acyclic(t) && SameParents(t, t', id) && id in t' && id != NO_ID && NO_ID !in t'
    ensures Acyclic(t') <==> !Reaches(t, t'[id].parentID, id)
  {
    var parentID := t'[id].parentID;
    if Reaches(t, parentID, id) {
      var k: nat :| Up(t, parentID, k) == id;
      var m := FirstVisit(t, parentID, id, k);
      SameWalk(t, t', id, parentID, m);
      UpInTwoParts(t', id, 1, m);
      var around: nat := 1 + m;
      assert Up(t', id, 1) == parentID && Up(t', id, around) == id;
      assert !Acyclic(t');
    } else {
      forall x, k: nat | x in t' && k > 0 ensures Up(t', x, k) != x {
        if Up(t', x, k) == x {
          CycleThroughChange(t, t', id, x, k);
          UpInTwoParts(t', id, 1, k - 1);
          assert Up(t', id, 1) == parentID;
          ReachIsUnchanged(t, t', id, parentID, k - 1);
        }
      }
    }
  }

  /** A walk that avoids the changed category keeps its depth. */
  lemma DepthUnchanged(t: Table, t': Table, id: Id, x: Id)
    requires Forest(t) && Forest(t') && SameParents(t, t', id) && id != NO_ID
    requires x == NO_ID || (x in t && x in t')
    requires !Reaches(t, x, id)
    ensures Depth(t', x) == Depth(t, x)
  {
    var d := Depth(t, x);
    forall k: nat | k <= d ensures Up(t', x, k) == Up(t, x, k) {
      SameWalk(t, t', id, x, k);
    }
    DepthIs(t', x, d);
  }

  /** The moved category is one level below its new parent, and each category below it moves by the
      same number of levels. */
  lemma DepthAfterMove(t: Table, t': Table, id: Id, x: Id, r: nat)
    requires Forest(t) && Forest(t') && SameParents(t, t', id) && id in t && id in t'
    requires x in t && x in t' && Up(t, x, r) == id
    ensures Depth(t', id) == 1 + Depth(t, t'[id].parentID)
    ensures Depth(t, x) == r + Depth(t, id)
    ensures Depth(t', x) == r + Depth(t', id)
  {
    var parentID := t'[id].parentID;
    assert ParentAllowed(t', t'[id]);
    CycleIffReached(t, t', id);
    DepthUnchanged(t, t', id, parentID);
    DepthBelow(t', id);
    DepthAlong(t, x, r);
    var m := FirstVisit(t, x, id, r);
    if m < r {
      UpDistinct(t, x, m, r);
    }
    SameWalk(t, t', id, x, r);
    DepthAlong(t', x, r);
  }

  lemma DepthBelow(t: Table, id: Id)
    requires Forest(t) && id in t
    ensures ParentAllowed(t, t[id]) && Depth(t, id) == 1 + Depth(t, t[id].parentID)
  {
    var parentID := t[id].parentID;
    assert ParentAllowed(t, t[id]);
    assert Up(t, id, 1) == parentID;
    var d := Depth(t, parentID);
    UpInTwoParts(t, id, 1, d);
    forall j: nat | j < 1 + d ensures Up(t, id, j) != NO_ID {
      if j > 0 {
        UpInTwoParts(t, id, 1, j - 1);
      }
    }
    DepthIs(t, id, 1 + d);
  }
}
