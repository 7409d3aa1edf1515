/** The recursive rollup queries: the category tree as an iterated join, the spending it attributes to
    a budget, and the distribution of expenses over root categories. */
module Rollup {
  import opened Common
  import opened Sums
  import opened CategoryForest
  import Ledger

  /** A row of category_tree: a category and a category at or above it. */
  type TreeRow = (Id, Id)

  /** The table in some scan order, every row once. */
  ghost predicate Scan(t: Table, order: seq<Id>) {
    && (forall id :: id in order <==> id in t)
    && (forall i, j :: 0 <= i < j < |order| ==> order[i] != order[j])
  }

  function Children(t: Table, order: seq<Id>, id: Id): seq<Id> {
    if order == [] then []
    else
      var last := order[|order| - 1];
      Children(t, order[..|order| - 1], id) + (if last in t && t[last].parentID == id then [last] else [])
  }

  function Paired(ids: seq<Id>, root: Id): seq<TreeRow> {
    if ids == [] then [] else Paired(ids[..|ids| - 1], root) + [(ids[|ids| - 1], root)]
  }

  /** The recursive term: the children of every row of the working table. */
  function Joined(t: Table, order: seq<Id>, working: seq<TreeRow>): seq<TreeRow> {
    if working == [] then []
    else
      var (id, root) := working[|working| - 1];
      Joined(t, order, working[..|working| - 1]) + Paired(Children(t, order, id), root)
  }

  function Seeded(seeds: seq<Id>): seq<TreeRow> {
    if seeds == [] then [] else Seeded(seeds[..|seeds| - 1]) + [(seeds[|seeds| - 1], seeds[|seeds| - 1])]
  }

  function Times<T(==)>(s: seq<T>, x: T): nat {
    multiset(s)[x]
  }

  lemma TimesAppend<T>(a: seq<T>, b: seq<T>, x: T)
    ensures Times(a + b, x) == Times(a, x) + Times(b, x)
  {
  }

  lemma SplitLast<T>(s: seq<T>)
    requires s != []
    ensures s == s[..|s| - 1] + [s[|s| - 1]]
  {
  }

  lemma {:induction false} TimesInScan(order: seq<Id>, id: Id)
    requires forall i, j :: 0 <= i < j < |order| ==> order[i] != order[j]
    ensures Times(order, id) == if id in order then 1 else 0
  {
    if order != [] {
      SplitLast(order);
      TimesInScan(order[..|order| - 1], id);
    }
  }

  lemma {:induction false} TimesChild(t: Table, order: seq<Id>, id: Id, child: Id)
    ensures Times(Children(t, order, id), child)
         == if child in t && t[child].parentID == id then Times(order, child) else 0
  {
    if order != [] {
      SplitLast(order);
      TimesChild(t, order[..|order| - 1], id, child);
    }
  }

  lemma {:induction false} TimesPaired(ids: seq<Id>, root: Id, row: TreeRow)
    ensures Times(Paired(ids, root), row) == if row.1 == root then Times(ids, row.0) else 0
  {
    if ids != [] {
      SplitLast(ids);
      TimesPaired(ids[..|ids| - 1], root, row);
    }
  }

  /** A category joins the result once for every time its parent is in the working table. */
  lemma {:induction false} TimesJoined(t: Table, order: seq<Id>, working: seq<TreeRow>, child: Id, root: Id)
    requires Scan(t, order)
    ensures Times(Joined(t, order, working), (child, root))
         == if child in t then Times(working, (t[child].parentID, root)) else 0
  {
    if working != [] {
      var front := working[..|working| - 1];
      var (id, top) := working[|working| - 1];
      SplitLast(working);
      TimesJoined(t, order, front, child, root);
      TimesPaired(Children(t, order, id), top, (child, root));
      TimesChild(t, order, id, child);
      TimesInScan(order, child);
      TimesAppend(Joined(t, order, front), Paired(Children(t, order, id), top), (child, root));
    }
  }

  lemma {:induction false} TimesSeeded(seeds: seq<Id>, row: TreeRow)
    ensures Times(Seeded(seeds), row) == if row.0 == row.1 then Times(seeds, row.0) else 0
  {
    if seeds != [] {
      SplitLast(seeds);
      TimesSeeded(seeds[..|seeds| - 1], row);
    }
  }

  // ---------------------------------------------------------------- the iterated join

  /** The seeds of a rollup: categories of the table, each once. */
  ghost predicate Seeds(t: Table, seeds: seq<Id>) {
    && (forall id :: id in seeds ==> id in t)
    && (forall i, j :: 0 <= i < j < |seeds| ==> seeds[i] != seeds[j])
  }

  /** The k-th working table pairs every category with the seed k steps above it, once. */
  ghost predicate IsLevel(t: Table, seeds: seq<Id>, k: nat, working: seq<TreeRow>) {
    forall x, root :: Times(working, (x, root)) == if x in t && root in seeds && Up(t, x, k) == root then 1 else 0
  }

  /** The rows so far pair every category with each seed fewer than k steps above it, once. */
  ghost predicate IsPrefix(t: Table, seeds: seq<Id>, k: nat, rows: seq<TreeRow>) {
    forall x, root :: Times(rows, (x, root)) == if x in t && root in seeds && VisitedWithin(t, x, k, root) then 1 else 0
  }

  /** The finished tree pairs every category with each seed at or above it, exactly once. */
  ghost predicate IsTree(t: Table, seeds: seq<Id>, rows: seq<TreeRow>) {
    forall x, root :: Times(rows, (x, root)) == if x in t && root in seeds && Reaches(t, x, root) then 1 else 0
  }

  lemma FirstLevel(t: Table, seeds: seq<Id>)
    requires Seeds(t, seeds)
    ensures IsLevel(t, seeds, 0, Seeded(seeds))
  {
    forall x, root
      ensures Times(Seeded(seeds), (x, root)) == if x in t && root in seeds && Up(t, x, 0) == root then 1 else 0
    {
      TimesSeeded(seeds, (x, root));
      TimesInScan(seeds, x);
    }
  }

  lemma UpThroughParent(t: Table, x: Id, k: nat)
    requires Forest(t) && x in t
    ensures Up(t, x, k + 1) == Up(t, t[x].parentID, k)
    ensures t[x].parentID in t || (t[x].parentID == NO_ID && Up(t, NO_ID, k) == NO_ID)
  {
  }

  lemma NextLevel(t: Table, order: seq<Id>, seeds: seq<Id>, k: nat, working: seq<TreeRow>)
    requires Forest(t) && Scan(t, order) && Seeds(t, seeds) && IsLevel(t, seeds, k, working)
    ensures IsLevel(t, seeds, k + 1, Joined(t, order, working))
  {
    forall x, root
      ensures Times(Joined(t, order, working), (x, root))
           == if x in t && root in seeds && Up(t, x, k + 1) == root then 1 else 0
    {
      TimesJoined(t, order, working, x, root);
      if x in t {
        UpThroughParent(t, x, k);
      }
    }
  }

  lemma {:induction false} PrefixGrows(t: Table, seeds: seq<Id>, k: nat, rows: seq<TreeRow>, working: seq<TreeRow>)
    requires Forest(t) && Seeds(t, seeds) && IsPrefix(t, seeds, k, rows) && IsLevel(t, seeds, k, working)
    ensures IsPrefix(t, seeds, k + 1, rows + working)
  {
    forall x, root
      ensures Times(rows + working, (x, root))
           == if x in t && root in seeds && VisitedWithin(t, x, k + 1, root) then 1 else 0
    {
      TimesAppend(rows, working, (x, root));
      VisitedOneMore(t, x, k, root);
    }
  }

  /** A further step visits one more category, and no category twice. */
  lemma VisitedOneMore(t: Table, x: Id, k: nat, root: Id)
    requires Acyclic(t)
    ensures VisitedWithin(t, x, k + 1, root) <==> VisitedWithin(t, x, k, root) || Up(t, x, k) == root
    ensures root in t ==> !(VisitedWithin(t, x, k, root) && Up(t, x, k) == root)
  {
    if i: nat :| i < k && Up(t, x, i) == root {
      assert i < k + 1;
      if root in t {
        UpDistinct(t, x, i, k);
      }
    }
  }

  /** A working table with rows in it belongs to a level no deeper than the table is large. */
  lemma LevelInRange(t: Table, seeds: seq<Id>, k: nat, working: seq<TreeRow>)
    requires Forest(t) && Seeds(t, seeds) && IsLevel(t, seeds, k, working) && working != []
    ensures k < |t|
  {
    var (x, root) := working[0];
    assert (x, root) in multiset(working);
    assert Times(working, (x, root)) > 0;
    WalkEnds(t, x);
    var end: nat :| end <= |t| && Up(t, x, end) == NO_ID;
    NothingAbove(t, x, end, if end <= k then k else end);
  }

  /** A seed m steps above a category is k steps above another for every smaller k. */
  lemma LevelHasRow(t: Table, seeds: seq<Id>, k: nat, working: seq<TreeRow>, x: Id, root: Id, m: nat) returns (y: Id)
    requires Forest(t) && Seeds(t, seeds) && IsLevel(t, seeds, k, working)
    requires x in t && root in seeds && Up(t, x, m) == root && k <= m
    ensures Times(working, (y, root)) == 1
  {
    y := Up(t, x, m - k);
    UpInTwoParts(t, x, m - k, k);
    UpStaysInTable(t, x, m - k);
    UpFromNothing(t, k);
  }

  /** Once a level is empty there is nothing further up. */
  lemma NothingFurther(t: Table, seeds: seq<Id>, k: nat, x: Id, root: Id, m: nat)
    requires Forest(t) && Seeds(t, seeds) && IsLevel(t, seeds, k, [])
    requires x in t && root in seeds && Up(t, x, m) == root
    ensures m < k
  {
    if k <= m {
      var y := LevelHasRow(t, seeds, k, [], x, root, m);
    }
  }

  lemma {:induction false} PrefixIsTree(t: Table, seeds: seq<Id>, k: nat, rows: seq<TreeRow>)
    requires Forest(t) && Seeds(t, seeds) && IsPrefix(t, seeds, k, rows) && IsLevel(t, seeds, k, [])
    ensures IsTree(t, seeds, rows)
  {
    forall x, root | x in t && root in seeds ensures VisitedWithin(t, x, k, root) <==> Reaches(t, x, root) {
      if Reaches(t, x, root) {
        var m: nat :| Up(t, x, m) == root;
        NothingFurther(t, seeds, k, x, root, m);
        assert VisitedWithin(t, x, k, root);
      }
    }
  }

  /** UNION ALL: joins the working table with the categories until nothing new comes out. */
  method CategoryTree(t: Table, order: seq<Id>, seeds: seq<Id>) returns (rows: seq<TreeRow>)
    requires Forest(t) && Scan(t, order) && Seeds(t, seeds)
    ensures IsTree(t, seeds, rows)
  {
    rows := [];
    var working := Seeded(seeds);
    ghost var k: nat := 0;
    FirstLevel(t, seeds);
    while working != []
      invariant IsPrefix(t, seeds, k, rows) && IsLevel(t, seeds, k, working)
      decreases |t| - k
    {
      LevelInRange(t, seeds, k, working);
      PrefixGrows(t, seeds, k, rows, working);
      NextLevel(t, order, seeds, k, working);
      rows := rows + working;
      working := Joined(t, order, working);
      k := k + 1;
    }
    PrefixIsTree(t, seeds, k, rows);
  }
}
