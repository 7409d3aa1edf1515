/** What the rollup queries report: a budget's spending and the distribution of a month's expenses. */
module Spending {
  import opened Common
  import opened Sums
  import opened CategoryForest
  import opened Rollup
  import L = Ledger

  type Transactions = map<Id, L.Transaction>

  predicate ExpenseWithin(tx: L.Transaction, from: Instant, to: Instant) {
    tx.kind == L.Expense && from <= tx.transactionAt < to
  }

  // ---------------------------------------------------------------- budgets

  predicate Budgeted(tx: L.Transaction, userID: Id, from: Instant, to: Instant) {
    tx.userID == userID && ExpenseWithin(tx, from, to)
  }

  /** The user's expenses of one category. */
  function InCategory(txs: Transactions, userID: Id, from: Instant, to: Instant, category: Id): map<Id, int> {
    map id | id in txs ::
      if Budgeted(txs[id], userID, from, to) && txs[id].categoryID == category then txs[id].amountMinor else 0
  }

  /** The aggregate over the join: every tree row of the budget's category contributes the expenses of
      the category it pairs it with. */
  ghost function SpentMinor(rows: seq<TreeRow>, txs: Transactions, userID: Id, from: Instant, to: Instant,
      root: Id): int {
    if rows == [] then 0
    else
      var (category, top) := rows[|rows| - 1];
      SpentMinor(rows[..|rows| - 1], txs, userID, from, to, root)
      + (if top == root then Sum(InCategory(txs, userID, from, to, category)) else 0)
  }

  /** Each expense as often as the join repeats it. */
  function Repeated(rows: seq<TreeRow>, txs: Transactions, userID: Id, from: Instant, to: Instant,
      root: Id): map<Id, int> {
    map id | id in txs ::
      if Budgeted(txs[id], userID, from, to) then txs[id].amountMinor * Times(rows, (txs[id].categoryID, root)) else 0
  }

  lemma {:induction false} SpentIsRepeated(rows: seq<TreeRow>, txs: Transactions, userID: Id, from: Instant,
      to: Instant, root: Id)
    ensures SpentMinor(rows, txs, userID, from, to, root) == Sum(Repeated(rows, txs, userID, from, to, root))
  {
    if rows == [] {
      SumZero(Repeated(rows, txs, userID, from, to, root));
    } else {
      var front, last := rows[..|rows| - 1], rows[|rows| - 1];
      SpentIsRepeated(front, txs, userID, from, to, root);
      RepeatedOneMore(front, last, txs, userID, from, to, root);
      SplitLast(rows);
    }
  }

  lemma RepeatedOneMore(front: seq<TreeRow>, last: TreeRow, txs: Transactions, userID: Id, from: Instant,
      to: Instant, root: Id)
    ensures Sum(Repeated(front + [last], txs, userID, from, to, root))
         == Sum(Repeated(front, txs, userID, from, to, root))
          + (if last.1 == root then Sum(InCategory(txs, userID, from, to, last.0)) else 0)
  {
    var before := Repeated(front, txs, userID, from, to, root);
    var after := Repeated(front + [last], txs, userID, from, to, root);
    forall id | id in txs
      ensures after[id] == before[id] + (if last.1 == root then InCategory(txs, userID, from, to, last.0)[id] else 0)
    {
      var row := (txs[id].categoryID, root);
      TimesAppend(front, [last], row);
      assert Times([last], row) == if last == row then 1 else 0;
      assert txs[id].amountMinor * (Times(front, row) + 1)
          == txs[id].amountMinor * Times(front, row) + txs[id].amountMinor;
    }
    if last.1 == root {
      SumPointwise(before, InCategory(txs, userID, from, to, last.0), after);
    } else {
      assert before == after;
    }
  }

  /** The user's expenses in a category or below it, each counted once. */
  ghost function Subtree(t: Table, txs: Transactions, userID: Id, from: Instant, to: Instant, root: Id): map<Id, int> {
    map id | id in txs ::
      if Budgeted(txs[id], userID, from, to) && txs[id].categoryID in t && Reaches(t, txs[id].categoryID, root)
      then txs[id].amountMinor else 0
  }

  /** A budget's spending is the sum over its category's subtree, with no expense counted twice. */
  lemma SpentIsSubtreeSum(t: Table, seeds: seq<Id>, rows: seq<TreeRow>, txs: Transactions, userID: Id,
                          from: Instant, to: Instant, root: Id)
    requires IsTree(t, seeds, rows) && root in seeds
    ensures SpentMinor(rows, txs, userID, from, to, root) == Sum(Subtree(t, txs, userID, from, to, root))
  {
    SpentIsRepeated(rows, txs, userID, from, to, root);
    forall id | id in txs
      ensures Repeated(rows, txs, userID, from, to, root)[id] == Subtree(t, txs, userID, from, to, root)[id]
    {
      var times := Times(rows, (txs[id].categoryID, root));
      assert times == 0 || times == 1;
    }
    assert Repeated(rows, txs, userID, from, to, root) == Subtree(t, txs, userID, from, to, root);
  }

  /** The spending over all budgets together. */
  ghost function SummarySpent(rows: seq<TreeRow>, txs: Transactions, userID: Id, from: Instant, to: Instant,
      budgets: set<Id>): map<Id, int> {
    map b | b in budgets :: SpentMinor(rows, txs, userID, from, to, b)
  }

  /** The budgeted categories at or above a category. */
  ghost function Covering(t: Table, category: Id, budgets: set<Id>): set<Id> {
    set b | b in budgets && category in t && Reaches(t, category, b)
  }

  ghost function Covered(t: Table, txs: Transactions, userID: Id, from: Instant, to: Instant,
      budgets: set<Id>): map<Id, int> {
    map id | id in txs ::
      if Budgeted(txs[id], userID, from, to)
      then txs[id].amountMinor * |Covering(t, txs[id].categoryID, budgets)| else 0
  }

  lemma CoveredByOneMore(t: Table, txs: Transactions, userID: Id, from: Instant, to: Instant, budgets: set<Id>, b: Id)
    requires b in budgets
    ensures Sum(Covered(t, txs, userID, from, to, budgets))
         == Sum(Covered(t, txs, userID, from, to, budgets - {b})) + Sum(Subtree(t, txs, userID, from, to, b))
  {
    var all, rest := Covered(t, txs, userID, from, to, budgets), Covered(t, txs, userID, from, to, budgets - {b});
    forall id | id in txs ensures all[id] == rest[id] + Subtree(t, txs, userID, from, to, b)[id] {
      var category := txs[id].categoryID;
      var fewer := Covering(t, category, budgets - {b});
      if category in t && Reaches(t, category, b) {
        assert Covering(t, category, budgets) == fewer + {b};
        assert txs[id].amountMinor * (|fewer| + 1) == txs[id].amountMinor * |fewer| + txs[id].amountMinor;
      } else {
        assert Covering(t, category, budgets) == fewer;
      }
    }
    SumPointwise(rest, Subtree(t, txs, userID, from, to, b), all);
  }

  lemma {:induction false} SummaryByOneMore(rows: seq<TreeRow>, txs: Transactions, userID: Id, from: Instant,
      to: Instant, budgets: set<Id>, b: Id)
    requires b in budgets
    ensures Sum(SummarySpent(rows, txs, userID, from, to, budgets))
         == Sum(SummarySpent(rows, txs, userID, from, to, budgets - {b})) + SpentMinor(rows, txs, userID, from, to, b)
  {
    var all := SummarySpent(rows, txs, userID, from, to, budgets);
    var rest := SummarySpent(rows, txs, userID, from, to, budgets - {b});
    SumRemove(all, b);
    assert all - {b} == rest;
  }

  lemma NoBudgets(t: Table, rows: seq<TreeRow>, txs: Transactions, userID: Id, from: Instant, to: Instant)
    ensures Sum(SummarySpent(rows, txs, userID, from, to, {})) == 0 && Sum(Covered(t, txs, userID, from, to, {})) == 0
  {
    SumZero(SummarySpent(rows, txs, userID, from, to, {}));
    forall id | id in txs ensures Covered(t, txs, userID, from, to, {})[id] == 0 {
      assert Covering(t, txs[id].categoryID, {}) == {};
    }
    SumZero(Covered(t, txs, userID, from, to, {}));
  }

  /** The summary over a month's budgets counts an expense once for every budgeted category at or above
      its own: a nested budget counts it again. */
  lemma {:induction false} SummaryCountsCovering(t: Table, seeds: seq<Id>, rows: seq<TreeRow>, txs: Transactions,
      userID: Id,
                                                 from: Instant, to: Instant, budgets: set<Id>)
    requires IsTree(t, seeds, rows) && forall b :: b in budgets ==> b in seeds
    ensures Sum(SummarySpent(rows, txs, userID, from, to, budgets)) == Sum(Covered(t, txs, userID, from, to, budgets))
    decreases |budgets|
  {
    if budgets == {} {
      NoBudgets(t, rows, txs, userID, from, to);
    } else {
      var b :| b in budgets;
      SummaryCountsCovering(t, seeds, rows, txs, userID, from, to, budgets - {b});
      SummaryByOneMore(rows, txs, userID, from, to, budgets, b);
      SpentIsSubtreeSum(t, seeds, rows, txs, userID, from, to, b);
      CoveredByOneMore(t, txs, userID, from, to, budgets, b);
    }
  }

  // ---------------------------------------------------------------- distribution

  /** A month's expenses that the user may see: their own, on their wallets, or on wallets shared with
      them in any role. */
  predicate Visible(db: L.Database, userID: Id, tx: L.Transaction) {
    || tx.userID == userID
    || (tx.walletID in db.wallets && db.wallets[tx.walletID].userID == userID)
    || ((tx.walletID, userID) in db.shares && db.shares[(tx.walletID, userID)].status == L.Joined)
  }

  function Expenses(db: L.Database, userID: Id, from: Instant, to: Instant): map<Id, int> {
    map id |
      && id in db.transactions && Visible(db, userID, db.transactions[id])
      && ExpenseWithin(db.transactions[id], from, to)
      :: db.transactions[id].amountMinor
  }

  /** The forecast's current expense. */
  ghost function CurrentExpenseMinor(db: L.Database, userID: Id, from: Instant, to: Instant): int {
    Sum(Expenses(db, userID, from, to))
  }

  predicate Matched(rows: seq<TreeRow>, category: Id) {
    exists i :: 0 <= i < |rows| && rows[i].0 == category
  }

  /** How often the left join puts an expense of a category into a group; NO_ID is the group without
      a root, shown as uncategorized. */
  function Copies(rows: seq<TreeRow>, category: Id, group: Id): nat {
    if group == NO_ID then (if Matched(rows, category) then 0 else 1) else Times(rows, (category, group))
  }

  /** The root categories of one user, the seeds of the distribution's tree. */
  ghost predicate RootsOf(t: Table, userID: Id, seeds: seq<Id>) {
    && (forall id :: id in seeds <==> id in t && t[id].userID == userID && t[id].parentID == NO_ID)
    && (forall i, j :: 0 <= i < j < |seeds| ==> seeds[i] != seeds[j])
  }

  /** The root above a category of the user; NO_ID for anything else. */
  ghost function RootFor(t: Table, userID: Id, category: Id): Id
    requires Forest(t)
  {
    if category in t && t[category].userID == userID then Up(t, category, Depth(t, category) - 1) else NO_ID
  }

  lemma {:induction false} OwnerAlongWalk(t: Table, id: Id, k: nat)
    requires Referential(t) && id in t && Up(t, id, k) in t
    ensures t[Up(t, id, k)].userID == t[id].userID
  {
    if k > 0 {
      UpStaysInTable(t, id, k - 1);
      UpFromNothing(t, 1);
      OwnerAlongWalk(t, id, k - 1);
      assert ParentAllowed(t, t[Up(t, id, k - 1)]);
    }
  }

  lemma RootIsSeed(t: Table, userID: Id, seeds: seq<Id>, category: Id)
    requires Forest(t) && RootsOf(t, userID, seeds) && category in t && t[category].userID == userID
    ensures RootFor(t, userID, category) in seeds && Reaches(t, category, RootFor(t, userID, category))
  {
    var d := Depth(t, category);
    assert Up(t, category, 0) == category;
    var top: nat := d - 1;
    UpStaysInTable(t, category, top);
    OwnerAlongWalk(t, category, top);
    assert Up(t, category, top) == RootFor(t, userID, category);
  }

  /** A walk meets no root but its last category. */
  lemma OnlyRoot(t: Table, userID: Id, seeds: seq<Id>, category: Id, root: Id)
    requires Forest(t) && RootsOf(t, userID, seeds) && category in t && root in seeds
    requires Reaches(t, category, root)
    ensures root == RootFor(t, userID, category)
  {
    var k: nat :| Up(t, category, k) == root;
    OwnerAlongWalk(t, category, k);
    assert Up(t, category, k + 1) == NO_ID;
    var d := Depth(t, category);
    NothingAbove(t, category, d, if d <= k then k else d);
    assert k < d && d == k + 1;
  }

  /** Every expense lands in exactly one group, once. */
  lemma {:induction false} OneGroupEach(t: Table, userID: Id, seeds: seq<Id>, rows: seq<TreeRow>, category: Id,
      group: Id)
    requires Forest(t) && RootsOf(t, userID, seeds) && IsTree(t, seeds, rows)
    ensures Copies(rows, category, group) == if group == RootFor(t, userID, category) then 1 else 0
  {
    if category in t && t[category].userID == userID {
      var root := RootFor(t, userID, category);
      RootIsSeed(t, userID, seeds, category);
      assert Times(rows, (category, root)) == 1;
      assert (category, root) in multiset(rows);
      assert Matched(rows, category);
      if group in seeds && Reaches(t, category, group) {
        OnlyRoot(t, userID, seeds, category, group);
      }
    } else {
      NoRowFor(t, userID, seeds, rows, category);
      RowIsMatch(rows, category, group);
    }
  }

  lemma RowIsMatch(rows: seq<TreeRow>, category: Id, group: Id)
    ensures Times(rows, (category, group)) > 0 ==> Matched(rows, category)
  {
  }

  lemma {:induction false} NoRowFor(t: Table, userID: Id, seeds: seq<Id>, rows: seq<TreeRow>, category: Id)
    requires Forest(t) && RootsOf(t, userID, seeds) && IsTree(t, seeds, rows)
    requires !(category in t && t[category].userID == userID)
    ensures !Matched(rows, category)
  {
    forall i | 0 <= i < |rows| ensures rows[i].0 != category {
      var (x, root) := rows[i];
      assert rows[i] in multiset(rows);
      assert Times(rows, (x, root)) > 0;
      var k: nat :| Up(t, x, k) == root;
      OwnerAlongWalk(t, x, k);
    }
  }

  /** The groups that some expense joins into. */
  ghost predicate Present(db: L.Database, rows: seq<TreeRow>, userID: Id, from: Instant, to: Instant, groups: set<Id>) {
    forall g :: g in groups <==>
      exists id :: id in Expenses(db, userID, from, to) && Copies(rows, db.transactions[id].categoryID, g) > 0
  }

  function Joining(db: L.Database, rows: seq<TreeRow>, userID: Id, from: Instant, to: Instant,
      group: Id): map<Id, int> {
    map id | id in Expenses(db, userID, from, to)
      :: db.transactions[id].amountMinor * Copies(rows, db.transactions[id].categoryID, group)
  }

  /** One row of the distribution for every present group: the amounts joined into it. */
  ghost function Distribution(db: L.Database, rows: seq<TreeRow>, userID: Id, from: Instant, to: Instant,
      groups: set<Id>): map<Id, int> {
    map g | g in groups :: Sum(Joining(db, rows, userID, from, to, g))
  }

  ghost function Groups(db: L.Database, t: Table, userID: Id, from: Instant, to: Instant): map<Id, Id>
    requires Forest(t)
  {
    map id | id in Expenses(db, userID, from, to) :: RootFor(t, userID, db.transactions[id].categoryID)
  }

  /** A group's amount is the sum of the expenses whose root it is. */
  lemma {:induction false} GroupAmount(db: L.Database, t: Table, userID: Id, seeds: seq<Id>, rows: seq<TreeRow>,
                    from: Instant, to: Instant, group: Id)
    requires Forest(t) && RootsOf(t, userID, seeds) && IsTree(t, seeds, rows)
    ensures Sum(Joining(db, rows, userID, from, to, group))
         == Sum(Group(Expenses(db, userID, from, to), Groups(db, t, userID, from, to), group))
  {
    var m, groups := Expenses(db, userID, from, to), Groups(db, t, userID, from, to);
    forall id | id in m
      ensures Joining(db, rows, userID, from, to, group)[id] == if id in Members(m, groups, group) then m[id] else 0
    {
      OneGroupEach(t, userID, seeds, rows, db.transactions[id].categoryID, group);
    }
    SumOfPart(m, Joining(db, rows, userID, from, to, group), Members(m, groups, group));
  }

  /** A group is present exactly when it is the root of some expense. */
  lemma {:induction false} PresentGroups(db: L.Database, t: Table, userID: Id, seeds: seq<Id>, rows: seq<TreeRow>,
                      from: Instant, to: Instant, groups: set<Id>)
    requires Forest(t) && RootsOf(t, userID, seeds) && IsTree(t, seeds, rows)
    requires Present(db, rows, userID, from, to, groups)
    ensures groups == Groups(db, t, userID, from, to).Values
  {
    var roots := Groups(db, t, userID, from, to);
    forall g ensures g in groups <==> g in roots.Values {
      forall id | id in Expenses(db, userID, from, to)
        ensures Copies(rows, db.transactions[id].categoryID, g) > 0 <==> roots[id] == g
      {
        OneGroupEach(t, userID, seeds, rows, db.transactions[id].categoryID, g);
      }
    }
  }

  lemma {:induction false} DistributionIsGrouping(db: L.Database, t: Table, userID: Id, seeds: seq<Id>,
      rows: seq<TreeRow>, from: Instant, to: Instant, groups: set<Id>)
    requires Forest(t) && RootsOf(t, userID, seeds) && IsTree(t, seeds, rows)
    ensures Distribution(db, rows, userID, from, to, groups)
         == GroupTotals(Expenses(db, userID, from, to), Groups(db, t, userID, from, to), groups)
  {
    forall g | g in groups
      ensures Distribution(db, rows, userID, from, to, groups)[g]
           == GroupTotals(Expenses(db, userID, from, to), Groups(db, t, userID, from, to), groups)[g]
    {
      GroupAmount(db, t, userID, seeds, rows, from, to, g);
    }
  }

  lemma TotalByGroup(m: map<Id, int>, roots: map<Id, Id>, groups: set<Id>)
    requires m.Keys == roots.Keys && groups == roots.Values
    ensures Sum(GroupTotals(m, roots, groups)) == Sum(m)
  {
    forall id | id in m ensures roots[id] in groups {
    }
    SumByGroup(m, roots, groups);
  }

  /** The rows of the distribution, the uncategorized one included, partition the visible expenses and
      add up to the forecast's current expense. */
  lemma DistributionAddsUp(db: L.Database, t: Table, userID: Id, seeds: seq<Id>, rows: seq<TreeRow>,
                           from: Instant, to: Instant, groups: set<Id>)
    requires Forest(t) && RootsOf(t, userID, seeds) && IsTree(t, seeds, rows)
    requires Present(db, rows, userID, from, to, groups)
    ensures Sum(Distribution(db, rows, userID, from, to, groups)) == CurrentExpenseMinor(db, userID, from, to)
  {
    PresentGroups(db, t, userID, seeds, rows, from, to, groups);
    DistributionIsGrouping(db, t, userID, seeds, rows, from, to, groups);
    TotalByGroup(Expenses(db, userID, from, to), Groups(db, t, userID, from, to), groups);
  }
}
