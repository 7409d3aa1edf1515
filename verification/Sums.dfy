/** Totals over finite tables. A table column is a map from row key to amount. */
module Sums {

  ghost function AnyKey<K>(m: map<K, int>): (k: K)
    requires |m| != 0
    ensures k in m
  {
    assert m.Keys != {};
    var k :| k in m; k
  }

  ghost function Sum<K>(m: map<K, int>): int
    decreases |m|
  {
    if |m| == 0 then 0 else var k := AnyKey(m); m[k] + Sum(m - {k})
  }

  /** The total does not depend on the order in which rows are visited. */
  lemma {:induction false} SumRemove<K>(m: map<K, int>, k: K)
    requires k in m
    ensures Sum(m) == m[k] + Sum(m - {k})
    decreases |m|
  {
    var j := AnyKey(m);
    if j != k {
      SumRemove(m - {j}, k);
      SumRemove(m - {k}, j);
      assert m - {j} - {k} == m - {k} - {j};
    }
  }

  lemma SumInsert<K>(m: map<K, int>, k: K, v: int)
    requires k !in m
    ensures Sum(m[k := v]) == Sum(m) + v
  {
    SumRemove(m[k := v], k);
    assert m[k := v] - {k} == m;
  }

  lemma SumUpdate<K>(m: map<K, int>, k: K, v: int)
    requires k in m
    ensures Sum(m[k := v]) == Sum(m) - m[k] + v
  {
    SumRemove(m, k);
    SumRemove(m[k := v], k);
    assert m[k := v] - {k} == m - {k};
  }

  lemma {:induction false} SumPointwise<K>(a: map<K, int>, b: map<K, int>, c: map<K, int>)
    requires a.Keys == b.Keys == c.Keys
    requires forall k :: k in c ==> c[k] == a[k] + b[k]
    ensures Sum(c) == Sum(a) + Sum(b)
    decreases |c|
  {
    if c.Keys == {} {
      assert |a| == |b| == |c| == 0;
    } else {
      var k :| k in c;
      SumRemove(a, k);
      SumRemove(b, k);
      SumRemove(c, k);
      SumPointwise(a - {k}, b - {k}, c - {k});
    }
  }

  lemma {:induction false} SumZero<K>(m: map<K, int>)
    requires forall k :: k in m ==> m[k] == 0
    ensures Sum(m) == 0
    decreases |m|
  {
    if |m| != 0 {
      var k :| k in m;
      SumRemove(m, k);
      SumZero(m - {k});
    }
  }

  lemma SumSingle<K>(m: map<K, int>, k: K)
    requires k in m
    requires forall j :: j in m && j != k ==> m[j] == 0
    ensures Sum(m) == m[k]
  {
    SumRemove(m, k);
    SumZero(m - {k});
  }

  lemma SumNonNegative<K>(m: map<K, int>)
    requires forall k :: k in m ==> 0 <= m[k]
    ensures 0 <= Sum(m)
  {
  }

  ghost function Restricted<K>(m: map<K, int>, part: set<K>): map<K, int> {
    map k | k in m && k in part :: m[k]
  }

  lemma RestrictedWithout<K>(m: map<K, int>, part: set<K>, k: K)
    requires k in m
    ensures k in part ==> Restricted(m - {k}, part) == Restricted(m, part) - {k} && m - {k} - part == m - part
    ensures k !in part ==> Restricted(m - {k}, part) == Restricted(m, part) && m - {k} - part == m - part - {k}
  {
  }

  /** A total splits along any set of rows. */
  lemma {:induction false} SumSplit<K>(m: map<K, int>, part: set<K>)
    ensures Sum(m) == Sum(m - part) + Sum(Restricted(m, part))
    decreases |m|
  {
    if m.Keys == {} {
      SumZero(m);
      SumZero(m - part);
      SumZero(Restricted(m, part));
    } else {
      var k :| k in m;
      SumRemove(m, k);
      SumSplit(m - {k}, part);
      RestrictedWithout(m, part, k);
      if k in part {
        SumRemove(Restricted(m, part), k);
      } else {
        SumRemove(m - part, k);
      }
    }
  }

  /** Rows counted only inside a part add up to that part. */
  lemma {:induction false} SumOfPart<K>(m: map<K, int>, counted: map<K, int>, part: set<K>)
    requires counted.Keys == m.Keys
    requires forall k :: k in m ==> counted[k] == if k in part then m[k] else 0
    ensures Sum(counted) == Sum(Restricted(m, part))
  {
    SumSplit(counted, part);
    SumZero(counted - part);
    assert Restricted(counted, part) == Restricted(m, part);
  }

  ghost function Members<K, G>(m: map<K, int>, groups: map<K, G>, g: G): set<K>
    requires m.Keys <= groups.Keys
  {
    set k | k in m && groups[k] == g
  }

  /** The rows of m whose group is g. */
  ghost function Group<K, G>(m: map<K, int>, groups: map<K, G>, g: G): map<K, int>
    requires m.Keys <= groups.Keys
  {
    Restricted(m, Members(m, groups, g))
  }

  ghost function GroupTotals<K, G>(m: map<K, int>, groups: map<K, G>, present: set<G>): map<G, int>
    requires m.Keys <= groups.Keys
  {
    map g | g in present :: Sum(Group(m, groups, g))
  }

  lemma {:induction false} GroupsWithout<K, G>(m: map<K, int>, groups: map<K, G>, present: set<G>, g: G)
    requires m.Keys <= groups.Keys && g in present
    ensures GroupTotals(m, groups, present) - {g} == GroupTotals(m - Members(m, groups, g), groups, present - {g})
  {
    var rest := m - Members(m, groups, g);
    forall h | h in present - {g} ensures Group(rest, groups, h) == Group(m, groups, h) {
    }
  }

  /** Grouping neither loses nor repeats a row: the group totals add up to the whole. */
  lemma {:induction false} SumByGroup<K, G>(m: map<K, int>, groups: map<K, G>, present: set<G>)
    requires m.Keys <= groups.Keys
    requires forall k :: k in m ==> groups[k] in present
    ensures Sum(GroupTotals(m, groups, present)) == Sum(m)
    decreases |present|
  {
    if present == {} {
      SumZero(m);
      SumZero(GroupTotals(m, groups, present));
    } else {
      var g :| g in present;
      SumSplit(m, Members(m, groups, g));
      SumByGroup(m - Members(m, groups, g), groups, present - {g});
      GroupsWithout(m, groups, present, g);
      SumRemove(GroupTotals(m, groups, present), g);
    }
  }
}
