/** Sums of integer-valued finite maps: the meaning of SUM over a set of rows. */
module Sums {

  ghost function Sum<K>(m: map<K, int>): int
    decreases |m|
  {
    if m == map[] then 0 else
      var k :| k in m;
      m[k] + Sum(m - {k})
  }

  /** Any row may be taken out first. */
  lemma {:induction false} SumRemove<K>(m: map<K, int>, k: K)
    requires k in m
    ensures Sum(m) == m[k] + Sum(m - {k})
    decreases |m|
  {
    var j :| j in m && Sum(m) == m[j] + Sum(m - {j});
    if j != k {
      SumRemove(m - {j}, k);
      SumRemove(m - {k}, j);
      assert m - {j} - {k} == m - {k} - {j};
    }
  }

  lemma SumInsert<K>(m: map<K, int>, k: K, v: int)
    requires k !in m
    ensures Sum(m[k := v]) == v + Sum(m)
  {
    var n := m[k := v];
    SumRemove(n, k);
    assert n - {k} == m;
  }

  lemma UnionMinus<K>(a: map<K, int>, b: map<K, int>, k: K)
    requires a.Keys !! b.Keys && k in b
    ensures (a + b) - {k} == a + (b - {k})
  {
  }

  lemma {:induction false} SumUnion<K>(a: map<K, int>, b: map<K, int>)
    requires a.Keys !! b.Keys
    ensures Sum(a + b) == Sum(a) + Sum(b)
    decreases |b|
  {
    if b == map[] {
      assert a + b == a;
    } else {
      var k :| k in b;
      SumUnion(a, b - {k});
      SumRemove(b, k);
      UnionMinus(a, b, k);
      SumRemove(a + b, k);
    }
  }

  ghost function Differences<K>(a: map<K, int>, b: map<K, int>): map<K, int>
    requires a.Keys == b.Keys
  {
    map k | k in a :: a[k] - b[k]
  }

  /** A difference of sums is a sum of differences. */
  lemma {:induction false} SumMinus<K>(a: map<K, int>, b: map<K, int>)
    requires a.Keys == b.Keys
    ensures Sum(Differences(a, b)) == Sum(a) - Sum(b)
    decreases |a|
  {
    var d := Differences(a, b);
    if a != map[] {
      var k :| k in a;
      SumRemove(a, k);
      SumRemove(b, k);
      SumRemove(d, k);
      SumMinus(a - {k}, b - {k});
      assert d - {k} == Differences(a - {k}, b - {k});
    } else {
      assert b == map[] && d == map[];
    }
  }

  /** The rows of `m` that `group` sends to `g`. */
  ghost function Group<K, G>(m: map<K, int>, group: map<K, G>, g: G): map<K, int> {
    map k | k in m && k in group && group[k] == g :: m[k]
  }

  /** The rows of `m` that `group` sends into `groups`. */
  ghost function Grouped<K, G>(m: map<K, int>, group: map<K, G>, groups: set<G>): map<K, int> {
    map k | k in m && k in group && group[k] in groups :: m[k]
  }

  ghost function GroupSums<K, G>(m: map<K, int>, group: map<K, G>, groups: set<G>): map<G, int> {
    map g | g in groups :: Sum(Group(m, group, g))
  }

  lemma GroupedSplit<K, G>(m: map<K, int>, group: map<K, G>, groups: set<G>, g: G)
    requires g in groups
    ensures Grouped(m, group, groups) == Grouped(m, group, groups - {g}) + Group(m, group, g)
    ensures GroupSums(m, group, groups) - {g} == GroupSums(m, group, groups - {g})
  {
  }

  /** Summing group by group sums the rows whose group is listed. */
  lemma {:induction false} SumByGroup<K, G>(m: map<K, int>, group: map<K, G>, groups: set<G>)
    ensures Sum(GroupSums(m, group, groups)) == Sum(Grouped(m, group, groups))
    decreases groups
  {
    if groups == {} {
      assert GroupSums(m, group, groups) == map[] && Grouped(m, group, groups) == map[];
    } else {
      var g :| g in groups;
      SumByGroup(m, group, groups - {g});
      GroupedSplit(m, group, groups, g);
      SumRemove(GroupSums(m, group, groups), g);
      SumUnion(Grouped(m, group, groups - {g}), Group(m, group, g));
    }
  }

  /** Lifting every term can only lift the sum, and lifts it unless no term moved. */
  lemma {:induction false} SumMonotone<K>(a: map<K, int>, b: map<K, int>)
    requires a.Keys == b.Keys
    requires forall k | k in a :: a[k] <= b[k]
    ensures Sum(a) <= Sum(b)
    ensures Sum(a) == Sum(b) <==> a == b
    decreases |a|
  {
    if a == map[] {
      assert b == map[];
    } else {
      var k :| k in a;
      SumRemove(a, k);
      SumRemove(b, k);
      SumMonotone(a - {k}, b - {k});
      if a[k] == b[k] && a - {k} == b - {k} {
        assert forall j | j in a :: j != k ==> j in a - {k} && (a - {k})[j] == (b - {k})[j];
        assert a == b;
      }
    }
  }

  // ----- Tables, compared row by row

  ghost predicate SameAt<K, V>(have: map<K, V>, want: map<K, V>, k: K) {
    (k in have <==> k in want) && (k in have ==> have[k] == want[k])
  }

  lemma SameEverywhere<K(!new), V>(have: map<K, V>, want: map<K, V>)
    ensures have == want <==> forall k :: SameAt(have, want, k)
  {
    if forall k :: SameAt(have, want, k) {
      assert forall k | k in have :: SameAt(have, want, k);
      assert forall k | k in want :: SameAt(have, want, k);
    } else {
      var k :| !SameAt(have, want, k);
    }
  }
}
