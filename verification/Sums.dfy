/** Sums of a weight over all rows of a table.

  A table is a finite map from identifiers to rows. Everything the accounting proofs need about
  such sums is here: one row can be taken out or replaced, two tables can be compared row by row,
  and an enumeration of distinct identifiers gives the same sum in whatever order it lists them. */
module Sums {
  ghost function Total<K, V>(m: map<K, V>, w: V -> int): int
    decreases m.Keys
  {
    if m == map[] then 0 else
      var k :| k in m;
      w(m[k]) + Total(m - {k}, w)
  }

  lemma {:induction false} TotalWithout<K, V>(m: map<K, V>, w: V -> int, k: K)
    requires k in m
    ensures Total(m, w) == w(m[k]) + Total(m - {k}, w)
    decreases m.Keys
  {
    var c :| c in m && Total(m, w) == w(m[c]) + Total(m - {c}, w);
    if c == k {
    } else {
      TotalWithout(m - {c}, w, k);
      TotalWithout(m - {k}, w, c);
      assert m - {c} - {k} == m - {k} - {c};
    }
  }

  lemma TotalPut<K, V>(m: map<K, V>, w: V -> int, k: K, v: V)
    ensures Total(m[k := v], w) == Total(m, w) - (if k in m then w(m[k]) else 0) + w(v)
  {
    TotalWithout(m[k := v], w, k);
    if k in m {
      TotalWithout(m, w, k);
      assert m[k := v] - {k} == m - {k};
    } else {
      assert m[k := v] - {k} == m;
    }
  }

  lemma {:induction false} TotalAtMost<K, V>(m: map<K, V>, w: V -> int, n: map<K, V>, v: V -> int)
    requires m.Keys == n.Keys && forall k :: k in m ==> w(m[k]) <= v(n[k])
    ensures Total(m, w) <= Total(n, v)
    decreases m.Keys
  {
    if m == map[] {
      assert n == map[];
    } else {
      var k :| k in m;
      TotalWithout(m, w, k);
      TotalWithout(n, v, k);
      TotalAtMost(m - {k}, w, n - {k}, v);
    }
  }

  lemma TotalSame<K, V>(m: map<K, V>, w: V -> int, n: map<K, V>, v: V -> int)
    requires m.Keys == n.Keys && forall k :: k in m ==> w(m[k]) == v(n[k])
    ensures Total(m, w) == Total(n, v)
  {
    TotalAtMost(m, w, n, v);
    TotalAtMost(n, v, m, w);
  }

  lemma TotalZero<K, V>(m: map<K, V>, w: V -> int)
    requires forall k :: k in m ==> w(m[k]) == 0
    ensures Total(m, w) == 0
    decreases m.Keys
  {
    if m == map[] {
    } else {
      var k :| k in m;
      TotalWithout(m, w, k);
      TotalZero(m - {k}, w);
    }
  }

  lemma TotalNotNegative<K, V>(m: map<K, V>, w: V -> int)
    requires forall k :: k in m ==> 0 <= w(m[k])
    ensures 0 <= Total(m, w)
    decreases m.Keys
  {
    if m == map[] {
    } else {
      var k :| k in m;
      TotalWithout(m, w, k);
      TotalNotNegative(m - {k}, w);
    }
  }

  // With no negative weights, no row weighs more than the whole table.
  lemma TotalCovers<K, V>(m: map<K, V>, w: V -> int, k: K)
    requires k in m && forall i :: i in m ==> 0 <= w(m[i])
    ensures 0 <= w(m[k]) <= Total(m, w)
  {
    TotalWithout(m, w, k);
    TotalNotNegative(m - {k}, w);
  }

  // Rewriting the rows of a table: what the rows in `part` give up is what the total loses.
  lemma {:induction false} TotalRewrite<K, V>(m: map<K, V>, n: map<K, V>, part: map<K, V>, w: V -> int, v: V -> int)
    requires m.Keys == n.Keys && part.Keys <= m.Keys
    requires forall k :: k in part ==> part[k] == m[k] && w(n[k]) == w(m[k]) - v(m[k])
    requires forall k :: k in m && k !in part ==> w(n[k]) == w(m[k])
    ensures Total(n, w) == Total(m, w) - Total(part, v)
    decreases m.Keys
  {
    if m == map[] {
      assert part == map[] && n == map[];
    } else {
      var k :| k in m;
      TotalWithout(m, w, k);
      TotalWithout(n, w, k);
      if k in part {
        TotalWithout(part, v, k);
        TotalRewrite(m - {k}, n - {k}, part - {k}, w, v);
      } else {
        TotalRewrite(m - {k}, n - {k}, part, w, v);
      }
    }
  }

  // Two tables whose rows correspond one to one, with equal weights, have equal totals.
  lemma {:induction false} TotalAcross<K, V, L, U>(m: map<K, V>, w: V -> int, n: map<L, U>, v: U -> int, to: map<K, L>)
    requires to.Keys == m.Keys
    requires forall k :: k in m ==> to[k] in n && w(m[k]) == v(n[to[k]])
    requires forall i, j :: i in m && j in m && to[i] == to[j] ==> i == j
    requires forall l :: l in n && v(n[l]) != 0 ==> exists k :: k in m && to[k] == l
    ensures Total(m, w) == Total(n, v)
    decreases m.Keys
  {
    if m == map[] {
      TotalZero(n, v);
    } else {
      var k :| k in m;
      TotalWithout(m, w, k);
      TotalWithout(n, v, to[k]);
      forall l | l in n - {to[k]} && v((n - {to[k]})[l]) != 0
        ensures exists i :: i in m - {k} && (to - {k})[i] == l
      {
        var i :| i in m && to[i] == l;
        assert i in m - {k} && (to - {k})[i] == l;
      }
      TotalAcross(m - {k}, w, n - {to[k]}, v, to - {k});
    }
  }

  ghost predicate Distinct<K>(ids: seq<K>) {
    forall i, j :: 0 <= i < j < |ids| ==> ids[i] != ids[j]
  }

  ghost function Listed<K(!new), V>(m: map<K, V>, ids: seq<K>): map<K, V> {
    map k | k in m && k in ids :: m[k]
  }

  // The running sum of a loop over listed rows is the total over the set of rows listed.
  lemma TotalNextListed<K(!new), V>(m: map<K, V>, ids: seq<K>, w: V -> int, n: nat)
    requires Distinct(ids) && n < |ids| && ids[n] in m
    ensures Total(Listed(m, ids[..n + 1]), w) == Total(Listed(m, ids[..n]), w) + w(m[ids[n]])
  {
    var more := Listed(m, ids[..n + 1]);
    assert ids[..n + 1] == ids[..n] + [ids[n]];
    assert ids[n] in ids[..n + 1];
    TotalWithout(more, w, ids[n]);
    assert more - {ids[n]} == Listed(m, ids[..n]);
  }
}
