/** `ORDER BY ... LIMIT n` over a set of row keys.

    A rank is a pair compared lexicographically (rows ordered by one column use 0 as the second
    part).  Rows of equal rank may come in any order, as in SQL. */
module Sql {
  type Rank = (int, int)

  predicate RankLe(a: Rank, b: Rank) {
    a.0 < b.0 || (a.0 == b.0 && a.1 <= b.1)
  }

  ghost predicate Distinct<K>(s: seq<K>) {
    forall i, j | 0 <= i < j < |s| :: s[i] != s[j]
  }

  /** `chosen` is a possible answer to `SELECT ... ORDER BY rank LIMIT limit` over `all`. */
  ghost predicate FirstByRank<K>(all: set<K>, rank: map<K, Rank>, limit: nat, chosen: seq<K>)
    requires all <= rank.Keys
  {
    && |chosen| == (if |all| < limit then |all| else limit)
    && Distinct(chosen)
    && (forall k | k in chosen :: k in all)
    && (forall i, j | 0 <= i < j < |chosen| :: RankLe(rank[chosen[i]], rank[chosen[j]]))
    && (forall k, other | k in chosen && other in all && other !in chosen :: RankLe(rank[k], rank[other]))
  }

  function Elements<K(==)>(s: seq<K>): set<K> {
    set k | k in s
  }

  lemma {:induction false} DistinctSize<K>(s: seq<K>)
    requires Distinct(s)
    ensures |Elements(s)| == |s|
  {
    if s != [] {
      var init, last := s[..|s| - 1], s[|s| - 1];
      DistinctSize(init);
      assert Elements(s) == Elements(init) + {last};
    }
  }

  /** When the whole set fits under the limit, all of it is chosen. */
  lemma AllChosen<K>(all: set<K>, rank: map<K, Rank>, limit: nat, chosen: seq<K>)
    requires all <= rank.Keys && FirstByRank(all, rank, limit, chosen)
    requires |all| <= limit
    ensures Elements(chosen) == all
  {
    DistinctSize(chosen);
    var c := Elements(chosen);
    assert c <= all;
    if c != all {
      SubsetSize(c, all);
    }
  }

  lemma {:induction false} SubsetSize<K>(a: set<K>, b: set<K>)
    requires a < b
    ensures |a| < |b|
  {
    assert b == a + (b - a);
    assert |b| == |a| + |b - a|;
  }

  lemma SubsetSizeLe<K>(a: set<K>, b: set<K>)
    requires a <= b
    ensures |a| <= |b|
    ensures |b - a| == |b| - |a|
  {
    assert b == a + (b - a);
  }

  method Least<K(==)>(all: set<K>, rank: map<K, Rank>) returns (least: K)
    requires all != {} && all <= rank.Keys
    ensures least in all && forall k | k in all :: RankLe(rank[least], rank[k])
  {
    least :| least in all;
    var rest := all - {least};
    while rest != {}
      invariant rest <= all && least in all
      invariant forall k | k in all && k !in rest :: RankLe(rank[least], rank[k])
      decreases rest
    {
      var k :| k in rest;
      if !RankLe(rank[least], rank[k]) { least := k; }
      rest := rest - {k};
    }
  }

  /** Runs the query by taking the least remaining row until the limit is reached. */
  method SelectFirst<K(==)>(all: set<K>, rank: map<K, Rank>, limit: nat) returns (chosen: seq<K>)
    requires all <= rank.Keys
    ensures FirstByRank(all, rank, limit, chosen)
  {
    chosen := [];
    var rest := all;
    while |chosen| < limit && rest != {}
      invariant rest <= all && |chosen| + |rest| == |all| && |chosen| <= limit
      invariant Distinct(chosen)
      invariant forall k | k in chosen :: k in all && k !in rest
      invariant forall k | k in all && k !in chosen :: k in rest
      invariant forall i, j | 0 <= i < j < |chosen| :: RankLe(rank[chosen[i]], rank[chosen[j]])
      invariant forall k, other | k in chosen && other in rest :: RankLe(rank[k], rank[other])
      decreases rest
    {
      var k := Least(rest, rank);
      chosen := chosen + [k];
      rest := rest - {k};
    }
  }

  /** Any `limit` rows of `all`: a LIMIT without an order. */
  ghost predicate AnyUpTo<K>(all: set<K>, limit: nat, chosen: set<K>) {
    chosen <= all && |chosen| == (if |all| < limit then |all| else limit)
  }

  method SelectAny<K(==)>(all: set<K>, limit: nat) returns (chosen: set<K>)
    ensures AnyUpTo(all, limit, chosen)
  {
    chosen := {};
    var rest := all;
    while |chosen| < limit && rest != {}
      invariant chosen !! rest && chosen + rest == all && |chosen| <= limit
      decreases rest
    {
      var k :| k in rest;
      chosen := chosen + {k};
      rest := rest - {k};
    }
    assert |all| == |chosen| + |rest|;
  }
}
