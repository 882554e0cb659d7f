/**
 * Binding graphs as values. A graph `g` maps every node to the producers its
 * bindings point at, in binding order; `rank` strictly decreases from consumer
 * to producer, which is what makes the graph acyclic. Depths are measured from
 * a root along binding edges, so a node's depth is the length of the LONGEST
 * binding path from the root to it.
 *
 * This module also states what the recursive discovery step of the scheduler
 * computes (`Relax`) and the invariant that makes its pruning sound (`Settled`).
 */
module Dag {

  function Max(a: int, b: int): int
  {
    if a < b then b else a
  }

  /** Every producer is a node of the graph and ranks strictly below its consumer. */
  ghost predicate IsDag<N>(g: map<N, seq<N>>, rank: map<N, nat>)
  {
    && g.Keys <= rank.Keys
    && forall n, i :: n in g && 0 <= i < |g[n]| ==> g[n][i] in g && rank[g[n][i]] < rank[n]
  }

  /** Every node of `ps` is in the graph and ranks below `bound`. */
  ghost predicate Below<N>(g: map<N, seq<N>>, rank: map<N, nat>, ps: seq<N>, bound: nat)
  {
    forall p :: p in ps ==> p in g && p in rank && rank[p] < bound
  }

  lemma ProducersBelow<N>(g: map<N, seq<N>>, rank: map<N, nat>, n: N)
    requires IsDag(g, rank) && n in g
    ensures Below(g, rank, g[n], rank[n])
  {
    forall p | p in g[n] ensures p in g && p in rank && rank[p] < rank[n] {
      var i :| 0 <= i < |g[n]| && g[n][i] == p;
    }
  }

  lemma PrefixBelow<N>(g: map<N, seq<N>>, rank: map<N, nat>, ps: seq<N>, bound: nat, k: nat)
    requires Below(g, rank, ps, bound) && k <= |ps|
    ensures Below(g, rank, ps[..k], bound)
  {
    forall p | p in ps[..k] ensures p in g && p in rank && rank[p] < bound {
      var i :| 0 <= i < k && ps[..k][i] == p;
      assert ps[i] == p;
    }
  }

  /**
   * The length of the longest binding path from `n` to `m`, or -1 when `m` is
   * not reachable from `n`.
   */
  ghost function Longest<N>(g: map<N, seq<N>>, rank: map<N, nat>, n: N, m: N): (r: int)
    requires IsDag(g, rank) && n in g
    ensures -1 <= r
    decreases rank[n], 1
  {
    ProducersBelow(g, rank, n);
    var l := LongestAmong(g, rank, g[n], m, rank[n]);
    Max(if n == m then 0 else -1, if l < 0 then -1 else l + 1)
  }

  /** The longest path to `m` starting at any node of `ps`, or -1 when there is none. */
  ghost function LongestAmong<N>(g: map<N, seq<N>>, rank: map<N, nat>, ps: seq<N>, m: N, bound: nat): (r: int)
    requires IsDag(g, rank) && Below(g, rank, ps, bound)
    ensures -1 <= r
    decreases bound, 0, |ps|
  {
    if ps == [] then -1
    else
      PrefixBelow(g, rank, ps, bound, |ps| - 1);
      Max(LongestAmong(g, rank, ps[..|ps| - 1], m, bound), Longest(g, rank, ps[|ps| - 1], m))
  }

  /** The nodes reachable from `n` by following bindings, `n` included. */
  ghost function Reach<N>(g: map<N, seq<N>>, rank: map<N, nat>, n: N): (r: set<N>)
    requires IsDag(g, rank) && n in g
    ensures n in r && r <= g.Keys
  {
    set m | m in g.Keys && Longest(g, rank, n, m) >= 0
  }

  lemma {:induction false} AmongAtLeast<N>(g: map<N, seq<N>>, rank: map<N, nat>, ps: seq<N>, m: N, bound: nat, j: nat)
    requires IsDag(g, rank) && Below(g, rank, ps, bound) && j < |ps|
    ensures LongestAmong(g, rank, ps, m, bound) >= Longest(g, rank, ps[j], m)
    decreases |ps|
  {
    PrefixBelow(g, rank, ps, bound, |ps| - 1);
    if j < |ps| - 1 {
      AmongAtLeast(g, rank, ps[..|ps| - 1], m, bound, j);
    }
  }

  lemma {:induction false} AmongWitness<N>(g: map<N, seq<N>>, rank: map<N, nat>, ps: seq<N>, m: N, bound: nat) returns (j: nat)
    requires IsDag(g, rank) && Below(g, rank, ps, bound)
    requires LongestAmong(g, rank, ps, m, bound) >= 0
    ensures j < |ps| && Longest(g, rank, ps[j], m) == LongestAmong(g, rank, ps, m, bound)
    decreases |ps|
  {
    PrefixBelow(g, rank, ps, bound, |ps| - 1);
    var front := ps[..|ps| - 1];
    if LongestAmong(g, rank, front, m, bound) >= Longest(g, rank, ps[|ps| - 1], m) {
      j := AmongWitness(g, rank, front, m, bound);
    } else {
      j := |ps| - 1;
    }
  }

  /** Only nodes of lower rank are reachable, and depth 0 is the start node alone. */
  lemma {:induction false} LongestRank<N>(g: map<N, seq<N>>, rank: map<N, nat>, n: N, m: N)
    requires IsDag(g, rank) && n in g
    ensures Longest(g, rank, n, m) >= 0 ==> m in g && rank[m] <= rank[n]
    ensures Longest(g, rank, n, m) > 0 ==> m in g && rank[m] < rank[n]
    ensures Longest(g, rank, n, m) == 0 <==> m == n
    decreases rank[n], 1
  {
    ProducersBelow(g, rank, n);
    AmongRank(g, rank, g[n], m, rank[n]);
  }

  lemma {:induction false} AmongRank<N>(g: map<N, seq<N>>, rank: map<N, nat>, ps: seq<N>, m: N, bound: nat)
    requires IsDag(g, rank) && Below(g, rank, ps, bound)
    ensures LongestAmong(g, rank, ps, m, bound) >= 0 ==> m in g && rank[m] < bound
    decreases bound, 0, |ps|
  {
    if LongestAmong(g, rank, ps, m, bound) >= 0 {
      var j := AmongWitness(g, rank, ps, m, bound);
      LongestRank(g, rank, ps[j], m);
    }
  }

  lemma LongestSelf<N>(g: map<N, seq<N>>, rank: map<N, nat>, n: N)
    requires IsDag(g, rank) && n in g
    ensures Longest(g, rank, n, n) == 0
  {
    LongestRank(g, rank, n, n);
  }

  /** Whatever a producer of `n` reaches, `n` reaches by a path one edge longer. */
  lemma ProducerDeeper<N>(g: map<N, seq<N>>, rank: map<N, nat>, n: N, j: nat, m: N)
    requires IsDag(g, rank) && n in g && j < |g[n]|
    ensures Longest(g, rank, g[n][j], m) >= 0 ==> Longest(g, rank, n, m) >= Longest(g, rank, g[n][j], m) + 1
    ensures Reach(g, rank, g[n][j]) <= Reach(g, rank, n) - {n}
  {
    ProducersBelow(g, rank, n);
    forall x ensures Longest(g, rank, g[n][j], x) >= 0 ==> Longest(g, rank, n, x) >= Longest(g, rank, g[n][j], x) + 1 {
      AmongAtLeast(g, rank, g[n], x, rank[n], j);
    }
    forall x | x in Reach(g, rank, g[n][j]) ensures x != n {
      LongestRank(g, rank, g[n][j], x);
    }
  }

  /**
   * Depth strictly increases from consumer to producer: every producer of a
   * node reachable from `n` is strictly farther from `n` along its longest path.
   */
  lemma {:induction false} LongestEdge<N>(g: map<N, seq<N>>, rank: map<N, nat>, n: N, m: N, j: nat)
    requires IsDag(g, rank) && n in g && m in Reach(g, rank, n) && j < |g[m]|
    ensures Longest(g, rank, n, g[m][j]) >= Longest(g, rank, n, m) + 1
    decreases rank[n]
  {
    var p := g[m][j];
    LongestSelf(g, rank, p);
    ProducersBelow(g, rank, n);
    if m == n {
      LongestSelf(g, rank, n);
      AmongAtLeast(g, rank, g[n], p, rank[n], j);
    } else {
      var k := AmongWitness(g, rank, g[n], m, rank[n]);
      var q := g[n][k];
      LongestEdge(g, rank, q, m, j);
      AmongAtLeast(g, rank, g[n], p, rank[n], k);
    }
  }

  /** A non-empty sequence of nodes in which each next node is a producer of the one before. */
  ghost predicate IsPath<N>(g: map<N, seq<N>>, p: seq<N>)
  {
    && |p| >= 1
    && (forall i :: 0 <= i < |p| ==> p[i] in g)
    && (forall i :: 0 <= i < |p| - 1 ==> p[i + 1] in g[p[i]])
  }

  /** No binding path from `p[0]` to its last node is longer than `Longest`. */
  lemma {:induction false} PathBound<N>(g: map<N, seq<N>>, rank: map<N, nat>, p: seq<N>)
    requires IsDag(g, rank) && IsPath(g, p)
    ensures Longest(g, rank, p[0], p[|p| - 1]) >= |p| - 1
    decreases |p|
  {
    if |p| > 1 {
      var tail := p[1..];
      assert forall i :: 0 <= i < |tail| ==> tail[i] == p[i + 1];
      PathBound(g, rank, tail);
      var j :| 0 <= j < |g[p[0]]| && g[p[0]][j] == p[1];
      ProducerDeeper(g, rank, p[0], j, p[|p| - 1]);
    }
  }

  /** There is a binding path whose length is exactly `Longest`. */
  lemma {:induction false} LongestPath<N>(g: map<N, seq<N>>, rank: map<N, nat>, n: N, m: N) returns (p: seq<N>)
    requires IsDag(g, rank) && n in g && Longest(g, rank, n, m) >= 0
    ensures IsPath(g, p) && p[0] == n && p[|p| - 1] == m && |p| - 1 == Longest(g, rank, n, m)
    decreases rank[n]
  {
    ProducersBelow(g, rank, n);
    LongestRank(g, rank, n, m);
    if LongestAmong(g, rank, g[n], m, rank[n]) < 0 {
      p := [n];
    } else {
      var k := AmongWitness(g, rank, g[n], m, rank[n]);
      var rest := LongestPath(g, rank, g[n][k], m);
      p := [n] + rest;
      assert forall i :: 1 <= i < |p| ==> p[i] == rest[i - 1];
    }
  }

  /** Reachability and paths agree: `Reach` holds exactly the ends of binding paths from `n`. */
  lemma ReachByPath<N>(g: map<N, seq<N>>, rank: map<N, nat>, n: N, m: N)
    requires IsDag(g, rank) && n in g
    ensures m in Reach(g, rank, n) <==> exists p :: IsPath(g, p) && p[0] == n && p[|p| - 1] == m
  {
    if m in Reach(g, rank, n) {
      var p := LongestPath(g, rank, n, m);
    }
    if exists p :: IsPath(g, p) && p[0] == n && p[|p| - 1] == m {
      var p :| IsPath(g, p) && p[0] == n && p[|p| - 1] == m;
      PathBound(g, rank, p);
    }
  }

  // ---------------------------------------------------------------------------
  // Discovery: what the recursive depth labelling computes.

  /** The depth kept for `m` when `v` is proposed: the larger of the recorded and the proposed one. */
  function Join<N>(dm: map<N, nat>, m: N, v: nat): nat
  {
    if m in dm then Max(dm[m], v) else v
  }

  /**
   * The depth map after proposing depth `d` for `n`: every node reachable from
   * `n` is recorded with at least `d` plus its longest distance from `n`, and
   * nothing else changes.
   */
  ghost function Relax<N>(g: map<N, seq<N>>, rank: map<N, nat>, dm: map<N, nat>, n: N, d: nat): map<N, nat>
    requires IsDag(g, rank) && n in g
  {
    var r := Reach(g, rank, n);
    map m | m in dm.Keys + r :: if m in r then Join(dm, m, d + Longest(g, rank, n, m)) else dm[m]
  }

  /** The recorded depths below `x` are consistent with the one recorded for `x`. */
  ghost predicate Settled<N>(g: map<N, seq<N>>, rank: map<N, nat>, dm: map<N, nat>, x: N)
    requires IsDag(g, rank) && x in g
  {
    x in dm ==>
      forall m :: m in Reach(g, rank, x) ==> m in dm && dm[m] >= dm[x] + Longest(g, rank, x, m)
  }

  /** Every recorded node reachable from `n` is settled. */
  ghost predicate SettledBelow<N>(g: map<N, seq<N>>, rank: map<N, nat>, dm: map<N, nat>, n: N)
    requires IsDag(g, rank) && n in g
  {
    forall x :: x in dm && x in Reach(g, rank, n) ==> Settled(g, rank, dm, x)
  }

  /** Every recorded node reachable from `n`, other than `n` itself, is settled. */
  ghost predicate SettledStrictlyBelow<N>(g: map<N, seq<N>>, rank: map<N, nat>, dm: map<N, nat>, n: N)
    requires IsDag(g, rank) && n in g
  {
    forall x :: x in dm && x in Reach(g, rank, n) && x != n ==> Settled(g, rank, dm, x)
  }

  /**
   * `dm` is `base` after proposing depth `e` for each node of `ps` in turn:
   * the pointwise form of a sequence of `Relax` steps.
   */
  ghost predicate RelaxedBy<N>(g: map<N, seq<N>>, rank: map<N, nat>, dm: map<N, nat>, base: map<N, nat>,
                               ps: seq<N>, e: nat, bound: nat)
    requires IsDag(g, rank) && Below(g, rank, ps, bound)
  {
    && base.Keys <= dm.Keys
    && (forall m :: m in g && LongestAmong(g, rank, ps, m, bound) >= 0 ==> m in dm)
    && (forall m :: m in dm ==> m in base || LongestAmong(g, rank, ps, m, bound) >= 0)
    && (forall m :: m in dm ==>
          var l := LongestAmong(g, rank, ps, m, bound);
          dm[m] == if l >= 0 then Join(base, m, e + l) else base[m])
  }

  lemma SettledMono<N>(g: map<N, seq<N>>, rank: map<N, nat>, dm: map<N, nat>, dm': map<N, nat>, x: N)
    requires IsDag(g, rank) && x in g && Settled(g, rank, dm, x)
    requires dm.Keys <= dm'.Keys && forall m :: m in dm ==> dm'[m] >= dm[m]
    requires x in dm ==> dm'[x] == dm[x]
    requires x !in dm ==> x !in dm'
    ensures Settled(g, rank, dm', x)
  {
  }

  /** Recording a depth for `n` that is not smaller keeps strictly-below nodes settled. */
  lemma SettledEntry<N>(g: map<N, seq<N>>, rank: map<N, nat>, dm: map<N, nat>, n: N, d: nat)
    requires IsDag(g, rank) && n in g && SettledBelow(g, rank, dm, n)
    requires n in dm ==> dm[n] <= d
    ensures SettledStrictlyBelow(g, rank, dm[n := d], n)
  {
    forall x | x in dm[n := d] && x in Reach(g, rank, n) && x != n
      ensures Settled(g, rank, dm[n := d], x)
    {
      SettledMono(g, rank, dm, dm[n := d], x);
    }
  }

  /** Before the `j`-th producer is visited, everything it reaches is settled. */
  lemma SettledForProducer<N>(g: map<N, seq<N>>, rank: map<N, nat>, dm: map<N, nat>, n: N, j: nat)
    requires IsDag(g, rank) && n in g && j < |g[n]| && SettledStrictlyBelow(g, rank, dm, n)
    ensures SettledBelow(g, rank, dm, g[n][j])
  {
    ProducerDeeper(g, rank, n, j, n);
  }

  /** After the `j`-th producer is visited, strictly-below nodes are still settled. */
  lemma SettledAfterProducer<N>(g: map<N, seq<N>>, rank: map<N, nat>, dm: map<N, nat>, dm': map<N, nat>,
                                n: N, j: nat, e: nat)
    requires IsDag(g, rank) && n in g && j < |g[n]| && SettledStrictlyBelow(g, rank, dm, n)
    requires dm' == Relax(g, rank, dm, g[n][j], e) && SettledBelow(g, rank, dm', g[n][j])
    ensures SettledStrictlyBelow(g, rank, dm', n)
  {
    var p := g[n][j];
    forall x | x in dm' && x in Reach(g, rank, n) && x != n ensures Settled(g, rank, dm', x) {
      if x !in Reach(g, rank, p) {
        SettledMono(g, rank, dm, dm', x);
      }
    }
  }

  /**
   * A proposed depth not above the recorded, settled one changes nothing: the
   * walk may stop there, and descending again on an equal depth leaves the
   * depth map as it was.
   */
  lemma RelaxPrune<N>(g: map<N, seq<N>>, rank: map<N, nat>, dm: map<N, nat>, n: N, d: nat)
    requires IsDag(g, rank) && n in g && n in dm && d <= dm[n] && Settled(g, rank, dm, n)
    ensures Relax(g, rank, dm, n, d) == dm
  {
    var r := Relax(g, rank, dm, n, d);
    assert r.Keys == dm.Keys;
  }

  /** Recording `d` for `n` and then relaxing its producers one by one relaxes `n`. */
  lemma RelaxStep<N>(g: map<N, seq<N>>, rank: map<N, nat>, dm: map<N, nat>, base: map<N, nat>,
                     ps: seq<N>, e: nat, bound: nat)
    requires IsDag(g, rank) && Below(g, rank, ps, bound) && |ps| > 0
    requires Below(g, rank, ps[..|ps| - 1], bound)
    requires RelaxedBy(g, rank, dm, base, ps[..|ps| - 1], e, bound)
    ensures RelaxedBy(g, rank, Relax(g, rank, dm, ps[|ps| - 1], e), base, ps, e, bound)
  {
    var front, last := ps[..|ps| - 1], ps[|ps| - 1];
    var r := Relax(g, rank, dm, last, e);
    forall m ensures LongestAmong(g, rank, ps, m, bound)
                     == Max(LongestAmong(g, rank, front, m, bound), Longest(g, rank, last, m)) {
    }
    forall m | m in r
      ensures var l := LongestAmong(g, rank, ps, m, bound);
              r[m] == if l >= 0 then Join(base, m, e + l) else base[m]
    {
      var a, b := LongestAmong(g, rank, front, m, bound), Longest(g, rank, last, m);
      LongestRank(g, rank, last, m);
      if b >= 0 {
        assert m in Reach(g, rank, last);
        assert r[m] == Join(dm, m, e + b);
      } else {
        assert m !in Reach(g, rank, last);
        assert r[m] == dm[m];
      }
    }
  }

  /** One turn of the producer loop: visiting the `j`-th producer at depth `e` extends both loop facts by it. */
  lemma VisitProducer<N>(g: map<N, seq<N>>, rank: map<N, nat>, dm: map<N, nat>, dm': map<N, nat>,
                         base: map<N, nat>, n: N, j: nat, e: nat)
    requires IsDag(g, rank) && n in g && j < |g[n]|
    requires RelaxedBy(g, rank, dm, base, g[n][..j], e, rank[n])
    requires SettledStrictlyBelow(g, rank, dm, n)
    requires dm' == Relax(g, rank, dm, g[n][j], e) && SettledBelow(g, rank, dm', g[n][j])
    ensures RelaxedBy(g, rank, dm', base, g[n][..j + 1], e, rank[n])
    ensures SettledStrictlyBelow(g, rank, dm', n)
  {
    var ps := g[n][..j + 1];
    SettledAfterProducer(g, rank, dm, dm', n, j, e);
    ProducersBelow(g, rank, n);
    PrefixBelow(g, rank, g[n], rank[n], j + 1);
    assert ps[..j] == g[n][..j];
    PrefixBelow(g, rank, ps, rank[n], j);
    RelaxStep(g, rank, dm, base, ps, e, rank[n]);
  }

  lemma RelaxComplete<N>(g: map<N, seq<N>>, rank: map<N, nat>, dm: map<N, nat>, n: N, d: nat, res: map<N, nat>)
    requires IsDag(g, rank) && n in g && (n in dm ==> dm[n] <= d)
    requires Below(g, rank, g[n], rank[n])
    requires RelaxedBy(g, rank, res, dm[n := d], g[n], d + 1, rank[n])
    ensures res == Relax(g, rank, dm, n, d)
    ensures SettledStrictlyBelow(g, rank, res, n) ==> SettledBelow(g, rank, res, n)
  {
    var r := Relax(g, rank, dm, n, d);
    AmongRank(g, rank, g[n], n, rank[n]);
    LongestSelf(g, rank, n);
    forall m ensures m in Reach(g, rank, n) <==> m == n || (m in g && LongestAmong(g, rank, g[n], m, rank[n]) >= 0)
      ensures LongestAmong(g, rank, g[n], m, rank[n]) >= 0 ==> m in g
    {
      LongestRank(g, rank, n, m);
      AmongRank(g, rank, g[n], m, rank[n]);
    }
    assert res.Keys == r.Keys;
    forall m | m in res ensures res[m] == r[m] {
      LongestRank(g, rank, n, m);
    }
  }

  /** Starting from an empty depth map, relaxing the root records exactly the reachable nodes at their longest distance. */
  lemma RelaxFromEmpty<N>(g: map<N, seq<N>>, rank: map<N, nat>, root: N)
    requires IsDag(g, rank) && root in g
    ensures Relax(g, rank, map[], root, 0).Keys == Reach(g, rank, root)
    ensures forall m :: m in Reach(g, rank, root) ==> Relax(g, rank, map[], root, 0)[m] == Longest(g, rank, root, m)
  {
  }

  // ---------------------------------------------------------------------------
  // Ordering: a sort by non-increasing depth is a topological order.

  /**
   * If every entry of `q` is a reachable node paired with its depth, the root is
   * among them and `q` is sorted by non-increasing depth, then every producer
   * comes before each of its consumers and the root comes last.
   */
  lemma TopologicalOrder<N>(g: map<N, seq<N>>, rank: map<N, nat>, root: N, q: seq<(N, nat)>)
    requires IsDag(g, rank) && root in g
    requires forall k :: 0 <= k < |q| ==> q[k].0 in Reach(g, rank, root) && q[k].1 == Longest(g, rank, root, q[k].0)
    requires exists k :: 0 <= k < |q| && q[k].0 == root
    requires forall k, l :: 0 <= k < l < |q| ==> q[k].1 >= q[l].1
    ensures forall k, l :: 0 <= k < |q| && 0 <= l < |q| && q[k].0 in g && q[l].0 in g[q[k].0] ==> l < k
    ensures |q| > 0 && q[|q| - 1].0 == root
  {
    forall k, l | 0 <= k < |q| && 0 <= l < |q| && q[k].0 in g && q[l].0 in g[q[k].0] ensures l < k {
      var j :| 0 <= j < |g[q[k].0]| && g[q[k].0][j] == q[l].0;
      LongestEdge(g, rank, root, q[k].0, j);
    }
    var last := |q| - 1;
    LongestSelf(g, rank, root);
    LongestRank(g, rank, root, q[last].0);
  }
}
