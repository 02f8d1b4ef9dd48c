/**
 * The dependency graph of a plan, seen two ways: through its chains and cycles (the
 * reference), and through the levels that a wave scheduler computes.
 *
 * A graph maps each step id to the ids it waits for.  Ids that are not keys of the graph
 * are not part of the plan and never matter.
 */
module Graph {
  import opened Numbers

  type Graph = map<string, set<string>>

  // ----- Reference notions: chains, cycles, longest chains -----

  /** Each element waits for the one before it. */
  ghost predicate IsChain(g: Graph, c: seq<string>) {
    && (forall i :: 0 <= i < |c| ==> c[i] in g)
    && (forall i :: 0 < i < |c| ==> c[i - 1] in g[c[i]])
  }

  /** A chain of dependencies that ends in `s`. */
  ghost predicate ChainTo(g: Graph, c: seq<string>, s: string) {
    c != [] && IsChain(g, c) && c[|c| - 1] == s
  }

  /** A chain whose first element waits for its last; a self-dependency is a cycle of length one. */
  ghost predicate IsCycle(g: Graph, c: seq<string>) {
    c != [] && IsChain(g, c) && c[|c| - 1] in g[c[0]]
  }

  ghost predicate Cyclic(g: Graph) {
    exists c :: IsCycle(g, c)
  }

  ghost predicate OnCycle(g: Graph, s: string) {
    exists c :: IsCycle(g, c) && c[0] == s
  }

  /** `s` lies on a cycle or waits, directly or not, for a step on a cycle. */
  ghost predicate Blocked(g: Graph, s: string) {
    exists c :: ChainTo(g, c, s) && OnCycle(g, c[0])
  }

  /** The longest dependency chain that ends in `s` has exactly `n` elements. */
  ghost predicate LongestChain(g: Graph, s: string, n: nat) {
    && (exists c :: ChainTo(g, c, s) && |c| == n)
    && (forall c :: ChainTo(g, c, s) ==> |c| <= n)
  }

  // ----- Levels -----

  /** The ids finished after `k` waves: those that wait only for ids finished a wave earlier. */
  ghost function Level(g: Graph, k: nat): set<string> {
    if k == 0 then {} else set s | s in g && g[s] * g.Keys <= Level(g, k - 1)
  }

  lemma {:induction false} LevelsGrow(g: Graph, k: nat)
    ensures Level(g, k) <= Level(g, k + 1) <= g.Keys
  {
    if k > 0 {
      LevelsGrow(g, k - 1);
    }
  }

  lemma {:induction false} LevelsGrowTo(g: Graph, k: nat, m: nat)
    requires k <= m
    ensures Level(g, k) <= Level(g, m)
    decreases m - k
  {
    if k < m {
      LevelsGrow(g, k);
      LevelsGrowTo(g, k + 1, m);
    }
  }

  lemma ChainPrefix(g: Graph, c: seq<string>, s: string)
    requires ChainTo(g, c, s) && |c| > 1
    ensures ChainTo(g, c[..|c| - 1], c[|c| - 2]) && c[|c| - 2] in g[s] * g.Keys
  {
    var p := c[..|c| - 1];
    assert forall i :: 0 <= i < |p| ==> p[i] == c[i];
    assert c[|c| - 1 - 1] in g[c[|c| - 1]];
  }

  lemma ChainExtend(g: Graph, c: seq<string>, d: string, s: string)
    requires ChainTo(g, c, d) && s in g && d in g[s]
    ensures ChainTo(g, c + [s], s)
  {
    var e := c + [s];
    forall i | 0 < i < |e| ensures e[i - 1] in g[e[i]] {
      if i < |c| {
        assert c[i - 1] in g[c[i]];
      }
    }
  }

  /** A step is finished after `k` waves exactly when no chain ending in it is longer than `k`. */
  lemma {:induction false} LevelIsChainBound(g: Graph, k: nat, s: string)
    requires s in g
    ensures s in Level(g, k) <==> forall c :: ChainTo(g, c, s) ==> |c| <= k
  {
    if k == 0 {
      assert ChainTo(g, [s], s);
    } else {
      if s in Level(g, k) {
        forall c | ChainTo(g, c, s) ensures |c| <= k {
          if |c| > 1 {
            ChainPrefix(g, c, s);
            LevelIsChainBound(g, k - 1, c[|c| - 2]);
          }
        }
      }
      if forall c :: ChainTo(g, c, s) ==> |c| <= k {
        forall d | d in g[s] * g.Keys ensures d in Level(g, k - 1) {
          forall c | ChainTo(g, c, d) ensures |c| <= k - 1 {
            ChainExtend(g, c, d, s);
          }
          LevelIsChainBound(g, k - 1, d);
        }
      }
    }
  }

  /** The wave in which a step runs is the length of its longest dependency chain. */
  lemma WaveIsLongestChain(g: Graph, s: string, k: nat)
    requires s in g
    ensures s in Level(g, k + 1) - Level(g, k) <==> LongestChain(g, s, k + 1)
  {
    LevelIsChainBound(g, k, s);
    LevelIsChainBound(g, k + 1, s);
  }

  lemma LongestChainUnique(g: Graph, s: string, m: nat, n: nat)
    requires LongestChain(g, s, m) && LongestChain(g, s, n)
    ensures m == n
  {
  }

  // ----- Cycles never become ready -----

  lemma {:induction false} CycleNeverReady(g: Graph, c: seq<string>, i: nat, k: nat)
    requires IsCycle(g, c) && i < |c|
    ensures c[i] !in Level(g, k)
    decreases k
  {
    if k > 0 {
      var p := if i == 0 then |c| - 1 else i - 1;
      assert c[p] in g[c[i]] * g.Keys;
      CycleNeverReady(g, c, p, k - 1);
    }
  }

  lemma {:induction false} BehindCycleNeverReady(g: Graph, c: seq<string>, i: nat, k: nat)
    requires IsChain(g, c) && i < |c| && OnCycle(g, c[0])
    ensures c[i] !in Level(g, k)
  {
    if i == 0 {
      var d :| IsCycle(g, d) && d[0] == c[0];
      CycleNeverReady(g, d, 0, k);
    } else if k > 0 {
      assert c[i - 1] in g[c[i]] * g.Keys;
      BehindCycleNeverReady(g, c, i - 1, k - 1);
    }
  }

  // ----- Pigeonhole: a chain with more elements than the graph has keys closes a cycle -----

  function Elements(c: seq<string>): set<string> {
    set x | x in c
  }

  lemma {:induction false} DistinctSize(c: seq<string>)
    requires forall i, j :: 0 <= i < j < |c| ==> c[i] != c[j]
    ensures |Elements(c)| == |c|
  {
    if c != [] {
      var n := |c| - 1;
      DistinctSize(c[..n]);
      assert Elements(c) == Elements(c[..n]) + {c[n]};
      assert c[n] !in c[..n];
    }
  }

  lemma LongChainRepeats(g: Graph, c: seq<string>) returns (i: nat, j: nat)
    requires IsChain(g, c) && |c| > |g.Keys|
    ensures i < j < |c| && c[i] == c[j]
  {
    if forall a, b :: 0 <= a < b < |c| ==> c[a] != c[b] {
      DistinctSize(c);
      SubsetSize(Elements(c), g.Keys);
      assert false;
    }
    i, j :| 0 <= i < j < |c| && c[i] == c[j];
  }

  lemma SubChain(g: Graph, c: seq<string>, i: nat, j: nat)
    requires IsChain(g, c) && i <= j <= |c|
    ensures IsChain(g, c[i..j])
  {
    var d := c[i..j];
    forall k | 0 < k < |d| ensures d[k - 1] in g[d[k]] {
      assert c[i + k - 1] in g[c[i + k]];
    }
  }

  lemma LongChainIsBlocked(g: Graph, c: seq<string>, s: string)
    requires ChainTo(g, c, s) && |c| > |g.Keys|
    ensures Blocked(g, s)
  {
    var i, j := LongChainRepeats(g, c);
    var d := c[i..j];
    SubChain(g, c, i, j);
    assert d[|d| - 1] == c[j - 1] && c[j - 1] in g[c[j]];
    assert IsCycle(g, d);
    SubChain(g, c, i, |c|);
    assert ChainTo(g, c[i..], s) by {
      assert c[i..|c|] == c[i..];
    }
    assert c[i..][0] == d[0];
    assert OnCycle(g, c[i..][0]);
  }

  // ----- The fixpoint -----

  lemma BlockedNeverReady(g: Graph, s: string, k: nat)
    requires Blocked(g, s)
    ensures s !in Level(g, k)
  {
    var c :| ChainTo(g, c, s) && OnCycle(g, c[0]);
    BehindCycleNeverReady(g, c, |c| - 1, k);
  }

  /**
   * A step can finish exactly when it neither lies on a cycle nor waits for one, and then it
   * finishes after at most as many waves as there are steps.
   */
  lemma FinishableIffNotBlocked(g: Graph, s: string)
    requires s in g
    ensures s in Level(g, |g.Keys|) <==> !Blocked(g, s)
  {
    LevelIsChainBound(g, |g.Keys|, s);
    if s !in Level(g, |g.Keys|) {
      var c :| ChainTo(g, c, s) && |c| > |g.Keys|;
      LongChainIsBlocked(g, c, s);
    } else if Blocked(g, s) {
      BlockedNeverReady(g, s, |g.Keys|);
    }
  }

  lemma {:induction false} StuckForever(g: Graph, k: nat, m: nat)
    requires Level(g, k + 1) == Level(g, k) && k <= m
    ensures Level(g, m) == Level(g, k)
    decreases m
  {
    if k < m {
      StuckForever(g, k, m - 1);
      assert Level(g, m) == Level(g, k + 1) by {
        assert Level(g, m - 1) == Level(g, k);
      }
    }
  }

  lemma StuckMember(g: Graph, k: nat, s: string)
    requires Level(g, k + 1) == Level(g, k) && s in g
    ensures s in Level(g, k) <==> !Blocked(g, s)
  {
    if Blocked(g, s) {
      BlockedNeverReady(g, s, k);
    } else {
      FinishableIffNotBlocked(g, s);
      if k <= |g.Keys| {
        StuckForever(g, k, |g.Keys|);
      } else {
        LevelsGrowTo(g, |g.Keys|, k);
      }
    }
  }

  ghost function Unblocked(g: Graph): set<string> {
    set s | s in g && !Blocked(g, s)
  }

  /** When a wave adds nothing, what has finished is exactly what no cycle blocks. */
  lemma StuckMeansUnblocked(g: Graph, k: nat)
    requires Level(g, k + 1) == Level(g, k)
    ensures Level(g, k) == Unblocked(g)
  {
    LevelsGrow(g, k);
    forall s | s in g ensures s in Level(g, k) <==> s in Unblocked(g) {
      StuckMember(g, k, s);
    }
  }

  lemma CyclicIffSomeBlocked(g: Graph)
    ensures Cyclic(g) <==> exists s :: s in g && Blocked(g, s)
  {
    if Cyclic(g) {
      var c :| IsCycle(g, c);
      assert ChainTo(g, [c[0]], c[0]) && OnCycle(g, [c[0]][0]);
      assert Blocked(g, c[0]);
    }
    if s :| s in g && Blocked(g, s) {
      var c :| ChainTo(g, c, s) && OnCycle(g, c[0]);
    }
  }

  // ----- Subgraphs -----

  /** `h` keeps some of the keys of `g` and, for each, some of its dependencies. */
  ghost predicate Subgraph(h: Graph, g: Graph) {
    forall s :: s in h ==> s in g && h[s] * h.Keys <= g[s]
  }

  /** Dropping steps or dependencies never creates a cycle. */
  lemma SubgraphAcyclic(h: Graph, g: Graph)
    requires Subgraph(h, g) && !Cyclic(g)
    ensures !Cyclic(h)
  {
    if c :| IsCycle(h, c) {
      forall i | 0 < i < |c| ensures c[i - 1] in g[c[i]] {
        assert c[i - 1] in h[c[i]] * h.Keys;
      }
      assert c[|c| - 1] in h[c[0]] * h.Keys;
      assert IsCycle(g, c);
    }
  }
}
