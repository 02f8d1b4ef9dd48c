/** The order in which a wave scheduler runs the steps of a plan. */
module Schedule {
  import opened Graph
  import opened Tools

  function Ids(steps: seq<ToolCall>): seq<string> {
    seq(|steps|, i requires 0 <= i < |steps| => steps[i].stepId)
  }

  predicate Distinct(ids: seq<string>) {
    forall i, j :: 0 <= i < j < |ids| ==> ids[i] != ids[j]
  }

  predicate UniqueIds(steps: seq<ToolCall>) {
    Distinct(Ids(steps))
  }

  /** The step found under each id; for a repeated id, the last one. */
  function Index(steps: seq<ToolCall>): map<string, ToolCall> {
    if steps == [] then map[]
    else Index(steps[..|steps| - 1])[steps[|steps| - 1].stepId := steps[|steps| - 1]]
  }

  function Dependencies(step: ToolCall): set<string> {
    set d | d in step.dependsOn
  }

  /** The dependency graph of a plan.  Dependencies outside the plan stay in it but are no keys. */
  function GraphOf(steps: seq<ToolCall>): Graph {
    var index := Index(steps);
    map id | id in index :: Dependencies(index[id])
  }

  lemma IdsLast(steps: seq<ToolCall>)
    requires steps != []
    ensures Ids(steps) == Ids(steps[..|steps| - 1]) + [steps[|steps| - 1].stepId]
  {
  }

  lemma ElementsConcat(a: seq<string>, b: seq<string>)
    ensures Elements(a + b) == Elements(a) + Elements(b)
  {
    forall x ensures x in a + b <==> x in a || x in b {
    }
  }

  lemma {:induction false} IndexKeys(steps: seq<ToolCall>)
    ensures Index(steps).Keys == Elements(Ids(steps))
  {
    if steps != [] {
      var front := steps[..|steps| - 1];
      IndexKeys(front);
      IdsLast(steps);
      ElementsConcat(Ids(front), [steps[|steps| - 1].stepId]);
    }
  }

  lemma {:induction false} IndexValues(steps: seq<ToolCall>)
    ensures forall id :: id in Index(steps) ==> Index(steps)[id].stepId == id && Index(steps)[id] in steps
  {
    if steps != [] {
      var front := steps[..|steps| - 1];
      IndexValues(front);
      assert forall step :: step in front ==> step in steps;
    }
  }

  lemma {:induction false} IndexOfUnique(steps: seq<ToolCall>, i: nat)
    requires UniqueIds(steps) && i < |steps|
    ensures steps[i].stepId in Index(steps) && Index(steps)[steps[i].stepId] == steps[i]
  {
    var n := |steps| - 1;
    if i < n {
      assert Ids(steps)[i] != Ids(steps)[n];
      assert UniqueIds(steps[..n]) by {
        forall p, q | 0 <= p < q < n ensures Ids(steps[..n])[p] != Ids(steps[..n])[q] {
          assert Ids(steps)[p] != Ids(steps)[q];
        }
      }
      IndexOfUnique(steps[..n], i);
    }
  }

  /** Every id of the plan is found, under it a step with that id, and with unique ids its own. */
  lemma IndexIsExact(steps: seq<ToolCall>)
    ensures Index(steps).Keys == Elements(Ids(steps))
    ensures forall id :: id in Index(steps) ==> Index(steps)[id].stepId == id && Index(steps)[id] in steps
    ensures UniqueIds(steps) ==> forall i :: 0 <= i < |steps| ==>
      steps[i].stepId in Index(steps) && Index(steps)[steps[i].stepId] == steps[i]
  {
    IndexKeys(steps);
    IndexValues(steps);
    if UniqueIds(steps) {
      forall i | 0 <= i < |steps| ensures steps[i].stepId in Index(steps) && Index(steps)[steps[i].stepId] == steps[i] {
        IndexOfUnique(steps, i);
      }
    }
  }

  // ----- Order-preserving filters -----

  /** The ids of `ids` that are in `keep`, in the order of `ids`. */
  function Keep(ids: seq<string>, keep: set<string>): seq<string> {
    if ids == [] then []
    else
      var front := Keep(ids[..|ids| - 1], keep);
      if ids[|ids| - 1] in keep then front + [ids[|ids| - 1]] else front
  }

  /** `a` is declared before `b`. */
  ghost predicate Before(ids: seq<string>, a: string, b: string) {
    exists p, q :: 0 <= p < q < |ids| && ids[p] == a && ids[q] == b
  }

  lemma {:induction false} KeepMembers(ids: seq<string>, keep: set<string>)
    ensures Elements(Keep(ids, keep)) == Elements(ids) * keep
  {
    if ids != [] {
      var n := |ids| - 1;
      var front := Keep(ids[..n], keep);
      KeepMembers(ids[..n], keep);
      ElementsConcat(ids[..n], [ids[n]]);
      ElementsConcat(front, [ids[n]]);
      assert ids == ids[..n] + [ids[n]];
    }
  }

  lemma {:induction false} KeepNothing(ids: seq<string>)
    ensures Keep(ids, {}) == []
  {
    if ids != [] {
      KeepNothing(ids[..|ids| - 1]);
    }
  }

  lemma {:induction false} KeepInOrder(ids: seq<string>, keep: set<string>)
    ensures forall i, j :: 0 <= i < j < |Keep(ids, keep)| ==> Before(ids, Keep(ids, keep)[i], Keep(ids, keep)[j])
  {
    if ids != [] {
      var n := |ids| - 1;
      var front := Keep(ids[..n], keep);
      KeepInOrder(ids[..n], keep);
      KeepMembers(ids[..n], keep);
      forall i, j | 0 <= i < j < |Keep(ids, keep)|
        ensures Before(ids, Keep(ids, keep)[i], Keep(ids, keep)[j])
      {
        assert front[i] in Elements(front);
        if j < |front| {
          var p, q :| 0 <= p < q < n && ids[..n][p] == front[i] && ids[..n][q] == front[j];
          assert ids[p] == front[i] && ids[q] == front[j];
        } else {
          var p :| 0 <= p < n && ids[..n][p] == front[i];
          assert ids[p] == front[i];
        }
      }
    }
  }

  lemma {:induction false} KeepComposes(ids: seq<string>, a: set<string>, b: set<string>)
    ensures Keep(Keep(ids, a), b) == Keep(ids, a * b)
  {
    if ids != [] {
      KeepComposes(ids[..|ids| - 1], a, b);
      var front := Keep(ids[..|ids| - 1], a);
      if ids[|ids| - 1] in a {
        assert Keep(ids, a)[..|front|] == front;
      }
    }
  }

  // ----- Run order -----

  /** What wave `k` runs: the ids that become ready with it, in declaration order. */
  ghost function Wave(ids: seq<string>, g: Graph, k: nat): seq<string> {
    Keep(ids, Level(g, k + 1) - Level(g, k))
  }

  ghost function Waves(ids: seq<string>, g: Graph, k: nat): seq<string> {
    if k == 0 then [] else Waves(ids, g, k - 1) + Wave(ids, g, k - 1)
  }

  /** Everything that ever runs, in the order in which it runs. */
  ghost function RunOrder(steps: seq<ToolCall>): seq<string> {
    Waves(Ids(steps), GraphOf(steps), |GraphOf(steps).Keys|)
  }

  /** Sorted by length of the longest dependency chain, then by declaration order. */
  ghost predicate SortedByDepth(ids: seq<string>, g: Graph, order: seq<string>) {
    forall i, j, m: nat, n: nat ::
      0 <= i < j < |order| && LongestChain(g, order[i], m) && LongestChain(g, order[j], n) ==>
        m < n || (m == n && Before(ids, order[i], order[j]))
  }

  lemma {:induction false} WavesMembers(ids: seq<string>, g: Graph, k: nat)
    requires g.Keys == Elements(ids)
    ensures Elements(Waves(ids, g, k)) == Level(g, k)
  {
    if k > 0 {
      WavesMembers(ids, g, k - 1);
      KeepMembers(ids, Level(g, k) - Level(g, k - 1));
      LevelsGrow(g, k - 1);
      var a, b := Waves(ids, g, k - 1), Wave(ids, g, k - 1);
      assert Elements(a + b) == Elements(a) + Elements(b);
    }
  }

  ghost predicate DepthsWithin(g: Graph, ids: seq<string>, low: nat, high: nat) {
    forall i, n: nat :: 0 <= i < |ids| && LongestChain(g, ids[i], n) ==> low <= n <= high
  }

  lemma SortedAppend(ids: seq<string>, g: Graph, a: seq<string>, b: seq<string>, k: nat)
    requires SortedByDepth(ids, g, a) && DepthsWithin(g, a, 0, k)
    requires DepthsWithin(g, b, k + 1, k + 1)
    requires forall i, j :: 0 <= i < j < |b| ==> Before(ids, b[i], b[j])
    ensures SortedByDepth(ids, g, a + b)
  {
    var order := a + b;
    forall i, j, m: nat, n: nat |
      0 <= i < j < |order| && LongestChain(g, order[i], m) && LongestChain(g, order[j], n)
      ensures m < n || (m == n && Before(ids, order[i], order[j]))
    {
      if j >= |a| {
        assert order[j] == b[j - |a|];
        if i >= |a| {
          assert order[i] == b[i - |a|];
          assert Before(ids, b[i - |a|], b[j - |a|]);
        }
      }
    }
  }

  lemma LevelDepths(g: Graph, ids: seq<string>, k: nat)
    requires Elements(ids) <= Level(g, k)
    ensures DepthsWithin(g, ids, 0, k)
  {
    forall i, n: nat | 0 <= i < |ids| && LongestChain(g, ids[i], n) ensures n <= k {
      assert ids[i] in Elements(ids);
      LevelsGrow(g, k);
      LevelIsChainBound(g, k, ids[i]);
    }
  }

  lemma WaveDepths(g: Graph, ids: seq<string>, k: nat)
    requires Elements(ids) <= Level(g, k + 1) - Level(g, k)
    ensures DepthsWithin(g, ids, k + 1, k + 1)
  {
    forall i, n: nat | 0 <= i < |ids| && LongestChain(g, ids[i], n) ensures n == k + 1 {
      assert ids[i] in Elements(ids);
      LevelsGrow(g, k);
      WaveIsLongestChain(g, ids[i], k);
      LongestChainUnique(g, ids[i], n, k + 1);
    }
  }

  lemma NextWaveSorted(ids: seq<string>, g: Graph, k: nat, before: seq<string>)
    requires g.Keys == Elements(ids) && before == Waves(ids, g, k) && SortedByDepth(ids, g, before)
    ensures SortedByDepth(ids, g, before + Wave(ids, g, k))
  {
    WavesMembers(ids, g, k);
    LevelDepths(g, before, k);
    KeepMembers(ids, Level(g, k + 1) - Level(g, k));
    WaveDepths(g, Wave(ids, g, k), k);
    KeepInOrder(ids, Level(g, k + 1) - Level(g, k));
    SortedAppend(ids, g, before, Wave(ids, g, k), k);
  }

  lemma {:induction false} WavesSorted(ids: seq<string>, g: Graph, k: nat)
    requires g.Keys == Elements(ids)
    ensures SortedByDepth(ids, g, Waves(ids, g, k))
  {
    if k > 0 {
      WavesSorted(ids, g, k - 1);
      NextWaveSorted(ids, g, k - 1, Waves(ids, g, k - 1));
    }
  }

  lemma KeepDistinct(ids: seq<string>, keep: set<string>)
    requires Distinct(ids)
    ensures Distinct(Keep(ids, keep))
  {
    KeepInOrder(ids, keep);
  }

  lemma DistinctAppend(a: seq<string>, b: seq<string>)
    requires Distinct(a) && Distinct(b) && Elements(a) !! Elements(b)
    ensures Distinct(a + b)
  {
    forall i, j | 0 <= i < j < |a + b| ensures (a + b)[i] != (a + b)[j] {
      if i < |a| <= j {
        assert a[i] in Elements(a) && b[j - |a|] in Elements(b);
      }
    }
  }

  /** A wave holds no step twice and none that ran before it. */
  lemma WaveIsNew(ids: seq<string>, g: Graph, k: nat)
    requires Distinct(ids)
    ensures Distinct(Wave(ids, g, k)) && Elements(Wave(ids, g, k)) !! Level(g, k)
  {
    KeepMembers(ids, Level(g, k + 1) - Level(g, k));
    KeepDistinct(ids, Level(g, k + 1) - Level(g, k));
  }

  lemma {:induction false} WavesDistinct(ids: seq<string>, g: Graph, k: nat)
    requires g.Keys == Elements(ids) && Distinct(ids)
    ensures Distinct(Waves(ids, g, k))
  {
    if k > 0 {
      WavesDistinct(ids, g, k - 1);
      WavesMembers(ids, g, k - 1);
      WaveIsNew(ids, g, k - 1);
      DistinctAppend(Waves(ids, g, k - 1), Wave(ids, g, k - 1));
    }
  }

  /** Once a wave adds nothing, later waves add nothing either. */
  lemma {:induction false} WavesStable(ids: seq<string>, g: Graph, k: nat, m: nat)
    requires Level(g, k + 1) == Level(g, k) && k <= m
    ensures Waves(ids, g, m) == Waves(ids, g, k)
  {
    if k < m {
      WavesStable(ids, g, k, m - 1);
      StuckForever(g, k, m);
      StuckForever(g, k, m - 1);
      KeepNothing(ids);
      assert Level(g, m) - Level(g, m - 1) == {};
    }
  }

  /** The chains of dependencies that end in the step have a greatest length. */
  ghost predicate HasDepth(g: Graph, s: string) {
    exists n: nat :: LongestChain(g, s, n)
  }

  lemma {:induction false} DepthExists(g: Graph, s: string, k: nat) returns (n: nat)
    requires s in Level(g, k)
    ensures LongestChain(g, s, n)
  {
    LevelsGrow(g, k - 1);
    if s in Level(g, k - 1) {
      n := DepthExists(g, s, k - 1);
    } else {
      n := k;
      WaveIsLongestChain(g, s, k - 1);
    }
  }

  /**
   * The steps that run are exactly those no cycle blocks, each once; each has a longest dependency
   * chain, and they are sorted by its length and then by declaration.
   */
  lemma RunOrderIsDepthSort(steps: seq<ToolCall>)
    requires UniqueIds(steps)
    ensures Elements(RunOrder(steps)) == Unblocked(GraphOf(steps))
    ensures Distinct(RunOrder(steps))
    ensures forall s :: s in RunOrder(steps) ==> HasDepth(GraphOf(steps), s)
    ensures SortedByDepth(Ids(steps), GraphOf(steps), RunOrder(steps))
  {
    var ids, g := Ids(steps), GraphOf(steps);
    IndexIsExact(steps);
    WavesMembers(ids, g, |g.Keys|);
    WavesSorted(ids, g, |g.Keys|);
    WavesDistinct(ids, g, |g.Keys|);
    forall s | s in g ensures s in Level(g, |g.Keys|) <==> s in Unblocked(g) {
      FinishableIffNotBlocked(g, s);
    }
    assert Level(g, |g.Keys|) <= g.Keys;
    forall s | s in RunOrder(steps) ensures HasDepth(g, s) {
      assert s in Elements(RunOrder(steps));
      var n := DepthExists(g, s, |g.Keys|);
    }
  }

  lemma DeeperThanDependency(g: Graph, d: string, s: string, k: nat) returns (m: nat, n: nat)
    requires s in Level(g, k) && d in g && s in g && d in g[s]
    ensures d in Level(g, k) && LongestChain(g, d, m) && LongestChain(g, s, n) && m < n
  {
    LevelsGrow(g, k - 1);
    assert d in g[s] * g.Keys;
    m := DepthExists(g, d, k);
    n := DepthExists(g, s, k);
    var c :| ChainTo(g, c, d) && |c| == m;
    ChainExtend(g, c, d, s);
  }

  lemma ShallowerRunsFirst(ids: seq<string>, g: Graph, order: seq<string>, d: string, m: nat, s: string, n: nat)
    requires SortedByDepth(ids, g, order) && d in order && s in order
    requires LongestChain(g, d, m) && LongestChain(g, s, n) && m < n
    ensures Before(order, d, s)
  {
    var i :| 0 <= i < |order| && order[i] == d;
    var j :| 0 <= j < |order| && order[j] == s;
    if j == i {
      LongestChainUnique(g, d, m, n);
    }
    assert i < j;
  }

  lemma DependencyRunsFirst(steps: seq<ToolCall>, d: string, s: string)
    requires UniqueIds(steps) && s in RunOrder(steps)
    requires s in GraphOf(steps) && d in GraphOf(steps) && d in GraphOf(steps)[s]
    ensures Before(RunOrder(steps), d, s)
  {
    var ids, g, order := Ids(steps), GraphOf(steps), RunOrder(steps);
    IndexIsExact(steps);
    WavesMembers(ids, g, |g.Keys|);
    WavesSorted(ids, g, |g.Keys|);
    assert s in Elements(order);
    var m, n := DeeperThanDependency(g, d, s, |g.Keys|);
    assert d in Elements(order);
    ShallowerRunsFirst(ids, g, order, d, m, s, n);
  }

  /** A step that runs does so after each planned step that it lists. */
  lemma DependenciesRunFirst(steps: seq<ToolCall>, i: nat, j: nat)
    requires UniqueIds(steps) && i < |steps| && j < |steps|
    requires steps[i].stepId in RunOrder(steps) && steps[j].stepId in steps[i].dependsOn
    ensures Before(RunOrder(steps), steps[j].stepId, steps[i].stepId)
  {
    GraphIsTheFields(steps);
    DependencyRunsFirst(steps, steps[j].stepId, steps[i].stepId);
  }

  // ----- In terms of the plan's own fields -----

  /** The graph of a plan with unique ids has the steps' ids, and under each what that step lists. */
  lemma GraphIsTheFields(steps: seq<ToolCall>)
    requires UniqueIds(steps)
    ensures forall id :: id in GraphOf(steps) <==> exists i :: 0 <= i < |steps| && steps[i].stepId == id
    ensures forall i :: 0 <= i < |steps| ==> steps[i].stepId in GraphOf(steps)
    ensures forall i, d :: 0 <= i < |steps| ==>
      (d in GraphOf(steps)[steps[i].stepId] <==> d in steps[i].dependsOn)
  {
    IndexIsExact(steps);
    assert forall i :: 0 <= i < |steps| ==> steps[i].stepId == Ids(steps)[i];
    forall id ensures id in GraphOf(steps) <==> exists i :: 0 <= i < |steps| && steps[i].stepId == id {
      if id in Elements(Ids(steps)) {
        var i :| 0 <= i < |Ids(steps)| && Ids(steps)[i] == id;
        assert steps[i].stepId == id;
      }
    }
  }

  /** Positions in the plan: each step lists the one before it, and the first lists the last. */
  ghost predicate WaitInACircle(steps: seq<ToolCall>, c: seq<nat>) {
    && c != [] && (forall k :: 0 <= k < |c| ==> c[k] < |steps|)
    && (forall k :: 0 < k < |c| ==> steps[c[k - 1]].stepId in steps[c[k]].dependsOn)
    && steps[c[|c| - 1]].stepId in steps[c[0]].dependsOn
  }

  lemma CircleOfCycle(steps: seq<ToolCall>, cycle: seq<string>) returns (c: seq<nat>)
    requires UniqueIds(steps) && IsCycle(GraphOf(steps), cycle)
    ensures WaitInACircle(steps, c)
  {
    GraphIsTheFields(steps);
    c := [];
    for k := 0 to |cycle|
      invariant |c| == k && forall j :: 0 <= j < k ==> c[j] < |steps| && steps[c[j]].stepId == cycle[j]
    {
      var i :| 0 <= i < |steps| && steps[i].stepId == cycle[k];
      c := c + [i];
    }
    forall k | 0 < k < |c| ensures steps[c[k - 1]].stepId in steps[c[k]].dependsOn {
      assert cycle[k - 1] in GraphOf(steps)[cycle[k]];
    }
  }

  lemma CycleOfCircle(steps: seq<ToolCall>, c: seq<nat>)
    requires UniqueIds(steps) && WaitInACircle(steps, c)
    ensures Cyclic(GraphOf(steps))
  {
    GraphIsTheFields(steps);
    var cycle := seq(|c|, k requires 0 <= k < |c| => steps[c[k]].stepId);
    assert IsCycle(GraphOf(steps), cycle);
  }

  /** A plan has a dependency cycle exactly when some of its steps wait for each other in a circle. */
  lemma CyclicIffCircle(steps: seq<ToolCall>)
    requires UniqueIds(steps)
    ensures Cyclic(GraphOf(steps)) <==> exists c :: WaitInACircle(steps, c)
  {
    if Cyclic(GraphOf(steps)) {
      var cycle :| IsCycle(GraphOf(steps), cycle);
      var c := CircleOfCycle(steps, cycle);
    }
    if c :| WaitInACircle(steps, c) {
      CycleOfCircle(steps, c);
    }
  }
}
