/**
 * The two vector stores.  Both keep string ids and vectors side by side; FAISS also keeps a flat
 * index of the vectors and persists the index and the ids in two files.
 */
module VectorStore {
  import opened Wrappers
  import opened Numbers
  import opened Vectors
  import opened Ranking

  datatype VectorHit = VectorHit(id: string, score: real)

  /** What a store holds, as one list. */
  type Contents = seq<(string, Vector)>

  function IdsOf(c: Contents): seq<string> {
    seq(|c|, i requires 0 <= i < |c| => c[i].0)
  }

  function VectorsOf(c: Contents): seq<Vector> {
    seq(|c|, i requires 0 <= i < |c| => c[i].1)
  }

  function Pair(ids: seq<string>, vectors: seq<Vector>): Contents {
    seq(Min(|ids|, |vectors|), i requires 0 <= i < Min(|ids|, |vectors|) => (ids[i], vectors[i]))
  }

  /** The entries whose id is not in `remove`, in order. */
  function Without(c: Contents, remove: set<string>): Contents {
    if c == [] then []
    else
      var front := Without(c[..|c| - 1], remove);
      if c[|c| - 1].0 in remove then front else front + [c[|c| - 1]]
  }

  function KeepIds(ids: seq<string>, remove: set<string>): seq<string> {
    if ids == [] then []
    else
      var front := KeepIds(ids[..|ids| - 1], remove);
      if ids[|ids| - 1] in remove then front else front + [ids[|ids| - 1]]
  }

  function WithPrefix(ids: seq<string>, prefix: string): seq<string> {
    if ids == [] then []
    else
      var front := WithPrefix(ids[..|ids| - 1], prefix);
      if prefix <= ids[|ids| - 1] then front + [ids[|ids| - 1]] else front
  }

  function SetOf(ids: seq<string>): set<string> {
    set id | id in ids
  }

  /** What `delete_by_prefix` should leave. */
  function WithoutPrefix(c: Contents, prefix: string): Contents {
    if c == [] then []
    else
      var front := WithoutPrefix(c[..|c| - 1], prefix);
      if prefix <= c[|c| - 1].0 then front else front + [c[|c| - 1]]
  }

  // ----- Deletion -----

  lemma {:induction false} WithoutKeepsIds(c: Contents, remove: set<string>)
    ensures IdsOf(Without(c, remove)) == KeepIds(IdsOf(c), remove)
  {
    if c != [] {
      var n := |c| - 1;
      WithoutKeepsIds(c[..n], remove);
      assert IdsOf(c)[..n] == IdsOf(c[..n]);
      assert IdsOf(Without(c[..n], remove) + [c[n]]) == IdsOf(Without(c[..n], remove)) + [c[n].0];
    }
  }

  /** Entry `i` of `kept` was at `at[i]`, and the order is kept. */
  ghost predicate KeptFrom(kept: Contents, at: seq<nat>, c: Contents) {
    && |at| == |kept|
    && (forall i, j :: 0 <= i < j < |at| ==> at[i] < at[j])
    && forall i :: 0 <= i < |at| ==> at[i] < |c| && kept[i] == c[at[i]]
  }

  ghost predicate AllNotNamed(at: seq<nat>, c: Contents, remove: set<string>) {
    forall p: nat :: p in at <==> p < |c| && c[p].0 !in remove
  }

  lemma OneMoreEntry(kept: Contents, at: seq<nat>, c: Contents, last: (string, Vector))
    requires KeptFrom(kept, at, c)
    ensures KeptFrom(kept, at, c + [last]) && KeptFrom(kept + [last], at + [|c|], c + [last])
  {
  }

  lemma OneMoreNotNamed(at: seq<nat>, c: Contents, last: (string, Vector), remove: set<string>)
    requires AllNotNamed(at, c, remove)
    ensures AllNotNamed(if last.0 in remove then at else at + [|c|], c + [last], remove)
  {
  }

  /** Deletion keeps exactly the entries not named, each as it was and in order. */
  lemma {:induction false} WithoutSelects(c: Contents, remove: set<string>) returns (at: seq<nat>)
    ensures KeptFrom(Without(c, remove), at, c) && AllNotNamed(at, c, remove)
  {
    at := [];
    if c != [] {
      var front, last := c[..|c| - 1], c[|c| - 1];
      assert c == front + [last];
      at := WithoutSelects(front, remove);
      OneMoreEntry(Without(front, remove), at, front, last);
      OneMoreNotNamed(at, front, last, remove);
      if last.0 !in remove {
        at := at + [|front|];
      }
    }
  }

  lemma {:induction false} WithPrefixMembers(ids: seq<string>, prefix: string)
    ensures forall id :: id in WithPrefix(ids, prefix) <==> id in ids && prefix <= id
  {
    if ids != [] {
      var n := |ids| - 1;
      WithPrefixMembers(ids[..n], prefix);
      assert ids == ids[..n] + [ids[n]];
    }
  }

  lemma {:induction false} WithoutByPrefix(c: Contents, remove: set<string>, prefix: string)
    requires forall i :: 0 <= i < |c| ==> (c[i].0 in remove <==> prefix <= c[i].0)
    ensures Without(c, remove) == WithoutPrefix(c, prefix)
  {
    if c != [] {
      WithoutByPrefix(c[..|c| - 1], remove, prefix);
    }
  }

  /** Deleting the ids that start with a prefix leaves exactly the entries that do not. */
  lemma DeletePrefixIsExact(c: Contents, prefix: string)
    ensures Without(c, SetOf(WithPrefix(IdsOf(c), prefix))) == WithoutPrefix(c, prefix)
  {
    WithPrefixMembers(IdsOf(c), prefix);
    forall i | 0 <= i < |c| ensures c[i].0 in SetOf(WithPrefix(IdsOf(c), prefix)) <==> prefix <= c[i].0 {
      assert IdsOf(c)[i] == c[i].0;
    }
    WithoutByPrefix(c, SetOf(WithPrefix(IdsOf(c), prefix)), prefix);
  }

  lemma {:induction false} WithoutPrefixMembers(c: Contents, prefix: string)
    ensures forall e :: e in WithoutPrefix(c, prefix) <==> e in c && !(prefix <= e.0)
  {
    if c != [] {
      var n := |c| - 1;
      WithoutPrefixMembers(c[..n], prefix);
      assert c == c[..n] + [c[n]];
    }
  }

  /** Deletion by prefix does not look across an append: old and new entries are filtered apart. */
  lemma {:induction false} WithoutPrefixConcat(a: Contents, b: Contents, prefix: string)
    ensures WithoutPrefix(a + b, prefix) == WithoutPrefix(a, prefix) + WithoutPrefix(b, prefix)
  {
    if b == [] {
      assert a + b == a;
    } else {
      WithoutPrefixConcat(a, b[..|b| - 1], prefix);
      assert (a + b)[..|a + b| - 1] == a + b[..|b| - 1];
    }
  }

  lemma {:induction false} NothingWithPrefix(c: Contents, prefix: string)
    requires forall i :: 0 <= i < |c| ==> !(prefix <= c[i].0)
    ensures WithoutPrefix(c, prefix) == c
  {
    if c != [] {
      NothingWithPrefix(c[..|c| - 1], prefix);
    }
  }

  lemma {:induction false} OnlyWithPrefix(c: Contents, prefix: string)
    requires forall i :: 0 <= i < |c| ==> prefix <= c[i].0
    ensures WithoutPrefix(c, prefix) == []
  {
    if c != [] {
      OnlyWithPrefix(c[..|c| - 1], prefix);
    }
  }

  lemma {:induction false} NothingRemoved(c: Contents)
    ensures Without(c, {}) == c
  {
    if c != [] {
      NothingRemoved(c[..|c| - 1]);
    }
  }

  lemma {:induction false} NoIdRemoved(ids: seq<string>)
    ensures KeepIds(ids, {}) == ids
  {
    if ids != [] {
      NoIdRemoved(ids[..|ids| - 1]);
    }
  }

  lemma {:induction false} KeepIdsConcat(a: seq<string>, b: seq<string>, remove: set<string>)
    ensures KeepIds(a + b, remove) == KeepIds(a, remove) + KeepIds(b, remove)
  {
    if b == [] {
      assert a + b == a;
    } else {
      KeepIdsConcat(a, b[..|b| - 1], remove);
      assert (a + b)[..|a + b| - 1] == a + b[..|b| - 1];
    }
  }

  /** Filtering the ids, and the zipped vectors, keeps each vector under its id, even when there are more ids. */
  lemma DeleteByZip(ids: seq<string>, vectors: seq<Vector>, remove: set<string>)
    ensures var kept := Without(Pair(ids, vectors), remove);
      && |KeepIds(ids, remove)| >= |kept|
      && Pair(KeepIds(ids, remove), VectorsOf(kept)) == kept
      && (|ids| == |vectors| ==> |KeepIds(ids, remove)| == |kept|)
  {
    var held, m := Pair(ids, vectors), Min(|ids|, |vectors|);
    var kept := Without(held, remove);
    WithoutKeepsIds(held, remove);
    assert IdsOf(held) == ids[..m] && ids == ids[..m] + ids[m..];
    KeepIdsConcat(ids[..m], ids[m..], remove);
    assert KeepIds(ids[m..], remove) == [] || |ids| > |vectors|;
    assert forall i :: 0 <= i < |kept| ==> KeepIds(ids, remove)[i] == IdsOf(kept)[i];
  }

  /** Deleting the ids with a prefix, read from a list that may be longer, deletes by prefix. */
  lemma DeletePrefixOfIds(ids: seq<string>, vectors: seq<Vector>, prefix: string)
    ensures var held := Pair(ids, vectors);
      Without(held, SetOf(WithPrefix(ids, prefix))) == WithoutPrefix(held, prefix)
  {
    WithPrefixMembers(ids, prefix);
    WithoutByPrefix(Pair(ids, vectors), SetOf(WithPrefix(ids, prefix)), prefix);
  }

  // ----- The in-memory store -----

  function Scores(query: Vector, vectors: seq<Vector>): seq<real> {
    seq(|vectors|, i requires 0 <= i < |vectors| => Dot(query, vectors[i]))
  }

  function Cosines(query: Vector, vectors: seq<Vector>, sqrt: RealFunction): seq<real>
    requires IsSqrt(sqrt)
  {
    seq(|vectors|, i requires 0 <= i < |vectors| => Cosine(query, vectors[i], sqrt))
  }

  /** The hits for the entries at `at`. */
  function HitsAt(ids: seq<string>, scores: seq<real>, at: seq<nat>): seq<VectorHit>
    requires InRange(at, |scores|) && InRange(at, |ids|)
  {
    seq(|at|, i requires 0 <= i < |at| => VectorHit(ids[at[i]], scores[at[i]]))
  }

  /** Two parallel lists hold what their elements pair up to; lists that grow alike stay parallel. */
  lemma PairConcat(ids: seq<string>, vectors: seq<Vector>, newIds: seq<string>, newVectors: seq<Vector>)
    requires |ids| == |vectors|
    ensures Pair(ids + newIds, vectors + newVectors) == Pair(ids, vectors) + Pair(newIds, newVectors)
  {
  }

  lemma PartsOfPair(ids: seq<string>, vectors: seq<Vector>)
    requires |ids| == |vectors|
    ensures IdsOf(Pair(ids, vectors)) == ids && VectorsOf(Pair(ids, vectors)) == vectors
  {
  }

  lemma PairOfParts(c: Contents)
    ensures Pair(IdsOf(c), VectorsOf(c)) == c
  {
  }

  /** `zip` cuts the longer list short, here as everywhere in the two stores. */
  class InMemoryVectorStore {
    var ids: seq<string>
    var vectors: seq<Vector>

    ghost predicate Parallel()
      reads this
    {
      |ids| == |vectors|
    }

    ghost function Holds(): Contents
      reads this
    {
      Pair(ids, vectors)
    }

    constructor ()
      ensures Parallel() && Holds() == []
    {
      ids, vectors := [], [];
    }

    method Add(newVectors: seq<Vector>, newIds: seq<string>)
      modifies this
      ensures ids == old(ids) + newIds && vectors == old(vectors) + newVectors
      ensures old(Parallel()) ==> Holds() == old(Holds()) + Pair(newIds, newVectors)
    {
      PairConcat(if |ids| == |vectors| then ids else [], if |ids| == |vectors| then vectors else [], newIds, newVectors);
      vectors := vectors + newVectors;
      ids := ids + newIds;
    }

    /** The `topK` best entries by cosine, earlier entries first among equals. */
    method Search(query: Vector, topK: nat, sqrt: RealFunction) returns (hits: seq<VectorHit>)
      requires IsSqrt(sqrt)
      ensures var scores := Cosines(query, VectorsOf(Holds()), sqrt);
        && |Rank(scores)| == |scores|
        && hits == HitsAt(IdsOf(Holds()), scores, Rank(scores)[..Min(topK, |scores|)])
    {
      var held := Pair(ids, vectors);
      var scored: seq<real> := [];
      for i := 0 to |held|
        invariant scored == Cosines(query, VectorsOf(held), sqrt)[..i]
      {
        scored := scored + [Cosine(query, held[i].1, sqrt)];
      }
      assert scored == Cosines(query, VectorsOf(held), sqrt);
      RankIsRanking(scored);
      RankingSize(scored, Rank(scored));
      hits := HitsAt(IdsOf(held), scored, Rank(scored)[..Min(topK, |scored|)]);
    }

    method Delete(toDelete: seq<string>)
      modifies this
      ensures ids == IdsOf(Without(old(Holds()), SetOf(toDelete)))
      ensures vectors == VectorsOf(Without(old(Holds()), SetOf(toDelete)))
      ensures Parallel() && Holds() == Without(old(Holds()), SetOf(toDelete))
    {
      var kept := Without(Pair(ids, vectors), SetOf(toDelete));
      PairOfParts(kept);
      ids := IdsOf(kept);
      vectors := VectorsOf(kept);
    }

    method DeleteByPrefix(prefix: string)
      modifies this
      ensures ids == IdsOf(WithoutPrefix(old(Holds()), prefix))
      ensures vectors == VectorsOf(WithoutPrefix(old(Holds()), prefix))
      ensures Parallel() && Holds() == WithoutPrefix(old(Holds()), prefix)
    {
      DeletePrefixOfIds(ids, vectors, prefix);
      Delete(WithPrefix(ids, prefix));
    }
  }

  // ----- The FAISS store -----

  /**
   * What `IndexFlatIP.search`, a library call, answers: the positions of the `k` best inner
   * products in any order among ties, padded with -1, and their scores.
   */
  ghost predicate IsIndexAnswer(index: seq<Vector>, query: Vector, k: nat, scores: seq<real>, positions: seq<int>) {
    && |scores| == |positions| == k
    && (forall i :: 0 <= i < k ==>
         if i < Min(k, |index|) then
           0 <= positions[i] < |index| && scores[i] == Dot(query, index[positions[i]])
         else positions[i] == -1)
    && IsTopK(Scores(query, index), k, Found(positions, Min(k, |index|)))
  }

  ghost function Found(positions: seq<int>, n: nat): seq<nat>
    requires n <= |positions| && forall i :: 0 <= i < n ==> positions[i] >= 0
  {
    seq(n, i requires 0 <= i < n => positions[i] as nat)
  }

  /** The two files a store is persisted in. */
  class Disk {
    var index: Option<seq<Vector>>
    var sidecar: Option<seq<string>>

    constructor ()
      ensures index == None && sidecar == None
    {
      index, sidecar := None, None;
    }
  }

  function Decimal(n: nat): string {
    if n < 10 then ["0123456789"[n]] else Decimal(n / 10) + ["0123456789"[n % 10]]
  }

  /** The label of a vector whose id was lost. */
  function Unknown(position: nat): string {
    "unknown:" + Decimal(position)
  }

  function DigitValue(c: char): nat {
    if '0' <= c <= '9' then c as nat - '0' as nat else 0
  }

  function ReadDecimal(s: string): nat {
    if s == "" then 0 else 10 * ReadDecimal(s[..|s| - 1]) + DigitValue(s[|s| - 1])
  }

  /** A label shows its position. */
  lemma {:induction false} DecimalReadsBack(n: nat)
    ensures ReadDecimal(Decimal(n)) == n
  {
    var digits := "0123456789";
    assert DigitValue(digits[n % 10]) == n % 10;
    if n >= 10 {
      DecimalReadsBack(n / 10);
      assert Decimal(n)[..|Decimal(n)| - 1] == Decimal(n / 10);
    } else {
      assert Decimal(n)[..0] == "";
    }
  }

  /** Different positions have different labels, and every label is `unknown:` and a number. */
  lemma LabelsDiffer(p: nat, q: nat)
    ensures Unknown(p) == Unknown(q) <==> p == q
    ensures "unknown:" <= Unknown(p) && ReadDecimal(Unknown(p)[8..]) == p
  {
    assert |"unknown:"| == 8 && Unknown(p)[8..] == Decimal(p) && Unknown(q)[8..] == Decimal(q);
    DecimalReadsBack(p);
    DecimalReadsBack(q);
  }

  /** The ids read back: the sidecar's, filled up with labels when the index has more vectors. */
  function LoadedIds(index: seq<Vector>, sidecar: Option<seq<string>>): seq<string> {
    var ids := if sidecar.Some? then sidecar.value else [];
    if |ids| < |index| then ids + seq(|index| - |ids|, i requires i >= 0 => Unknown(|ids| + i)) else ids
  }

  datatype SaveFault = NoFault | BeforeIndex | BetweenFiles

  /** The positions among `at`, all below `total`, that have one of `n` ids, in order. */
  function Labelled(at: seq<nat>, n: nat, total: nat): (r: seq<nat>)
    requires InRange(at, total)
    ensures InRange(r, n) && InRange(r, total)
  {
    if at == [] then []
    else
      var front := Labelled(at[..|at| - 1], n, total);
      if at[|at| - 1] < n then front + [at[|at| - 1]] else front
  }

  lemma {:induction false} AllLabelled(at: seq<nat>, n: nat, total: nat)
    requires InRange(at, total) && InRange(at, n)
    ensures Labelled(at, n, total) == at
  {
    if at != [] {
      AllLabelled(at[..|at| - 1], n, total);
    }
  }

  lemma NextLabelled(at: seq<nat>, i: nat, n: nat, total: nat)
    requires InRange(at, total) && i < |at|
    ensures Labelled(at[..i + 1], n, total) ==
            if at[i] < n then Labelled(at[..i], n, total) + [at[i]] else Labelled(at[..i], n, total)
  {
    assert at[..i + 1][..i] == at[..i];
  }

  lemma HitsAppend(ids: seq<string>, scores: seq<real>, at: seq<nat>, p: nat)
    requires InRange(at, |scores|) && InRange(at, |ids|) && p < |scores| && p < |ids|
    ensures HitsAt(ids, scores, at + [p]) == HitsAt(ids, scores, at) + [VectorHit(ids[p], scores[p])]
  {
  }

  /** The hits for an index answer that names the positions `at`, then pads with -1. */
  method CollectHits(ids: seq<string>, scores: seq<real>, positions: seq<int>, ghost exact: seq<real>, ghost at: seq<nat>)
    returns (hits: seq<VectorHit>)
    requires InRange(at, |exact|) && |at| <= |positions| == |scores|
    requires forall i :: 0 <= i < |at| ==> positions[i] == at[i] && scores[i] == exact[at[i]]
    requires forall i :: |at| <= i < |positions| ==> positions[i] == -1
    ensures hits == HitsAt(ids, exact, Labelled(at, |ids|, |exact|))
  {
    hits := [];
    for i := 0 to |positions|
      invariant i <= |at| ==> hits == HitsAt(ids, exact, Labelled(at[..i], |ids|, |exact|))
      invariant i > |at| ==> hits == HitsAt(ids, exact, Labelled(at, |ids|, |exact|))
    {
      assert at[..|at|] == at;
      var position := positions[i];
      if i < |at| {
        NextLabelled(at, i, |ids|, |exact|);
      }
      if position < 0 || position >= |ids| {
        continue;
      }
      HitsAppend(ids, exact, Labelled(at[..i], |ids|, |exact|), position);
      hits := hits + [VectorHit(ids[position], scores[i])];
    }
    assert at[..|at|] == at;
  }

  class FAISSVectorStore {
    const dims: nat
    const disk: Disk?
    var ids: seq<string>
    var vectors: seq<Vector>
    var index: seq<Vector>

    /** The index holds the vectors kept beside it. */
    ghost predicate Valid()
      reads this
    {
      index == vectors
    }

    /** Index, vectors and ids are one list. */
    ghost predicate Parallel()
      reads this
    {
      |ids| == |vectors|
    }

    ghost function Holds(): Contents
      reads this
    {
      Pair(ids, vectors)
    }

    /** Reads back what was saved last; without an index file the store starts empty. */
    constructor (dims: nat, disk: Disk?)
      ensures this.dims == dims && this.disk == disk && Valid()
      ensures disk == null || disk.index.None? ==> ids == [] && vectors == []
      ensures disk != null && disk.index.Some? ==>
        && vectors == disk.index.value
        && ids == LoadedIds(disk.index.value, disk.sidecar)
        && (Parallel() <==> disk.sidecar.None? || |disk.sidecar.value| <= |disk.index.value|)
    {
      this.dims := dims;
      this.disk := disk;
      if disk == null || disk.index.None? {
        ids, vectors, index := [], [], [];
      } else {
        index := disk.index.value;
        vectors := disk.index.value;
        ids := LoadedIds(disk.index.value, disk.sidecar);
      }
    }

    /** Appends vectors and ids; vectors of the wrong size are refused and nothing changes. */
    method Add(newVectors: seq<Vector>, newIds: seq<string>) returns (ok: bool)
      requires Valid()
      modifies `ids, `vectors, `index
      ensures Valid()
      ensures ok <==> forall i :: 0 <= i < |newVectors| ==> |newVectors[i]| == dims
      ensures ids == if ok && newVectors != [] then old(ids) + newIds else old(ids)
      ensures vectors == if ok && newVectors != [] then old(vectors) + newVectors else old(vectors)
      ensures old(Parallel()) && |newIds| == |newVectors| ==>
        Parallel() && Holds() == if ok then old(Holds()) + Pair(newIds, newVectors) else old(Holds())
    {
      if newVectors == [] {
        return true;
      }
      if !(forall i :: 0 <= i < |newVectors| ==> |newVectors[i]| == dims) {
        return false;
      }
      index := index + newVectors;
      vectors := vectors + newVectors;
      ids := ids + newIds;
      ok := true;
    }

    /** The hits for the index's answer, without its padding and without vectors that have no id. */
    method Search(query: Vector, topK: nat, ghost at: seq<nat>, scores: seq<real>, positions: seq<int>)
      returns (hits: seq<VectorHit>)
      requires Valid() && IsIndexAnswer(index, query, topK, scores, positions)
      requires at == Found(positions, Min(topK, |index|))
      ensures IsTopK(Scores(query, vectors), topK, at)
      ensures hits == HitsAt(ids, Scores(query, vectors), Labelled(at, |ids|, |vectors|))
      ensures |ids| >= |vectors| ==> hits == HitsAt(ids, Scores(query, vectors), at)
    {
      assert index == vectors;
      if |index| == 0 {
        assert at == [];
        return [];
      }
      hits := CollectHits(ids, scores, positions, Scores(query, vectors), at);
      if |ids| >= |vectors| {
        AllLabelled(at, |ids|, |vectors|);
      }
    }

    method Delete(toDelete: seq<string>)
      requires Valid()
      modifies `ids, `vectors, `index
      ensures Valid() && Holds() == Without(old(Holds()), SetOf(toDelete))
      ensures ids == KeepIds(old(ids), SetOf(toDelete))
      ensures vectors == if toDelete == [] then old(vectors) else VectorsOf(Without(old(Holds()), SetOf(toDelete)))
      ensures old(Parallel()) ==> Parallel()
    {
      DeleteByZip(ids, vectors, SetOf(toDelete));
      if toDelete == [] {
        assert SetOf(toDelete) == {};
        NothingRemoved(Holds());
        NoIdRemoved(ids);
        return;
      }
      var remove := SetOf(toDelete);
      vectors := VectorsOf(Without(Pair(ids, vectors), remove));
      ids := KeepIds(ids, remove);
      index := vectors;
    }

    method DeleteByPrefix(prefix: string)
      requires Valid()
      modifies `ids, `vectors, `index
      ensures Valid() && Holds() == WithoutPrefix(old(Holds()), prefix)
      ensures ids == KeepIds(old(ids), SetOf(WithPrefix(old(ids), prefix)))
      ensures old(Parallel()) ==> Parallel()
    {
      DeletePrefixOfIds(ids, vectors, prefix);
      Delete(WithPrefix(ids, prefix));
    }

    /** Writes the index, then the sidecar; a fault leaves what was not yet written as it was. */
    method Save(fault: SaveFault) returns (ok: bool)
      modifies disk
      ensures disk == null ==> ok
      ensures disk != null ==> (ok <==> fault == NoFault)
      ensures disk != null ==> disk.index == if fault == BeforeIndex then old(disk.index) else Some(index)
      ensures disk != null ==> disk.sidecar == if fault == NoFault then Some(ids) else old(disk.sidecar)
    {
      if disk == null {
        return true;
      }
      if fault == BeforeIndex {
        return false;
      }
      disk.index := Some(index);
      if fault == BetweenFiles {
        return false;
      }
      disk.sidecar := Some(ids);
      ok := true;
    }
  }

  // ----- What survives a restart -----

  datatype Change =
    | AddVectors(vectors: seq<Vector>, ids: seq<string>)
    | DeleteVectors(ids: seq<string>)
    | DeletePrefix(prefix: string)

  /** What either store holds after a history of changes that starts with `c`. */
  function ReplayFrom(c: Contents, history: seq<Change>): Contents {
    if history == [] then c
    else
      var before := ReplayFrom(c, history[..|history| - 1]);
      match history[|history| - 1]
      case AddVectors(vectors, ids) => before + Pair(ids, vectors)
      case DeleteVectors(ids) => Without(before, SetOf(ids))
      case DeletePrefix(prefix) => WithoutPrefix(before, prefix)
  }

  /** A history both stores accept: one id for each vector, and vectors of the store's size. */
  ghost predicate Accepted(history: seq<Change>, dims: nat) {
    forall i :: 0 <= i < |history| && history[i].AddVectors? ==>
      && |history[i].vectors| == |history[i].ids|
      && forall j :: 0 <= j < |history[i].vectors| ==> |history[i].vectors[j]| == dims
  }

  /** The change deletes entries with this id. */
  ghost predicate Names(change: Change, id: string) {
    match change
    case AddVectors(_, _) => false
    case DeleteVectors(ids) => id in ids
    case DeletePrefix(prefix) => prefix <= id
  }

  /** None of the entries `c` is deleted in the history. */
  ghost predicate NoneDeleted(c: Contents, history: seq<Change>) {
    forall i, j :: 0 <= i < |history| && 0 <= j < |c| ==> !Names(history[i], c[j].0)
  }

  ghost predicate NeverAdded(id: string, history: seq<Change>) {
    forall i :: 0 <= i < |history| && history[i].AddVectors? ==> id !in history[i].ids
  }

  /** No id in `c` is used again by the history, and none is the label of its position. */
  ghost predicate OwnIds(c: Contents, history: seq<Change>) {
    forall j :: 0 <= j < |c| ==> NeverAdded(c[j].0, history) && c[j].0 != Unknown(j)
  }

  lemma {:induction false} WithoutConcat(a: Contents, b: Contents, remove: set<string>)
    ensures Without(a + b, remove) == Without(a, remove) + Without(b, remove)
  {
    if b == [] {
      assert a + b == a;
    } else {
      WithoutConcat(a, b[..|b| - 1], remove);
      assert (a + b)[..|a + b| - 1] == a + b[..|b| - 1];
    }
  }

  lemma {:induction false} NoneNamedStay(c: Contents, remove: set<string>)
    requires forall i :: 0 <= i < |c| ==> c[i].0 !in remove
    ensures Without(c, remove) == c
  {
    if c != [] {
      NoneNamedStay(c[..|c| - 1], remove);
    }
  }

  /** Entries that no change deletes stay where they are. */
  lemma {:induction false} UndeletedStayInFront(c: Contents, history: seq<Change>)
    requires NoneDeleted(c, history)
    ensures c <= ReplayFrom(c, history)
  {
    if history != [] {
      var front, last := history[..|history| - 1], history[|history| - 1];
      assert forall i :: 0 <= i < |front| ==> front[i] == history[i];
      UndeletedStayInFront(c, front);
      var before := ReplayFrom(c, front);
      var rest := before[|c|..];
      assert before == c + rest;
      match last
      case AddVectors(_, _) =>
      case DeleteVectors(ids) =>
        WithoutConcat(c, rest, SetOf(ids));
        NoneNamedStay(c, SetOf(ids));
      case DeletePrefix(prefix) =>
        WithoutPrefixConcat(c, rest, prefix);
        NothingWithPrefix(c, prefix);
    }
  }

  /** An id that was deleted and not added again is gone. */
  lemma {:induction false} DeletedIsGone(c: Contents, history: seq<Change>, i: nat, id: string)
    requires i < |history| && Names(history[i], id) && NeverAdded(id, history)
    ensures forall e :: e in ReplayFrom(c, history) ==> e.0 != id
  {
    var front, last := history[..|history| - 1], history[|history| - 1];
    var before := ReplayFrom(c, front);
    if i < |front| {
      assert forall k :: 0 <= k < |front| ==> front[k] == history[k];
      DeletedIsGone(c, front, i, id);
    }
    match last
    case AddVectors(vectors, ids) =>
      forall e | e in before + Pair(ids, vectors) ensures e.0 != id {
        if e !in before {
          var k :| 0 <= k < |Pair(ids, vectors)| && Pair(ids, vectors)[k] == e;
          assert e.0 == ids[k];
        }
      }
    case DeleteVectors(ids) => WithoutMembers(before, SetOf(ids));
    case DeletePrefix(prefix) => WithoutPrefixMembers(before, prefix);
  }

  /** One label for each recovered vector: its own id, or one that says the id was lost. */
  ghost predicate RightlyLabelled(ids: seq<string>, loaded: seq<string>) {
    |loaded| == |ids| && forall p :: 0 <= p < |ids| ==> loaded[p] == ids[p] || loaded[p] == Unknown(p)
  }

  /** The ids read back when the index was written after the changes and the ids before them. */
  function CrashedIds(c: Contents, since: seq<Change>): seq<string> {
    LoadedIds(VectorsOf(ReplayFrom(c, since)), Some(IdsOf(c)))
  }

  /**
   * After a crash between the two files of a save there is one label for each vector, its own id or one
   * that says the id was lost, exactly when none of the entries of the last complete save was deleted since.
   */
  lemma CrashLabelsRightlyIff(c: Contents, since: seq<Change>)
    requires OwnIds(c, since)
    ensures RightlyLabelled(IdsOf(ReplayFrom(c, since)), CrashedIds(c, since)) <==> NoneDeleted(c, since)
  {
    var after, loaded := ReplayFrom(c, since), CrashedIds(c, since);
    assert forall p :: 0 <= p < |c| ==> loaded[p] == c[p].0;
    if NoneDeleted(c, since) {
      UndeletedStayInFront(c, since);
      assert forall p :: 0 <= p < |c| ==> after[p] == c[p];
    } else {
      var i, j :| 0 <= i < |since| && 0 <= j < |c| && Names(since[i], c[j].0);
      DeletedIsGone(c, since, i, c[j].0);
      if j < |after| {
        assert after[j] in after && IdsOf(after)[j] != loaded[j] && loaded[j] != Unknown(j);
      }
    }
  }

  /**
   * When vectors were only added since, every vector is recovered, every saved id is at its place, and
   * exactly the new positions are labelled unknown.
   */
  lemma CrashAfterAdds(c: Contents, since: seq<Change>)
    requires forall i :: 0 <= i < |since| ==> since[i].AddVectors?
    ensures var after, loaded := ReplayFrom(c, since), CrashedIds(c, since);
      && c <= after && |loaded| == |after|
      && VectorsOf(Pair(loaded, VectorsOf(after))) == VectorsOf(after)
      && (forall p :: 0 <= p < |c| ==> loaded[p] == c[p].0 == after[p].0)
      && (forall p :: |c| <= p < |after| ==> loaded[p] == Unknown(p))
  {
    var after, loaded := ReplayFrom(c, since), CrashedIds(c, since);
    UndeletedStayInFront(c, since);
    assert VectorsOf(Pair(loaded, VectorsOf(after))) == VectorsOf(after);
  }

  /** Applies a history to a store. */
  method ApplyAll(store: FAISSVectorStore, history: seq<Change>)
    requires store.Valid() && store.Parallel() && Accepted(history, store.dims)
    modifies store`ids, store`vectors, store`index
    ensures store.Valid() && store.Parallel() && store.Holds() == ReplayFrom(old(store.Holds()), history)
  {
    for i := 0 to |history|
      invariant store.Valid() && store.Parallel()
      invariant store.Holds() == ReplayFrom(old(store.Holds()), history[..i])
    {
      assert history[..i + 1][..i] == history[..i];
      match history[i] {
        case AddVectors(vectors, ids) =>
          var ok := store.Add(vectors, ids);
        case DeleteVectors(ids) =>
          store.Delete(ids);
        case DeletePrefix(prefix) =>
          store.DeleteByPrefix(prefix);
      }
    }
    assert history[..|history|] == history;
  }

  /**
   * A complete save, further changes, and a second save that may crash; then a new process loads the
   * files.  Nothing written, it holds what the first save held; everything written, what the store
   * held; and in between its labels are right exactly when no entry of the first save was deleted.
   */
  method SaveChangeAndReload(store: FAISSVectorStore, since: seq<Change>, crash: SaveFault)
    returns (reloaded: FAISSVectorStore)
    requires store.disk != null && store.Valid() && store.Parallel() && Accepted(since, store.dims)
    modifies store`ids, store`vectors, store`index, store.disk
    ensures fresh(reloaded) && reloaded.Valid() && store.Holds() == ReplayFrom(old(store.Holds()), since)
    ensures crash == NoFault ==> reloaded.Parallel() && reloaded.Holds() == store.Holds()
    ensures crash == BeforeIndex ==> reloaded.Parallel() && reloaded.Holds() == old(store.Holds())
    ensures crash == BetweenFiles ==>
      && reloaded.vectors == VectorsOf(store.Holds())
      && reloaded.ids == CrashedIds(old(store.Holds()), since)
      && (OwnIds(old(store.Holds()), since) ==>
            (RightlyLabelled(IdsOf(store.Holds()), reloaded.ids) <==> NoneDeleted(old(store.Holds()), since)))
  {
    ghost var saved := store.Holds();
    var complete := store.Save(NoFault);
    PartsOfPair(store.ids, store.vectors);
    ApplyAll(store, since);
    var ok := store.Save(crash);
    PartsOfPair(store.ids, store.vectors);
    reloaded := new FAISSVectorStore(store.dims, store.disk);
    PairOfParts(saved);
    if OwnIds(saved, since) {
      CrashLabelsRightlyIff(saved, since);
    }
  }

  /** The new vectors are the last entries, under the ids that stand at their positions. */
  ghost predicate FiledUnder(held: Contents, m: nat, labels: seq<string>, newVectors: seq<Vector>) {
    && |held| == m + |newVectors| <= |labels|
    && forall p :: m <= p < |held| ==> held[p] == (labels[p], newVectors[p - m])
  }

  lemma NewVectorsAreFiled(ids: seq<string>, vectors: seq<Vector>, newIds: seq<string>, newVectors: seq<Vector>)
    requires |ids| >= |vectors| && |newIds| == |newVectors|
    ensures FiledUnder(Pair(ids + newIds, vectors + newVectors), |vectors|, ids + newIds, newVectors)
    ensures Pair(ids + newIds, vectors + newVectors)[..|vectors|] == Pair(ids, vectors)
  {
  }

  /** The new vectors got their own ids. */
  ghost predicate FiledRightly(held: Contents, m: nat, newIds: seq<string>) {
    |held| == m + |newIds| && forall p :: m <= p < |held| ==> held[p].0 == newIds[p - m]
  }

  /**
   * A store reloaded with more ids than vectors files new vectors under the left-over ids first: they
   * get their own ids exactly when none is left over.
   */
  lemma SurplusTakesNewVectors(ids: seq<string>, vectors: seq<Vector>, newIds: seq<string>, newVectors: seq<Vector>)
    requires |ids| >= |vectors| && |newIds| == |newVectors| > 0
    requires forall i :: 0 <= i < |newIds| ==> newIds[i] !in ids
    ensures var held := Pair(ids + newIds, vectors + newVectors);
      && FiledUnder(held, |vectors|, ids + newIds, newVectors)
      && (FiledRightly(held, |vectors|, newIds) <==> |ids| == |vectors|)
  {
    var held, m := Pair(ids + newIds, vectors + newVectors), |vectors|;
    NewVectorsAreFiled(ids, vectors, newIds, newVectors);
    if |ids| > m {
      assert held[m].0 == ids[m] && newIds[0] !in ids;
    }
  }

  /** After a deletion it is not: the survivor is found under the deleted vector's id. */
  lemma CrashAfterDeleteMislabels(u: Vector, v: Vector)
    ensures var before, since := [("d:1", u), ("d:2", v)], [DeleteVectors(["d:1"])];
      && ReplayFrom(before, since) == [("d:2", v)]
      && Pair(CrashedIds(before, since), [v])[0] == ("d:1", v)
      && !RightlyLabelled(["d:2"], CrashedIds(before, since))
  {
    var before, since := [("d:1", u), ("d:2", v)], [DeleteVectors(["d:1"])];
    assert SetOf(["d:1"]) == {"d:1"};
    assert since[..0] == [] && before[..1] == [("d:1", u)] && before[..1][..0] == [];
    assert Without([("d:1", u)], {"d:1"}) == [];
    assert Without(before, {"d:1"}) == [] + [("d:2", v)];
    assert IdsOf(before) == ["d:1", "d:2"];
  }

  // ----- The two stores agree -----

  /** What either store holds after a history of changes. */
  function Replay(history: seq<Change>): Contents {
    ReplayFrom([], history)
  }

  /** Any history of adds and deletes leaves both stores with the same list. */
  method ReplayBoth(history: seq<Change>, dims: nat) returns (memory: InMemoryVectorStore, faiss: FAISSVectorStore)
    requires Accepted(history, dims)
    ensures fresh(memory) && fresh(faiss) && memory.Parallel() && faiss.Valid() && faiss.Parallel()
    ensures memory.Holds() == faiss.Holds() == Replay(history)
  {
    memory := new InMemoryVectorStore();
    faiss := new FAISSVectorStore(dims, null);
    for i := 0 to |history|
      invariant fresh(memory) && fresh(faiss) && faiss.dims == dims
      invariant memory.Parallel() && faiss.Valid() && faiss.Parallel()
      invariant memory.Holds() == faiss.Holds() == Replay(history[..i])
    {
      assert history[..i + 1][..i] == history[..i];
      match history[i] {
        case AddVectors(vectors, ids) =>
          memory.Add(vectors, ids);
          var ok := faiss.Add(vectors, ids);
        case DeleteVectors(ids) =>
          memory.Delete(ids);
          faiss.Delete(ids);
        case DeletePrefix(prefix) =>
          memory.DeleteByPrefix(prefix);
          faiss.DeleteByPrefix(prefix);
      }
    }
    assert history[..|history|] == history;
  }

  lemma {:induction false} WithoutMembers(c: Contents, remove: set<string>)
    ensures forall e :: e in Without(c, remove) <==> e in c && e.0 !in remove
  {
    if c != [] {
      var n := |c| - 1;
      WithoutMembers(c[..n], remove);
      assert c == c[..n] + [c[n]];
    }
  }

  ghost predicate AllUnitOrZero(c: Contents) {
    forall e :: e in c ==> UnitOrZero(e.1)
  }

  /** A store that is only ever given vectors of norm one or zero holds no others. */
  lemma {:induction false} HistoryKeepsNorms(history: seq<Change>)
    requires forall i, j :: 0 <= i < |history| && history[i].AddVectors? && 0 <= j < |history[i].vectors| ==>
      UnitOrZero(history[i].vectors[j])
    ensures AllUnitOrZero(Replay(history))
  {
    if history != [] {
      var n := |history| - 1;
      HistoryKeepsNorms(history[..n]);
      var before := Replay(history[..n]);
      match history[n]
      case AddVectors(vectors, ids) =>
        forall e | e in before + Pair(ids, vectors) ensures UnitOrZero(e.1) {
          if e !in before {
            var j :| 0 <= j < |Pair(ids, vectors)| && Pair(ids, vectors)[j] == e;
            assert history[n].vectors[j] == e.1;
          }
        }
      case DeleteVectors(ids) => WithoutMembers(before, SetOf(ids));
      case DeletePrefix(prefix) => WithoutPrefixMembers(before, prefix);
    }
  }

  /** The agreement of two answers: equal scores at every rank, and ids that differ only where scores tie. */
  ghost predicate AgreeUpToTies(memory: seq<VectorHit>, faiss: seq<VectorHit>, scores: seq<real>) {
    && |memory| == |faiss|
    && (forall r :: 0 <= r < |memory| ==> memory[r].score == faiss[r].score)
    && forall r :: 0 <= r < |memory| ==>
         memory[r].id == faiss[r].id
         || exists p, q :: 0 <= p < q < |scores| && scores[p] == scores[q] == memory[r].score
  }

  /** On vectors of norm one or zero the cosines are the inner products. */
  lemma CosinesAreScores(c: Contents, query: Vector, sqrt: RealFunction)
    requires IsSqrt(sqrt) && UnitOrZero(query) && forall i :: 0 <= i < |c| ==> UnitOrZero(c[i].1)
    ensures Cosines(query, VectorsOf(c), sqrt) == Scores(query, VectorsOf(c))
  {
    var vectors := VectorsOf(c);
    forall i | 0 <= i < |vectors| ensures Cosine(query, vectors[i], sqrt) == Dot(query, vectors[i]) {
      CosineIsDot(query, vectors[i], sqrt);
    }
  }

  lemma TopKAnswersAgree(ids: seq<string>, scores: seq<real>, k: nat, a: seq<nat>, b: seq<nat>)
    requires |ids| == |scores| && IsTopK(scores, k, a) && IsTopK(scores, k, b)
    ensures AgreeUpToTies(HitsAt(ids, scores, a), HitsAt(ids, scores, b), scores)
  {
    TopKScoresAgree(scores, k, a, b);
    forall r | 0 <= r < |a| && a[r] != b[r]
      ensures exists p, q :: 0 <= p < q < |scores| && scores[p] == scores[q] == scores[a[r]]
    {
      var p, q := if a[r] < b[r] then a[r] else b[r], if a[r] < b[r] then b[r] else a[r];
      assert scores[p] == scores[q] == scores[a[r]];
    }
  }

  /**
   * On vectors of norm one or zero both stores return the same scores in the same order, and ids
   * that differ only where scores tie.
   */
  lemma SearchesAgree(c: Contents, query: Vector, k: nat, sqrt: RealFunction, at: seq<nat>)
    requires IsSqrt(sqrt) && UnitOrZero(query) && forall i :: 0 <= i < |c| ==> UnitOrZero(c[i].1)
    requires IsTopK(Scores(query, VectorsOf(c)), k, at)
    ensures var cosines, scores := Cosines(query, VectorsOf(c), sqrt), Scores(query, VectorsOf(c));
      && |Rank(cosines)| == |c|
      && AgreeUpToTies(HitsAt(IdsOf(c), cosines, Rank(cosines)[..Min(k, |c|)]), HitsAt(IdsOf(c), scores, at), scores)
  {
    var scores := Scores(query, VectorsOf(c));
    CosinesAreScores(c, query, sqrt);
    RankIsRanking(scores);
    RankingPrefixIsTopK(scores, Rank(scores), k);
    TopKAnswersAgree(IdsOf(c), scores, k, Rank(scores)[..Min(k, |c|)], at);
  }

  /** Searches two stores that hold the same. */
  method SearchBoth(memory: InMemoryVectorStore, faiss: FAISSVectorStore, query: Vector, topK: nat, sqrt: RealFunction,
                    ghost at: seq<nat>, scores: seq<real>, positions: seq<int>)
    returns (inMemory: seq<VectorHit>, inFaiss: seq<VectorHit>)
    requires memory.Parallel() && faiss.Valid() && faiss.Parallel() && memory.Holds() == faiss.Holds()
    requires IsSqrt(sqrt) && UnitOrZero(query) && AllUnitOrZero(memory.Holds())
    requires IsIndexAnswer(faiss.index, query, topK, scores, positions)
    requires at == Found(positions, Min(topK, |faiss.index|))
    ensures AgreeUpToTies(inMemory, inFaiss, Scores(query, VectorsOf(memory.Holds())))
    ensures |inMemory| == Min(topK, |memory.Holds()|)
  {
    PartsOfPair(faiss.ids, faiss.vectors);
    inMemory := memory.Search(query, topK, sqrt);
    inFaiss := faiss.Search(query, topK, at, scores, positions);
    ghost var c := memory.Holds();
    assert forall i :: 0 <= i < |c| ==> c[i] in c;
    SearchesAgree(c, query, topK, sqrt, at);
  }

  /**
   * Replays any history of vectors of norm one or zero into both stores and searches both; `scores` and
   * `positions` are what the index answers.
   */
  method ReplayAndSearch(history: seq<Change>, dims: nat, query: Vector, topK: nat, sqrt: RealFunction,
                         ghost at: seq<nat>, scores: seq<real>, positions: seq<int>)
    returns (inMemory: seq<VectorHit>, inFaiss: seq<VectorHit>)
    requires Accepted(history, dims) && IsSqrt(sqrt) && UnitOrZero(query)
    requires forall i, j :: 0 <= i < |history| && history[i].AddVectors? && 0 <= j < |history[i].vectors| ==>
      UnitOrZero(history[i].vectors[j])
    requires IsIndexAnswer(VectorsOf(Replay(history)), query, topK, scores, positions)
    requires at == Found(positions, Min(topK, |Replay(history)|))
    ensures AgreeUpToTies(inMemory, inFaiss, Scores(query, VectorsOf(Replay(history))))
    ensures |inMemory| == Min(topK, |Replay(history)|)
  {
    var memory, faiss := ReplayBoth(history, dims);
    HistoryKeepsNorms(history);
    PartsOfPair(faiss.ids, faiss.vectors);
    assert faiss.index == VectorsOf(Replay(history));
    inMemory, inFaiss := SearchBoth(memory, faiss, query, topK, sqrt, at, scores, positions);
  }
}
