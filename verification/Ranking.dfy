/** Ranking by score, highest first: the stable sort, exact top-k answers, and what ties leave open. */
module Ranking {
  import opened Numbers

  function Min(a: nat, b: nat): nat {
    if a < b then a else b
  }

  ghost predicate InRange(at: seq<nat>, n: nat) {
    forall i :: 0 <= i < |at| ==> at[i] < n
  }

  ghost predicate NoRepeats(at: seq<nat>) {
    forall i, j :: 0 <= i < j < |at| ==> at[i] != at[j]
  }

  /** Position `p` ranks ahead of `q`: by score, among equal scores by position. */
  ghost predicate Ahead(scores: seq<real>, p: nat, q: nat)
    requires p < |scores| && q < |scores|
  {
    scores[p] > scores[q] || (scores[p] == scores[q] && p < q)
  }

  ghost predicate InOrder(scores: seq<real>, at: seq<nat>) {
    InRange(at, |scores|) && forall i, j :: 0 <= i < j < |at| ==> Ahead(scores, at[i], at[j])
  }

  /** `at` lists every position once, by descending score and, among equal scores, in order. */
  ghost predicate IsRanking(scores: seq<real>, at: seq<nat>) {
    InOrder(scores, at) && forall p: nat :: p in at <==> p < |scores|
  }

  /** `at` is an exact answer to "the `k` best positions"; among equal scores any choice will do. */
  ghost predicate IsTopK(scores: seq<real>, k: nat, at: seq<nat>) {
    && |at| == Min(k, |scores|) && InRange(at, |scores|) && NoRepeats(at)
    && (forall i, j :: 0 <= i < j < |at| ==> scores[at[i]] >= scores[at[j]])
    && forall p, i :: 0 <= p < |scores| && p !in at && 0 <= i < |at| ==> scores[p] <= scores[at[i]]
  }

  // ----- The stable sort -----

  /** Puts `p` behind every position that scores at least as much. */
  function Insert(scores: seq<real>, at: seq<nat>, p: nat): (r: seq<nat>)
    requires p < |scores| && forall i :: 0 <= i < |at| ==> at[i] < |scores|
    ensures forall i :: 0 <= i < |r| ==> r[i] < |scores|
  {
    if at == [] then [p]
    else
      var last := at[|at| - 1];
      if scores[last] >= scores[p] then at + [p]
      else Insert(scores, at[..|at| - 1], p) + [last]
  }

  function RankUpTo(scores: seq<real>, n: nat): (r: seq<nat>)
    requires n <= |scores|
    ensures forall i :: 0 <= i < |r| ==> r[i] < |scores|
  {
    if n == 0 then [] else Insert(scores, RankUpTo(scores, n - 1), n - 1)
  }

  /** The positions of `scores` in the order of a stable descending sort. */
  function Rank(scores: seq<real>): (r: seq<nat>)
    ensures forall i :: 0 <= i < |r| ==> r[i] < |scores|
  {
    RankUpTo(scores, |scores|)
  }

  lemma {:induction false} InsertMembers(scores: seq<real>, at: seq<nat>, p: nat)
    requires p < |scores| && InRange(at, |scores|)
    ensures forall x :: x in Insert(scores, at, p) <==> x in at || x == p
  {
    if at != [] {
      var n := |at| - 1;
      assert at == at[..n] + [at[n]];
      if scores[at[n]] < scores[p] {
        InsertMembers(scores, at[..n], p);
      }
    }
  }

  lemma AppendInOrder(scores: seq<real>, front: seq<nat>, last: nat)
    requires InOrder(scores, front) && last < |scores|
    requires forall x :: x in front ==> x < |scores| && Ahead(scores, x, last)
    ensures InOrder(scores, front + [last])
  {
    var at := front + [last];
    forall i, j | 0 <= i < j < |at| ensures Ahead(scores, at[i], at[j]) {
      if j == |front| {
        assert front[i] in front;
      }
    }
  }

  /** Inserting a later position keeps the order. */
  lemma {:induction false} InsertInOrder(scores: seq<real>, at: seq<nat>, p: nat)
    requires p < |scores| && InOrder(scores, at) && InRange(at, p)
    ensures InOrder(scores, Insert(scores, at, p))
  {
    if at != [] {
      var n := |at| - 1;
      var last := at[n];
      if scores[last] >= scores[p] {
        forall x | x in at ensures x < |scores| && Ahead(scores, x, p) {
          var i :| 0 <= i < |at| && at[i] == x;
          assert i == n || Ahead(scores, at[i], last);
        }
        AppendInOrder(scores, at, p);
      } else {
        InsertInOrder(scores, at[..n], p);
        InsertMembers(scores, at[..n], p);
        forall x | x in Insert(scores, at[..n], p) ensures x < |scores| && Ahead(scores, x, last) {
          if x in at[..n] {
            var i :| 0 <= i < n && at[i] == x;
            assert Ahead(scores, at[i], at[n]);
          }
        }
        AppendInOrder(scores, Insert(scores, at[..n], p), last);
      }
    }
  }

  lemma {:induction false} RankUpToIsRanking(scores: seq<real>, n: nat)
    requires n <= |scores|
    ensures InOrder(scores, RankUpTo(scores, n))
    ensures forall p: nat :: p in RankUpTo(scores, n) <==> p < n
  {
    if n > 0 {
      var before := RankUpTo(scores, n - 1);
      RankUpToIsRanking(scores, n - 1);
      assert InRange(before, n - 1) by {
        assert forall i :: 0 <= i < |before| ==> before[i] in before;
      }
      InsertInOrder(scores, before, n - 1);
      InsertMembers(scores, before, n - 1);
    }
  }

  /** The sort is a stable descending sort. */
  lemma RankIsRanking(scores: seq<real>)
    ensures IsRanking(scores, Rank(scores))
  {
    RankUpToIsRanking(scores, |scores|);
  }

  // ----- Pigeonhole -----

  function Positions(at: seq<nat>): set<nat> {
    set x | x in at
  }

  lemma {:induction false} NoRepeatsSize(at: seq<nat>)
    requires NoRepeats(at)
    ensures |Positions(at)| == |at|
  {
    if at != [] {
      var n := |at| - 1;
      NoRepeatsSize(at[..n]);
      assert at == at[..n] + [at[n]];
      assert Positions(at) == Positions(at[..n]) + {at[n]};
    }
  }

  function Below(n: nat): set<nat> {
    if n == 0 then {} else Below(n - 1) + {n - 1}
  }

  lemma {:induction false} BelowIs(n: nat)
    ensures |Below(n)| == n && forall x: nat :: x in Below(n) <==> x < n
  {
    if n > 0 {
      BelowIs(n - 1);
    }
  }

  lemma InOrderNoRepeats(scores: seq<real>, at: seq<nat>)
    requires InOrder(scores, at)
    ensures NoRepeats(at)
  {
    forall i, j | 0 <= i < j < |at| ensures at[i] != at[j] {
      assert Ahead(scores, at[i], at[j]);
    }
  }

  lemma RankingSize(scores: seq<real>, at: seq<nat>)
    requires IsRanking(scores, at)
    ensures |at| == |scores| && NoRepeats(at)
  {
    InOrderNoRepeats(scores, at);
    NoRepeatsSize(at);
    BelowIs(|scores|);
    assert Positions(at) == Below(|scores|);
  }

  /** Among more positions than `b` holds, one is not in `b`. */
  lemma SomeOutside(a: seq<nat>, b: seq<nat>) returns (j: nat)
    requires NoRepeats(a) && NoRepeats(b) && |a| > |b|
    ensures j < |a| && a[j] !in b
  {
    if forall i :: 0 <= i < |a| ==> a[i] in b {
      NoRepeatsSize(a);
      NoRepeatsSize(b);
      SubsetSize(Positions(a), Positions(b));
      assert false;
    }
    j :| 0 <= j < |a| && a[j] !in b;
  }

  lemma NotInPrefix(at: seq<nat>, n: nat, x: nat) returns (i: nat)
    requires n <= |at| && x in at && x !in at[..n]
    ensures n <= i < |at| && at[i] == x
  {
    i :| 0 <= i < |at| && at[i] == x;
    assert forall k :: 0 <= k < n ==> at[k] in at[..n];
  }

  // ----- Only the order of the scores matters -----

  /** What comes after the first `r` positions of a ranking comes after position `r`. */
  lemma NextIsAhead(scores: seq<real>, at: seq<nat>, r: nat, x: nat)
    requires IsRanking(scores, at) && r < |at| && x < |scores| && x !in at[..r] && x != at[r]
    ensures Ahead(scores, at[r], x)
  {
    var i := NotInPrefix(at, r, x);
    assert i != r;
  }

  lemma {:induction false} RankingsAgreeUpTo(scores: seq<real>, a: seq<nat>, b: seq<nat>, n: nat)
    requires IsRanking(scores, a) && IsRanking(scores, b) && n <= |a| == |b|
    ensures a[..n] == b[..n]
  {
    if n > 0 {
      var r := n - 1;
      RankingsAgreeUpTo(scores, a, b, r);
      InOrderNoRepeats(scores, a);
      InOrderNoRepeats(scores, b);
      if a[r] != b[r] {
        NextIsAhead(scores, a, r, b[r]);
        NextIsAhead(scores, b, r, a[r]);
      }
    }
  }

  /** There is only one ranking of given scores. */
  lemma RankingIsUnique(scores: seq<real>, a: seq<nat>, b: seq<nat>)
    requires IsRanking(scores, a) && IsRanking(scores, b)
    ensures a == b
  {
    RankingSize(scores, a);
    RankingSize(scores, b);
    RankingsAgreeUpTo(scores, a, b, |a|);
  }

  ghost predicate SameOrder(s: seq<real>, t: seq<real>) {
    |s| == |t| && forall i, j :: 0 <= i < |s| && 0 <= j < |s| ==> (s[i] < s[j] <==> t[i] < t[j])
  }

  /** Scores in the same order are ranked alike. */
  lemma SameOrderSameRank(s: seq<real>, t: seq<real>)
    requires SameOrder(s, t)
    ensures Rank(s) == Rank(t)
  {
    RankIsRanking(s);
    RankIsRanking(t);
    var at := Rank(s);
    forall i, j | 0 <= i < j < |at| ensures Ahead(t, at[i], at[j]) {
      assert Ahead(s, at[i], at[j]);
      assert s[at[i]] < s[at[j]] <==> t[at[i]] < t[at[j]];
      assert s[at[j]] < s[at[i]] <==> t[at[j]] < t[at[i]];
    }
    RankingIsUnique(t, at, Rank(t));
  }

  // ----- Top-k -----

  /** The first `k` of a ranking are an exact top-k answer. */
  lemma RankingPrefixIsTopK(scores: seq<real>, at: seq<nat>, k: nat)
    requires IsRanking(scores, at)
    ensures |at| == |scores| && IsTopK(scores, k, at[..Min(k, |at|)])
  {
    RankingSize(scores, at);
    var top := at[..Min(k, |at|)];
    forall p, i | 0 <= p < |scores| && p !in top && 0 <= i < |top| ensures scores[p] <= scores[top[i]] {
      var j := NotInPrefix(at, |top|, p);
      assert Ahead(scores, at[i], at[j]);
    }
    forall i, j | 0 <= i < j < |top| ensures scores[top[i]] >= scores[top[j]] {
      assert Ahead(scores, at[i], at[j]);
    }
  }

  lemma NotAbove(scores: seq<real>, k: nat, a: seq<nat>, b: seq<nat>, r: nat)
    requires IsTopK(scores, k, a) && IsTopK(scores, k, b) && r < |a|
    ensures scores[a[r]] <= scores[b[r]]
  {
    var j := SomeOutside(a[..r + 1], b[..r]);
    assert scores[a[j]] >= scores[a[r]];
    if a[j] in b {
      var t := NotInPrefix(b, r, a[j]);
    }
  }

  /** Two exact top-k answers have the same scores at every rank. */
  lemma TopKScoresAgree(scores: seq<real>, k: nat, a: seq<nat>, b: seq<nat>)
    requires IsTopK(scores, k, a) && IsTopK(scores, k, b)
    ensures |a| == |b| && forall r :: 0 <= r < |a| ==> scores[a[r]] == scores[b[r]]
  {
    forall r | 0 <= r < |a| ensures scores[a[r]] == scores[b[r]] {
      NotAbove(scores, k, a, b, r);
      NotAbove(scores, k, b, a, r);
    }
  }

  /** They can differ only by ties: a score no other position has is at the same place in both. */
  lemma TopKDiffersOnlyByTies(scores: seq<real>, k: nat, a: seq<nat>, b: seq<nat>, r: nat)
    requires IsTopK(scores, k, a) && IsTopK(scores, k, b) && r < |a|
    ensures r < |b|
    ensures (forall p :: 0 <= p < |scores| && scores[p] == scores[a[r]] ==> p == a[r]) ==> b[r] == a[r]
    ensures a[r] !in b ==> scores[a[r]] == scores[a[|a| - 1]]
  {
    TopKScoresAgree(scores, k, a, b);
    if a[r] !in b {
      assert scores[a[r]] <= scores[b[|b| - 1]];
    }
  }
}
