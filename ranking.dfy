/** Top-K selection by descending score: the model of numpy's
    `scores.argsort()[::-1][:k]`, used by the query ranking (app.py, engine.py)
    and by the concept interpretation (test.py).

    `Argsort` is an ascending, stable insertion sort of the indices 0..n-1 by
    score; reversing it gives a descending order and Python's slice `[:k]`
    keeps at most k entries. numpy's default sort is not stable, so the order
    among equal scores is this model's own choice. `IsTopK` states what every
    tie order satisfies; the lemmas about the rankings assume only that. */
module Ranking {
  import opened Seqs

  /** Every entry of `idx` is an index into `scores`. */
  predicate InRange(idx: seq<nat>, n: nat) {
    forall a :: 0 <= a < |idx| ==> idx[a] < n
  }

  /** No index occurs twice. */
  predicate Distinct(idx: seq<nat>) {
    forall a, b :: 0 <= a < b < |idx| ==> idx[a] != idx[b]
  }

  /** Scores do not decrease along `idx`. */
  predicate AscendingBy(scores: seq<real>, idx: seq<nat>)
    requires InRange(idx, |scores|)
  {
    forall a, b :: 0 <= a < b < |idx| ==> scores[idx[a]] <= scores[idx[b]]
  }

  /** Scores do not increase along `idx`. */
  predicate DescendingBy(scores: seq<real>, idx: seq<nat>)
    requires InRange(idx, |scores|)
  {
    forall a, b :: 0 <= a < b < |idx| ==> scores[idx[a]] >= scores[idx[b]]
  }

  /** Inserts index `x` into the ascending list `sorted`, after every entry
      whose score is not greater than that of `x`. */
  function Insert(scores: seq<real>, x: nat, sorted: seq<nat>): (r: seq<nat>)
    requires x < |scores| && InRange(sorted, |scores|)
    requires AscendingBy(scores, sorted)
    ensures |r| == |sorted| + 1
    ensures InRange(r, |scores|) && AscendingBy(scores, r)
    ensures forall y :: y in r <==> y == x || y in sorted
    ensures Distinct(sorted) && x !in sorted ==> Distinct(r)
  {
    if sorted == [] then [x]
    else if scores[x] < scores[sorted[0]] then [x] + sorted
    else
      var rest := Insert(scores, x, sorted[1..]);
      assert forall b :: 0 <= b < |rest| ==> scores[sorted[0]] <= scores[rest[b]] by {
        forall b | 0 <= b < |rest| ensures scores[sorted[0]] <= scores[rest[b]] {
          assert rest[b] in rest;
          if rest[b] != x {
            AscendingHead(scores, sorted, rest[b]);
          }
        }
      }
      assert Distinct(sorted) && x !in sorted ==> sorted[0] !in rest;
      [sorted[0]] + rest
  }

  /** The head of an ascending list has the smallest score in it. */
  lemma AscendingHead(scores: seq<real>, sorted: seq<nat>, y: nat)
    requires InRange(sorted, |scores|) && AscendingBy(scores, sorted)
    requires y in sorted
    ensures scores[sorted[0]] <= scores[y]
  {
    var b :| 0 <= b < |sorted| && sorted[b] == y;
  }

  /** The indices 0..n-1 sorted by ascending score: a permutation of them. */
  function Argsort(scores: seq<real>, n: nat): (r: seq<nat>)
    requires n <= |scores|
    ensures |r| == n
    ensures InRange(r, |scores|) && AscendingBy(scores, r) && Distinct(r)
    ensures forall y :: y in r <==> 0 <= y < n
  {
    if n == 0 then [] else Insert(scores, n - 1, Argsort(scores, n - 1))
  }

  /** `scores.argsort()[::-1]`: all indices, best score first. */
  function RankAll(scores: seq<real>): (r: seq<nat>)
    ensures |r| == |scores|
    ensures InRange(r, |scores|) && DescendingBy(scores, r) && Distinct(r)
    ensures forall y :: y in r <==> 0 <= y < |scores|
  {
    var asc := Argsort(scores, |scores|);
    ReverseMembers(asc);
    ReverseFlips(scores, asc);
    Reverse(asc)
  }

  /** Reversing an ascending list of distinct indices gives a descending
      list of distinct indices. */
  lemma ReverseFlips(scores: seq<real>, asc: seq<nat>)
    requires InRange(asc, |scores|) && AscendingBy(scores, asc) && Distinct(asc)
    ensures InRange(Reverse(asc), |scores|)
    ensures DescendingBy(scores, Reverse(asc)) && Distinct(Reverse(asc))
  {
    var r := Reverse(asc);
    forall a, b | 0 <= a < b < |r| ensures scores[r[a]] >= scores[r[b]] && r[a] != r[b] {
      assert r[a] == asc[|asc| - 1 - a] && r[b] == asc[|asc| - 1 - b];
    }
  }

  /** `min(k, n)`: the length of Python's slice `[:k]` of an n-list. */
  function Min(k: nat, n: nat): nat {
    if k <= n then k else n
  }

  /** `top` is a correct answer to "the k best-scoring indices, best first",
      whatever order it gives equal scores: min(k, N) distinct indices into
      `scores`, their scores not increasing along it, and no index left out
      scoring higher than any index kept. */
  predicate IsTopK(scores: seq<real>, k: nat, top: seq<nat>) {
    && |top| == Min(k, |scores|)
    && InRange(top, |scores|)
    && Distinct(top)
    && DescendingBy(scores, top)
    && forall j, a :: 0 <= j < |scores| && j !in top && 0 <= a < |top| ==> scores[j] <= scores[top[a]]
  }

  /** `scores.argsort()[::-1][:k]`: the k best-scoring indices, best first.
      The result has exactly min(k, N) distinct indices into `scores`, their
      scores do not increase along it, and no index left out scores higher
      than any index kept. */
  function TopIndices(scores: seq<real>, k: nat): (r: seq<nat>)
    ensures IsTopK(scores, k, r)
    ensures k >= |scores| ==> forall j :: 0 <= j < |scores| ==> j in r
  {
    var all := RankAll(scores);
    PrefixOptimal(scores, all, Min(k, |scores|));
    assert k >= |scores| ==> all[..Min(k, |scores|)] == all;
    all[..Min(k, |scores|)]
  }

  /** In a descending ranking of every index, an index outside a prefix
      scores no higher than any index inside it. */
  lemma PrefixOptimal(scores: seq<real>, all: seq<nat>, m: nat)
    requires InRange(all, |scores|) && DescendingBy(scores, all)
    requires forall y :: y in all <==> 0 <= y < |scores|
    requires m <= |all|
    ensures forall j, a :: 0 <= j < |scores| && j !in all[..m] && 0 <= a < m ==> scores[j] <= scores[all[a]]
  {
    forall j, a | 0 <= j < |scores| && j !in all[..m] && 0 <= a < m ensures scores[j] <= scores[all[a]] {
      assert j in all;
      var p :| 0 <= p < |all| && all[p] == j;
      assert m <= p;
    }
  }
}
