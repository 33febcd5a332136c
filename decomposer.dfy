/** The post-processing of the truncated SVD in decomposer.py's `run_svd`.
    The sparse solver itself is not modelled: its output triple is an input.
    The solver returns the k singular triples weakest first; `run_svd` flips
    U's columns, s and Vt's rows with the same reversal so that concept 0
    is the strongest. */
module Decomposer {
  import opened Seqs

  /** A rank-k decomposition U (N x k), s (length k), Vt (k x V). Matrices are
      sequences of rows. */
  datatype Svd = Svd(u: seq<seq<real>>, s: seq<real>, vt: seq<seq<real>>)

  /** The shape the solver promises for an N x V input and k concepts. */
  predicate Shaped(t: Svd, n: nat, k: nat, v: nat) {
    |t.u| == n && RowsOfWidth(t.u, k) && |t.s| == k && |t.vt| == k && RowsOfWidth(t.vt, v)
  }

  /** `U[:, ::-1], s[::-1], Vt[::-1, :]`. */
  function RunSvd(solver: Svd): (r: Svd)
    ensures forall n: nat, k: nat, v: nat {:trigger Shaped(solver, n, k, v)} ::
      Shaped(solver, n, k, v) ==> Shaped(r, n, k, v)
  {
    Svd(seq(|solver.u|, i requires 0 <= i < |solver.u| => Reverse(solver.u[i])),
        Reverse(solver.s),
        Reverse(solver.vt))
  }

  /** Concept j of a decomposition: its document loadings, its strength and
      its term loadings. */
  function Triple(t: Svd, n: nat, k: nat, v: nat, j: nat): (seq<real>, real, seq<real>)
    requires Shaped(t, n, k, v) && j < k
  {
    (Column(t.u, j), t.s[j], t.vt[j])
  }

  /** Returned concept j is the solver's concept k-1-j, taken whole: the
      U column, the strength and the Vt row all move together. */
  lemma TriplesStayTogether(solver: Svd, n: nat, k: nat, v: nat, j: nat)
    requires Shaped(solver, n, k, v) && j < k
    ensures Shaped(RunSvd(solver), n, k, v)
    ensures Triple(RunSvd(solver), n, k, v, j) == Triple(solver, n, k, v, k - 1 - j)
  {
    var r := RunSvd(solver);
    assert Column(r.u, j) == Column(solver.u, k - 1 - j) by {
      forall i | 0 <= i < n ensures Column(r.u, j)[i] == Column(solver.u, k - 1 - j)[i] {
        assert r.u[i] == Reverse(solver.u[i]);
      }
    }
  }

  /** Entry-wise form of the reversal: s'[j] = s[k-1-j], U'[i][j] =
      U[i][k-1-j] and Vt'[j] = Vt[k-1-j]. */
  lemma ReorderedEntries(solver: Svd, n: nat, k: nat, v: nat)
    requires Shaped(solver, n, k, v)
    ensures var r := RunSvd(solver);
      && (forall j :: 0 <= j < k ==> r.s[j] == solver.s[k - 1 - j] && r.vt[j] == solver.vt[k - 1 - j])
      && (forall i, j :: 0 <= i < n && 0 <= j < k ==> r.u[i][j] == solver.u[i][k - 1 - j])
  {
  }

  /** Reordering twice restores the solver's output, so no information is
      lost or invented. */
  lemma RunSvdInvolution(solver: Svd, n: nat, k: nat, v: nat)
    requires Shaped(solver, n, k, v)
    ensures RunSvd(RunSvd(solver)) == solver
  {
    var r2 := RunSvd(RunSvd(solver));
    ReverseInvolution(solver.s);
    ReverseInvolution(solver.vt);
    forall i | 0 <= i < n ensures r2.u[i] == solver.u[i] {
      ReverseInvolution(solver.u[i]);
    }
  }

  /** Strengths do not decrease along `s` (the solver's order). */
  predicate Ascending(s: seq<real>) {
    forall a, b :: 0 <= a < b < |s| ==> s[a] <= s[b]
  }

  /** Strengths do not increase along `s` (the index's order). */
  predicate Descending(s: seq<real>) {
    forall a, b :: 0 <= a < b < |s| ==> s[a] >= s[b]
  }

  /** If the solver returns its strengths ascending (weakest first), the
      reordered strengths are descending, concept 0 is the strongest, and
      strictly ascending input gives strictly descending output. */
  lemma StrongestFirst(solver: Svd, n: nat, k: nat, v: nat)
    requires Shaped(solver, n, k, v) && Ascending(solver.s)
    ensures Descending(RunSvd(solver).s)
    ensures forall j :: 0 <= j < k ==> RunSvd(solver).s[j] <= RunSvd(solver).s[0]
    ensures (forall a, b :: 0 <= a < b < k ==> solver.s[a] < solver.s[b]) ==>
            (forall a, b :: 0 <= a < b < k ==> RunSvd(solver).s[a] > RunSvd(solver).s[b])
  {
    var r := RunSvd(solver);
    forall a, b | 0 <= a < b < k ensures r.s[a] >= r.s[b] {
      assert r.s[a] == solver.s[k - 1 - a] && r.s[b] == solver.s[k - 1 - b];
    }
  }
}
