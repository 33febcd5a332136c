/** The concept index shared by app.py and engine.py: the loaded artifacts,
    the document-concept matrix `U @ diags(s)`, the query projection
    `q_vec @ Vt.T`, and the non-zero count of a vectorised query. The
    vectoriser and the cosine similarity are library calls; the modules that
    use this one receive them as function parameters. */
module ConceptSpace {
  import opened Seqs
  import Decomposer

  /** The artifacts the serving code loads: the reordered decomposition and
      the document identifiers, one per row of U. */
  datatype Artifacts<Id> = Artifacts(svd: Decomposer.Svd, docIds: seq<Id>)

  /** The shapes the loaded artifacts have when they come from one build
      over V vocabulary terms: U is N x k, s has k entries, Vt is k x V, and
      identifier i names row i of U. */
  predicate Aligned<Id>(a: Artifacts<Id>, v: nat) {
    Decomposer.Shaped(a.svd, |a.docIds|, |a.svd.s|, v)
  }

  /** `U @ diags(s)`: document i's loading on concept j scaled by concept j's
      strength, for every one of the N documents. */
  function DocVectors(u: seq<seq<real>>, s: seq<real>): (r: seq<seq<real>>)
    requires RowsOfWidth(u, |s|)
    ensures |r| == |u| && RowsOfWidth(r, |s|)
    ensures forall i, j :: 0 <= i < |u| && 0 <= j < |s| ==> r[i][j] == u[i][j] * s[j]
  {
    seq(|u|, i requires 0 <= i < |u| => seq(|s|, j requires 0 <= j < |s| => u[i][j] * s[j]))
  }

  /** `q_vec @ Vt.T`: one coordinate per concept, the dot product of the
      query's term weights with that concept's term loadings. */
  function Project(q: seq<real>, vt: seq<seq<real>>): (r: seq<real>)
    requires RowsOfWidth(vt, |q|)
    ensures |r| == |vt|
    ensures forall j :: 0 <= j < |vt| ==> r[j] == Dot(q, vt[j])
  {
    seq(|vt|, j requires 0 <= j < |vt| => Dot(q, vt[j]))
  }

  /** `q_vec.nnz`: how many entries of the vectorised query are non-zero. It
      is zero exactly when the whole vector is zero. */
  function NonZeroCount(q: seq<real>): (n: nat)
    ensures n <= |q|
    ensures n == 0 <==> forall i :: 0 <= i < |q| ==> q[i] == 0.0
  {
    if |q| == 0 then 0
    else
      assert forall i :: 1 <= i < |q| ==> q[1..][i - 1] == q[i];
      (if q[0] != 0.0 then 1 else 0) + NonZeroCount(q[1..])
  }

  /** Score of every document against the projected query, with the
      similarity measure given as a parameter (sklearn's
      `cosine_similarity(q_concept, docs).flatten()`). */
  function Scores(qConcept: seq<real>, docs: seq<seq<real>>, cosine: (seq<real>, seq<real>) -> real): (r: seq<real>)
    ensures |r| == |docs|
    ensures forall i :: 0 <= i < |docs| ==> r[i] == cosine(qConcept, docs[i])
  {
    seq(|docs|, i requires 0 <= i < |docs| => cosine(qConcept, docs[i]))
  }

  /** A query with no known term lands on the origin of concept space: this
      is why the front end answers "unknown term" instead of ranking. */
  lemma UnknownQueryAtOrigin(q: seq<real>, vt: seq<seq<real>>)
    requires RowsOfWidth(vt, |q|) && NonZeroCount(q) == 0
    ensures forall j :: 0 <= j < |vt| ==> Project(q, vt)[j] == 0.0
  {
    forall j | 0 <= j < |vt| ensures Project(q, vt)[j] == 0.0 {
      DotZero(q, vt[j]);
    }
  }

  /** A query consisting of the single term t (weight 1) projects onto that
      term's concept loadings, column t of Vt. */
  lemma SingleTermQuery(q: seq<real>, vt: seq<seq<real>>, t: nat)
    requires RowsOfWidth(vt, |q|) && t < |q|
    requires q[t] == 1.0 && forall i :: 0 <= i < |q| && i != t ==> q[i] == 0.0
    ensures NonZeroCount(q) == 1
    ensures Project(q, vt) == Column(vt, t)
  {
    forall j | 0 <= j < |vt| ensures Project(q, vt)[j] == Column(vt, t)[j] {
      DotUnit(q, vt[j], t);
    }
    SingleNonZero(q, t);
  }

  lemma {:induction false} SingleNonZero(q: seq<real>, t: nat)
    requires t < |q| && q[t] != 0.0
    requires forall i :: 0 <= i < |q| && i != t ==> q[i] == 0.0
    ensures NonZeroCount(q) == 1
  {
    if t > 0 {
      SingleNonZero(q[1..], t - 1);
    } else {
      assert forall i :: 0 <= i < |q[1..]| ==> q[1..][i] == q[i + 1];
    }
  }

  /** The reordering done by the decomposer does not change anything the
      similarity can see: the projected query and each document vector are
      both reversed, so their dot product and both squared norms are the
      same as for the solver's own order. Cosine similarity is a function of
      these three numbers, so the ranking does not depend on the order in
      which the solver returned the concepts. */
  lemma ReorderKeepsGeometry(solver: Decomposer.Svd, n: nat, k: nat, v: nat, q: seq<real>, i: nat)
    requires Decomposer.Shaped(solver, n, k, v) && |q| == v && i < n
    ensures var t := Decomposer.RunSvd(solver);
      var p, p' := Project(q, solver.vt), Project(q, t.vt);
      var d, d' := DocVectors(solver.u, solver.s)[i], DocVectors(t.u, t.s)[i];
      && p' == Reverse(p) && d' == Reverse(d)
      && Dot(p', d') == Dot(p, d)
      && Dot(p', p') == Dot(p, p)
      && Dot(d', d') == Dot(d, d)
  {
    var t := Decomposer.RunSvd(solver);
    var p, d := Project(q, solver.vt), DocVectors(solver.u, solver.s)[i];
    ProjectionReversed(solver, n, k, v, q);
    DocVectorReversed(solver, n, k, v, i);
    DotReverse(p, d);
    DotReverse(p, p);
    DotReverse(d, d);
  }

  /** The query projected with the reordered Vt is the reversed projection. */
  lemma ProjectionReversed(solver: Decomposer.Svd, n: nat, k: nat, v: nat, q: seq<real>)
    requires Decomposer.Shaped(solver, n, k, v) && |q| == v
    ensures Project(q, Decomposer.RunSvd(solver).vt) == Reverse(Project(q, solver.vt))
  {
    Decomposer.ReorderedEntries(solver, n, k, v);
  }

  /** Document i's vector under the reordered factors is its reversed
      vector under the solver's factors. */
  lemma DocVectorReversed(solver: Decomposer.Svd, n: nat, k: nat, v: nat, i: nat)
    requires Decomposer.Shaped(solver, n, k, v) && i < n
    ensures var t := Decomposer.RunSvd(solver);
      DocVectors(t.u, t.s)[i] == Reverse(DocVectors(solver.u, solver.s)[i])
  {
    var t := Decomposer.RunSvd(solver);
    Decomposer.ReorderedEntries(solver, n, k, v);
    var d, d' := DocVectors(solver.u, solver.s)[i], DocVectors(t.u, t.s)[i];
    forall j | 0 <= j < k ensures d'[j] == Reverse(d)[j] {
      assert d'[j] == t.u[i][j] * t.s[j];
      assert d[k - 1 - j] == solver.u[i][k - 1 - j] * solver.s[k - 1 - j];
    }
  }
}
