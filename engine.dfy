/** The command-line search in engine.py. `search` loads the artifacts from
    disk (here: parameters), vectorises and projects the query, scores every
    document and prints the TOP_K best. Unlike the front end it has no
    zero-vector check and returns nothing: its observable effect is the
    printed block, modelled as the header's count and one line per hit. */
module Engine {
  import opened Ranking
  import opened ConceptSpace

  /** Number of results printed. */
  const TopK: nat := 5

  /** "{rank}. [Score: {score}] arXiv link: .../{doc_id}". */
  datatype ResultLine<Id> = ResultLine(rank: nat, score: real, docId: Id)

  /** Line r has rank r+1 and the score and identifier of the same
      document, top[r]. */
  predicate LinesFor<Id(==)>(lines: seq<ResultLine<Id>>, top: seq<nat>, docIds: seq<Id>, scores: seq<real>)
    requires InRange(top, |docIds|) && InRange(top, |scores|)
  {
    |lines| == |top| &&
    forall r :: 0 <= r < |top| ==> lines[r] == ResultLine(r + 1, scores[top[r]], docIds[top[r]])
  }

  /** `search(query)`: prints "Top {TOP_K} Results:" and then, for the
      best-scoring documents in descending score order, their rank from 1,
      score and identifier. Even a query with no known term is ranked (the
      similarity decides what such a query scores). */
  method Search<Id(==)>(a: Artifacts<Id>, v: nat, query: string,
                        vectorize: string -> seq<real>, cosine: (seq<real>, seq<real>) -> real)
    returns (heading: nat, lines: seq<ResultLine<Id>>)
    requires Aligned(a, v) && |vectorize(query)| == v
    ensures heading == TopK
    ensures var scores := Scores(Project(vectorize(query), a.svd.vt), DocVectors(a.svd.u, a.svd.s), cosine);
      LinesFor(lines, TopIndices(scores, TopK), a.docIds, scores)
  {
    var qVec := vectorize(query);
    var qConcept := Project(qVec, a.svd.vt);
    var docsVec := DocVectors(a.svd.u, a.svd.s);
    var scores := Scores(qConcept, docsVec, cosine);
    var top := TopIndices(scores, TopK);
    heading := TopK;
    lines := PrintLines(top, a.docIds, scores);
  }

  /** The printing loop over `top_indices`: line r has rank r+1 and shows
      the score and identifier of document top[r]. */
  method PrintLines<Id(==)>(top: seq<nat>, docIds: seq<Id>, scores: seq<real>) returns (lines: seq<ResultLine<Id>>)
    requires InRange(top, |docIds|) && InRange(top, |scores|)
    ensures LinesFor(lines, top, docIds, scores)
  {
    lines := [];
    for rank := 0 to |top|
      invariant LinesFor(lines, top[..rank], docIds, scores)
    {
      var idx := top[rank];
      lines := lines + [ResultLine(rank + 1, scores[idx], docIds[idx])];
    }
  }

  /** The printed block, for any ordering of ties, lists min(TOP_K, N)
      lines ranked 1, 2, ... over pairwise different documents, scores not
      increasing, and no document left out scoring higher than a printed
      one. Search's lines are one instance (TopIndices meets IsTopK). */
  lemma PrintedLinesAreTheBest<Id>(docIds: seq<Id>, scores: seq<real>, top: seq<nat>, lines: seq<ResultLine<Id>>)
    requires |scores| == |docIds| && IsTopK(scores, TopK, top)
    requires LinesFor(lines, top, docIds, scores)
    ensures |lines| == Min(TopK, |docIds|)
    ensures forall r :: 0 <= r < |lines| ==> lines[r].rank == r + 1
    ensures forall r, r' :: 0 <= r < r' < |lines| ==> lines[r].score >= lines[r'].score
    ensures forall r, r' :: 0 <= r < r' < |lines| ==> top[r] != top[r']
    ensures forall j, r :: 0 <= j < |scores| && j !in top && 0 <= r < |lines| ==> scores[j] <= lines[r].score
  {
  }
}
