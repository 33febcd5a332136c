/** The Dash front end in app.py, reduced to the data it computes: the
    points prepared once at start-up and, per search, the result panel and
    the traces of the 3-D figure. Layout, styling and HTML are left out; a
    result card is its rank, its identifier and its score. */
module App {
  import opened Seqs
  import opened Ranking
  import opened ConceptSpace

  /** Number of documents drawn in the figure. */
  const LimitPoints: nat := 10000
  /** Number of results shown per query. */
  const TopK: nat := 5

  /** The loaded artifacts app.py works with: aligned, and with at least the
      three concepts that the figure's x, y and z axes read. */
  predicate Serving<Id>(a: Artifacts<Id>, v: nat) {
    Aligned(a, v) && |a.svd.s| >= 3
  }

  /** What the module body computes once after loading: the full
      document-concept matrix and the coordinates of the plotted subset. */
  datatype Prepared<Id> = Prepared(
    docVectors: seq<seq<real>>,
    visIds: seq<Id>,
    xs: seq<real>, ys: seq<real>, zs: seq<real>)

  /** `doc_vectors = U @ diags(s)` over ALL documents; the figure shows the
      first min(LIMIT_POINTS, N) rows, labelled by the matching identifiers,
      at concepts 0, 1 and 2. */
  function Prepare<Id>(a: Artifacts<Id>, v: nat): (p: Prepared<Id>)
    requires Serving(a, v)
    ensures |p.docVectors| == |a.docIds| && RowsOfWidth(p.docVectors, |a.svd.s|)
    ensures forall i, j :: 0 <= i < |a.docIds| && 0 <= j < |a.svd.s| ==>
      p.docVectors[i][j] == a.svd.u[i][j] * a.svd.s[j]
    ensures var m := Min(LimitPoints, |a.docIds|);
      && |p.visIds| == m && |p.xs| == m && |p.ys| == m && |p.zs| == m
      && forall i :: 0 <= i < m ==>
           && p.visIds[i] == a.docIds[i]
           && p.xs[i] == p.docVectors[i][0]
           && p.ys[i] == p.docVectors[i][1]
           && p.zs[i] == p.docVectors[i][2]
  {
    var docVectors := DocVectors(a.svd.u, a.svd.s);
    var m := Min(LimitPoints, |a.docIds|);
    var visData := docVectors[..m];
    Prepared(docVectors, a.docIds[..m], Column(visData, 0), Column(visData, 1), Column(visData, 2))
  }

  /** A point of the 3-D figure. */
  datatype Point = Point(x: real, y: real, z: real)

  /** One result card: "{rank}. arXiv:{doc_id}" and its score. */
  datatype Card<Id> = Card(rank: nat, docId: Id, score: real)

  /** The children of the search-results panel. */
  datatype Results<Id> =
    | Placeholder                                  // "Enter a query to see related papers."
    | UnknownTerm                                  // "Unknown term."
    | Matches(heading: nat, cards: seq<Card<Id>>)  // "Top {TOP_K} Matches:" and one card per hit

  /** A trace of the figure: the document cloud, or the query's marker. */
  datatype Trace<Id> =
    | DocumentsTrace(xs: seq<real>, ys: seq<real>, zs: seq<real>, ids: seq<Id>)
    | QueryTrace(marker: Point, queryText: string)

  /** Card r has rank r+1 and shows the identifier and the score of the
      same document, top[r]. */
  predicate CardsFor<Id(==)>(cards: seq<Card<Id>>, top: seq<nat>, docIds: seq<Id>, scores: seq<real>)
    requires InRange(top, |docIds|) && InRange(top, |scores|)
  {
    |cards| == |top| &&
    forall r :: 0 <= r < |top| ==> cards[r] == Card(r + 1, docIds[top[r]], scores[top[r]])
  }

  /** The loop over `top_indices` that builds the cards: the card at
      position r has rank r+1 and shows document top[r]. */
  method BuildCards<Id(==)>(top: seq<nat>, docIds: seq<Id>, scores: seq<real>) returns (cards: seq<Card<Id>>)
    requires InRange(top, |docIds|) && InRange(top, |scores|)
    ensures CardsFor(cards, top, docIds, scores)
  {
    cards := [];
    for rank := 0 to |top|
      invariant CardsFor(cards, top[..rank], docIds, scores)
    {
      var idx := top[rank];
      cards := cards + [Card(rank + 1, docIds[idx], scores[idx])];
    }
  }

  /** The search box holds text that Python treats as true: present and
      non-empty. */
  predicate HasQuery(query: Option<string>) {
    query.Some? && query.value != ""
  }

  /** The callback `update_view`. `vectorize` stands for the fitted
      vectoriser's `transform`, `cosine` for sklearn's cosine similarity.
      Without a query the panel keeps its placeholder; a query with no known
      term gets the "unknown term" message; otherwise the panel lists the
      TOP_K best documents among all N, numbered from 1, and the figure gets
      a marker at the query's first three concept coordinates. */
  method UpdateView<Id(==)>(a: Artifacts<Id>, v: nat, p: Prepared<Id>, query: Option<string>,
                        vectorize: string -> seq<real>, cosine: (seq<real>, seq<real>) -> real)
    returns (data: seq<Trace<Id>>, results: Results<Id>)
    requires Serving(a, v) && p == Prepare(a, v)
    requires forall text :: |vectorize(text)| == v
    ensures |data| >= 1 && data[0] == DocumentsTrace(p.xs, p.ys, p.zs, p.visIds)
    ensures !HasQuery(query) ==> results == Placeholder && |data| == 1
    ensures HasQuery(query) && NonZeroCount(vectorize(query.value)) == 0 ==>
      results == UnknownTerm && |data| == 1
    ensures HasQuery(query) && NonZeroCount(vectorize(query.value)) != 0 ==>
      var qConcept := Project(vectorize(query.value), a.svd.vt);
      var scores := Scores(qConcept, p.docVectors, cosine);
      var top := TopIndices(scores, TopK);
      && results.Matches? && results.heading == TopK
      && CardsFor(results.cards, top, a.docIds, scores)
      && data == [data[0], QueryTrace(Point(qConcept[0], qConcept[1], qConcept[2]), query.value)]
  {
    results := Placeholder;
    data := [DocumentsTrace(p.xs, p.ys, p.zs, p.visIds)];
    if HasQuery(query) {
      var qVec := vectorize(query.value);
      if NonZeroCount(qVec) == 0 {
        results := UnknownTerm;
      } else {
        var qConcept := Project(qVec, a.svd.vt);
        var scores := Scores(qConcept, p.docVectors, cosine);
        var top := TopIndices(scores, TopK);
        var cards := BuildCards(top, a.docIds, scores);
        results := Matches(TopK, cards);
        data := data + [QueryTrace(Point(qConcept[0], qConcept[1], qConcept[2]), query.value)];
      }
    }
  }

  /** What a reader of the result panel sees, for any ordering of ties:
      min(TOP_K, N) cards numbered 1, 2, ..., naming pairwise different
      documents, best score first, and no document outside the list scoring
      higher than any listed one. UpdateView's cards are one instance
      (TopIndices meets IsTopK). */
  lemma MatchesAreTheBest<Id>(docIds: seq<Id>, scores: seq<real>, top: seq<nat>, cards: seq<Card<Id>>)
    requires |scores| == |docIds| && IsTopK(scores, TopK, top)
    requires CardsFor(cards, top, docIds, scores)
    ensures |cards| == Min(TopK, |docIds|)
    ensures forall r :: 0 <= r < |cards| ==> cards[r].rank == r + 1
    ensures forall r, r' :: 0 <= r < r' < |cards| ==> cards[r].score >= cards[r'].score
    ensures forall r, r' :: 0 <= r < r' < |cards| ==> top[r] != top[r']
    ensures forall j, r :: 0 <= j < |scores| && j !in top && 0 <= r < |cards| ==> scores[j] <= cards[r].score
  {
  }
}
