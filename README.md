# LSA search engine — a Dafny model

This project models the discrete logic of a latent-semantic search engine
over arXiv abstracts. The offline build filters the metadata snapshot by
category, cleans each kept record, and builds a corpus with a parallel list
of document identifiers. A truncated SVD of the TF-IDF document-term matrix
is reordered so that the strongest concept comes first. At query time the
query's term vector is projected into concept space and scored against
every document vector `U · diag(s)`. The documents are ranked by descending
score and the best `TOP_K` are shown, numbered from 1.

The floating-point libraries stay outside the model:

- The TF-IDF vectoriser becomes a parameter `vectorize: string -> seq<real>`.
- The cosine similarity becomes a parameter `cosine: (seq<real>, seq<real>) -> real`.
- The sparse SVD solver's output triple is an input to the reordering.

Arithmetic is on Dafny `real`. Matrices are sequences of rows.

Modules, one per source file, plus shared helpers:

- `Seqs`: `Option`, reversal (`[::-1]`), columns, the dot product.
- `Ranking`: `scores.argsort()[::-1][:k]`. It is used in app.py, engine.py and test.py.
- `Decomposer`: decomposer.py `run_svd`.
- `ConceptSpace`: the loaded artifacts, `U @ diags(s)`, `q_vec @ Vt.T` and `nnz`.
- `App`: app.py's start-up preparation and the `update_view` callback.
- `Engine`: engine.py `search`.
- `TextOps`: Python's `str.split()`, `str.strip()` and `str.replace('\n', ' ')`.
- `DataFilter`: data_filter.py.
- `Preprocessing`: the record loop of preprocessing.py.
- `Concepts`: test.py `interpret_concepts`.

The model follows the code where a cleaner design of such an engine would
behave differently:

- The code raises no alignment error when identifiers and matrix rows
  differ in number. The model requires them to agree.
- The code raises no "engine not loaded" error.
- The code does not break ties between equal scores by document order.
  `argsort()[::-1]` lists tied documents in no promised order, and with a
  stable sort the later document would come first. `Ranking.IsTopK` states
  what every tie order satisfies.
- engine.py has no zero-vector check. Only app.py returns the "unknown
  term" message.

## Model

| member | source | states |
|---|---|---|
| Ranking.TopIndices | app.py:120 | The ranked list meets `IsTopK`: it has exactly min(k, N) entries, they are distinct indices below N, scores do not increase along the list, and no index left out scores higher than any listed one. When k ≥ N, every document is listed. |
| Ranking.RankAll | engine.py:38 | `argsort()[::-1]` is a permutation of 0..N-1 with non-increasing scores. |
| Ranking.Argsort | test.py:23 | The ascending argsort of the first n indices lists each of them exactly once, with non-decreasing scores. |
| Ranking.Insert | test.py:23 | Inserting one index into an ascending index list keeps it ascending. It adds exactly that index and keeps the entries distinct. |
| Decomposer.RunSvd | decomposer.py:13-23 | The reordering keeps the shapes: U stays N×k, s stays length k, Vt stays k×V. |
| Decomposer.ReorderedEntries | decomposer.py:19-21 | s'[j] = s[k-1-j], U'[i][j] = U[i][k-1-j] and Vt'[j] = Vt[k-1-j]. |
| Decomposer.TriplesStayTogether | decomposer.py:19-21 | Returned concept j is the solver's concept k-1-j, with its U column, its strength and its Vt row together. |
| Decomposer.RunSvdInvolution | decomposer.py:19-21 | Reordering twice gives back the solver's output, so nothing is lost or invented. |
| Decomposer.StrongestFirst | decomposer.py:17-20 | If the solver's s is ascending, the returned s is non-increasing and s'[0] is the largest. Strictly ascending input gives strictly descending output. |
| ConceptSpace.DocVectors | app.py:33 | Row i, column j of the document-concept matrix is U[i][j]·s[j]. This holds for every one of the N documents. |
| ConceptSpace.Project | engine.py:29 | The projected query has one coordinate per concept. Coordinate j is the dot product of the query with row j of Vt. |
| ConceptSpace.NonZeroCount | app.py:109 | `nnz` is at most V. It is zero exactly when every entry of the query vector is zero. |
| ConceptSpace.Scores | app.py:117 | `cosine_similarity(q_concept, doc_vectors).flatten()`: one score per document, and score i is the similarity of the projected query with document row i. |
| ConceptSpace.UnknownQueryAtOrigin | app.py:109-113 | A query with nnz = 0 would project to the origin of concept space. |
| ConceptSpace.SingleTermQuery | engine.py:26-29 | A query made of the single term t projects onto column t of Vt, and its nnz is 1. |
| ConceptSpace.ReorderKeepsGeometry | decomposer.py:19-21 | After reordering, the projected query and every document vector are reversed. Their dot product and both squared norms are unchanged, so any similarity computed from these three numbers, such as the cosine, is unchanged. `cosine` itself is a parameter, so no lemma compares the score vectors directly. |
| ConceptSpace.ProjectionReversed | decomposer.py:19-21 | Projecting a query with the reordered Vt gives the reversed projection. |
| ConceptSpace.DocVectorReversed | decomposer.py:19-21 | Under the reordered U and s, document i's concept vector is its reversed vector under the solver's factors. |
| App.Prepare | app.py:32-41 | doc_vectors covers all N documents. The plotted points are its first min(LIMIT_POINTS, N) rows, labelled with identifiers doc_ids[i], at columns 0, 1 and 2. |
| App.UpdateView | app.py:90-149 | With no query or an empty query, the panel keeps the placeholder and the figure has only the document trace. A query with nnz = 0 gets only the "unknown term" message. Otherwise the panel shows the heading TOP_K. Card r has rank r+1 and the id and score of one document top[r], where top is `TopIndices` of the cosine scores over all documents (the model's own tie order). The query marker sits at the first three concept coordinates. |
| App.BuildCards | app.py:126-133 | The loop over `enumerate(top_indices)` builds one card per listed index. Card r has rank r+1 and the id and score of document top[r]. |
| App.MatchesAreTheBest | app.py:117-133 | For cards built from any `top` meeting `IsTopK`, whatever its tie order: the cards number min(TOP_K, N), ranked 1, 2, and so on. They name distinct documents in non-increasing score order. No unlisted document scores higher than any listed one. |
| Engine.Search | engine.py:22-43 | The printed block has the header TOP_K. Line r has rank r+1 and the score and id of the same document top[r], where top is `TopIndices` of the cosine scores (the model's own tie order). There is no zero-vector check. |
| Engine.PrintLines | engine.py:41-43 | The print loop writes one line per listed index. Line r has rank r+1 and the score and id of document top[r]. |
| Engine.PrintedLinesAreTheBest | engine.py:38-43 | For lines printed from any `top` meeting `IsTopK`, whatever its tie order: the printed lines number min(TOP_K, N), ranked from 1, over distinct documents, with non-increasing scores. No document left out outscores a printed one. |
| TextOps.Split | data_filter.py:19 | `split()` yields non-empty words without whitespace. |
| TextOps.SplitWords | data_filter.py:19 | w is one of the words of s if and only if w is some s[i..j], with i < j, that holds no whitespace and has whitespace or an end of s on each side: the words are exactly the maximal whitespace-free runs. |
| TextOps.SplitKeepsCharacters | data_filter.py:19 | The words, concatenated, are exactly the input with its whitespace removed. |
| TextOps.SplitSingleWord | data_filter.py:19 | A non-empty string without whitespace splits into just itself. |
| TextOps.ReplaceNewlines | data_filter.py:25-26 | The result keeps the length, holds no '\n', and changes only newline characters, each into a space. |
| TextOps.Strip | data_filter.py:25-26 | `strip()` returns a contiguous part of the input. It cuts off only whitespace and neither starts nor ends with whitespace. |
| TextOps.Clean | data_filter.py:25-26 | A cleaned field has no newline and no whitespace at either end. |
| TextOps.CleanIdempotent | data_filter.py:25-26 | Cleaning an already cleaned field changes nothing. |
| DataFilter.Keep | data_filter.py:19-22 | A record is kept if and only if one of its whitespace-separated codes is in FILTER. |
| DataFilter.KeepWholeCode | data_filter.py:19-22 | A record is kept if and only if some FILTER code occurs in its categories string as a whole code, with whitespace or an end of the string on each side. A code that is only part of a longer code does not count. |
| DataFilter.KeepSingleCode | data_filter.py:9-22 | A single code is kept exactly when it is one of the seven FILTER codes, matched as a whole code. |
| DataFilter.MiniDoc.ToJson | data_filter.py:23-28 | The written object has exactly the keys id, title, abstract and categories, holding the record's values. |
| DataFilter.ProcessLine | data_filter.py:17-31 | The `try` body for one line. A kept record passes the category filter, and its title and abstract have no newline and no whitespace at either end. |
| DataFilter.ProcessLineKeeps | data_filter.py:17-28 | A line is kept exactly when it parses to an object whose categories string passes the filter and whose id, string title and string abstract exist. The record copies id and categories and cleans title and abstract. A line is dropped without error exactly when its categories string fails the filter. |
| DataFilter.GenerateMathCsJson | data_filter.py:10-34 | total_count is the number of lines processed without an exception. The written records are those of the kept lines. kept_count equals the number of records written. |
| DataFilter.KeptAtMostTotal | data_filter.py:29-31 | kept_count ≤ total_count. |
| DataFilter.OneMoreLine | data_filter.py:29-34 | A line that raises changes neither counter and writes nothing. Any other line adds 1 to total_count, and a kept line appends its record. |
| DataFilter.NextLine | data_filter.py:17-34 | After line n, the counters and the output follow from those before it: total_count grows unless the line raised, and a kept line appends its record. |
| DataFilter.WrittenInInputOrder | data_filter.py:30 | Record m comes from the m-th kept line. The positions increase, and every kept line is written. |
| DataFilter.WrittenRecordsAreClean | data_filter.py:22-26 | Every written record passes the category filter. Its title and abstract have no newline and no leading or trailing whitespace. |
| Preprocessing.BuildCorpus | preprocessing.py:27-32 | corpus and doc_ids each have one entry per sampled record, in the sample's order. corpus[i] is record i's title, a space and its abstract. doc_ids[i] is record i's id. |
| Preprocessing.Text | preprocessing.py:29 | The text is the title, then exactly one space, then the abstract, and nothing else. |
| Preprocessing.AlignmentIsPositional | preprocessing.py:27-32 | Building from a longer sample keeps every earlier position of both lists unchanged. |
| Concepts.InterpretConcepts | test.py:16-26 | Exactly five word lists are returned, one each from rows 0 to 4 of Vt. List i is the word list of concept i, the terms of TopIndices(Vt[i], 10) in order, so it names the terms of a correct top-10 ranking of row i (`ListsConcept`). |
| Concepts.ConceptWords | test.py:23-26 | The word list of one concept has exactly min(10, V) terms. They are the terms, in order, of some index list meeting `IsTopK` for the concept's signed weights (`ListsConcept`). |
| Concepts.ConceptListsAt | test.py:17-26 | After n iterations of the loop, list i (for i < n) is the word list of concept i. |
| Concepts.ConceptListAt | test.py:17-26 | For one index i < n: list i of the word lists after n iterations is concept i's word list, whatever was appended after it. |
| Concepts.Words | test.py:26 | top_words[m] = vocab[top_indices[m]], with the length unchanged. |
| Concepts.ListedTermsAreHeaviest | test.py:23 | For any ranking meeting `IsTopK`, one weight, that of the last listed term, separates the lists: every listed term weighs at least that much, and every term left out at most that much. |
| Concepts.SignedNotAbsolute | test.py:21-23 | For any ranking meeting `IsTopK`, ranking uses the signed weight. If a negative-weight term is listed, every positive-weight term is listed before it. |

## Left out

- Loading and saving artifacts with pickle, and all file reads and writes (app.py:15-29, engine.py:8-20, decomposer.py:8-9 and 73-81, preprocessing.py:16-17 and 42-49, data_filter.py:15, test.py:6-9). The loaded arrays, lines and records are parameters. `load_engine` is not modelled.
- The TF-IDF vectoriser's fit and transform (preprocessing.py:37-39, app.py:107, engine.py:26). This is a library call, so `vectorize` stands for `transform`. `nnz` is the number of non-zero entries of the vectorised query.
- The sparse SVD solver and its `k` argument (decomposer.py:15). Its output triple is the input of `Decomposer.RunSvd`. Orthogonality, reconstruction error and optimality are numerical properties of the library and are not modelled.
- sklearn's cosine similarity (app.py:117, engine.py:35). It needs floating point and square roots. It is the parameter `cosine`, applied to the projected query and each document row.
- Tie order among equal scores. numpy's default sort is not stable, and the order it gives tied scores is not modelled. The model's argsort is a stable insertion sort, so `TopIndices([0.0, 0.0], 5)` is `[1, 0]`. The contracts of `Ranking.TopIndices`, `App.UpdateView`, `Engine.Search`, `Concepts.ConceptWords` and `Concepts.InterpretConcepts` produce that order. `Ranking.IsTopK` is what every tie order satisfies. `App.MatchesAreTheBest`, `Engine.PrintedLinesAreTheBest`, `Concepts.ListedTermsAreHeaviest`, `Concepts.SignedNotAbsolute` and `Concepts.ListsConcept` assume only `IsTopK`, so they hold for numpy's order too.
- The random sample (preprocessing.py:20). The sampled records are the input of `Preprocessing.BuildCorpus`.
- JSON parsing and serialisation. A line arrives already parsed, with `None` for a line `json.loads` rejects. The written record is `MiniDoc`, whose object form is `MiniDoc.ToJson`. In preprocessing.py every sampled line is taken to be a record the filter wrote. A malformed line there would stop the script with an uncaught exception, and that path is not modelled.
- Dash layout, styling, HTML cards, links, colours and the figure layout (app.py:44-101 and 151-164). A result card is modelled as its rank, identifier and score, and a trace as its coordinates and labels. visualizer.py is not part of this model.
- Scree plots (decomposer.py:25-68), tqdm progress bars, `print` and the formatting of scores. engine.py's printed lines and test.py's printed word lists become return values.
- The module-level calls at engine.py:45 and decomposer.py:71.
- App.UpdateView: requires at least three concepts. With fewer, app.py already fails at start-up when it reads column 2 of the document vectors (app.py:41).
- App.UpdateView, Engine.Search: require the identifier list to be as long as U has rows. The source does not check this. A longer `doc_ids` never raises there. A shorter one raises `IndexError` only when a listed index falls past its end. Neither case is modelled.
- Concepts.InterpretConcepts: requires at least five rows in Vt, which test.py indexes unconditionally. Its printed text is not modelled. Each row's ranking is stated as the TopIndices of that row, and its properties come from the contract of `Ranking.TopIndices` through `IsTopK`.
- Floating-point rounding: the model computes exactly over the reals.
