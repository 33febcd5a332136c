/** The record loop of preprocessing.py: from the sampled records of the
    filtered file it builds the corpus handed to the vectoriser and the list
    of document identifiers, two parallel lists whose position i names the
    same paper. The random sample, the vectoriser and the pickling are not
    modelled; each sampled line arrives as the record the filter wrote. */
module Preprocessing {
  import opened DataFilter

  /** `f"{title} {abstract}"`: the title, then exactly one space, then the
      abstract. */
  function Text(d: MiniDoc): (t: string)
    ensures |t| == |d.title| + 1 + |d.abstractText|
    ensures t[..|d.title|] == d.title
    ensures t[|d.title|] == ' '
    ensures t[|d.title| + 1..] == d.abstractText
  {
    d.title + " " + d.abstractText
  }

  /** The loop over `sampled_docs`: appends each record's text to `corpus`
      and its id to `doc_ids`. Both lists have one entry per sampled record,
      in the sample's order, and entry i of each comes from record i. */
  method BuildCorpus(sampled: seq<MiniDoc>) returns (corpus: seq<string>, docIds: seq<Json>)
    ensures |corpus| == |sampled| && |docIds| == |sampled|
    ensures forall i :: 0 <= i < |sampled| ==> corpus[i] == Text(sampled[i]) && docIds[i] == sampled[i].id
  {
    corpus, docIds := [], [];
    for i := 0 to |sampled|
      invariant |corpus| == i && |docIds| == i
      invariant forall j :: 0 <= j < i ==> corpus[j] == Text(sampled[j]) && docIds[j] == sampled[j].id
    {
      var rawDoc := sampled[i];
      var text := Text(rawDoc);
      corpus := corpus + [text];
      docIds := docIds + [rawDoc.id];
    }
  }

  /** Building from a longer sample extends both lists at their ends and
      leaves every earlier position as it was: appending never shifts the
      alignment between a text and its id. */
  lemma AlignmentIsPositional(sampled: seq<MiniDoc>, more: seq<MiniDoc>,
                              corpus: seq<string>, docIds: seq<Json>,
                              corpus': seq<string>, docIds': seq<Json>)
    requires |corpus| == |sampled| && |docIds| == |sampled|
    requires forall i :: 0 <= i < |sampled| ==> corpus[i] == Text(sampled[i]) && docIds[i] == sampled[i].id
    requires |corpus'| == |sampled + more| && |docIds'| == |sampled + more|
    requires forall i :: 0 <= i < |sampled + more| ==>
      corpus'[i] == Text((sampled + more)[i]) && docIds'[i] == (sampled + more)[i].id
    ensures corpus'[..|sampled|] == corpus && docIds'[..|sampled|] == docIds
  {
    assert forall i :: 0 <= i < |sampled| ==> (sampled + more)[i] == sampled[i];
  }
}
