/** `interpret_concepts` in test.py: for each of the five strongest concepts
    (rows 0 to 4 of Vt) it ranks the vocabulary by the concept's signed term
    weight and names the ten heaviest terms. */
module Concepts {
  import opened Ranking

  /** Concepts examined and words listed per concept. */
  const Dimensions: nat := 5
  const WordsPerConcept: nat := 10

  /** `[vocab[idx] for idx in top_indices]`. */
  function Words(top: seq<nat>, vocab: seq<string>): (words: seq<string>)
    requires InRange(top, |vocab|)
    ensures |words| == |top| && forall m :: 0 <= m < |top| ==> words[m] == vocab[top[m]]
  {
    seq(|top|, m requires 0 <= m < |top| => vocab[top[m]])
  }

  /** `words` names, heaviest first, the terms of some correct top-10
      ranking of the concept's signed weights (ties in any order). */
  ghost predicate ListsConcept(words: seq<string>, component: seq<real>, vocab: seq<string>)
    requires |component| == |vocab|
  {
    exists top :: IsTopK(component, WordsPerConcept, top) && words == Words(top, vocab)
  }

  /** The word list for one concept: the terms of the `WordsPerConcept`
      largest signed weights in its row of Vt, heaviest first. */
  function ConceptWords(component: seq<real>, vocab: seq<string>): (words: seq<string>)
    requires |component| == |vocab|
    ensures |words| == Min(WordsPerConcept, |vocab|)
    ensures ListsConcept(words, component, vocab)
  {
    Words(TopIndices(component, WordsPerConcept), vocab)
  }

  /** The word lists of the first n concepts, in order: the value of the
      loop's accumulator `top_words` after n iterations. Its length is all
      it states itself; ConceptListAt says what each list is. */
  function ConceptLists(vt: seq<seq<real>>, vocab: seq<string>, n: nat): (lists: seq<seq<string>>)
    requires n <= |vt| && forall j :: 0 <= j < |vt| ==> |vt[j]| == |vocab|
    ensures |lists| == n
  {
    if n == 0 then [] else ConceptLists(vt, vocab, n - 1) + [ConceptWords(vt[n - 1], vocab)]
  }

  /** List i of the first n is the word list of concept i. */
  lemma ConceptListsAt(vt: seq<seq<real>>, vocab: seq<string>, n: nat)
    requires n <= |vt| && forall j :: 0 <= j < |vt| ==> |vt[j]| == |vocab|
    ensures forall i :: 0 <= i < n ==> ConceptLists(vt, vocab, n)[i] == ConceptWords(vt[i], vocab)
  {
    forall i | 0 <= i < n ensures ConceptLists(vt, vocab, n)[i] == ConceptWords(vt[i], vocab) {
      ConceptListAt(vt, vocab, n, i);
    }
  }

  /** One index at a time: list i of the first n, for i < n, is the word
      list of concept i, whatever later lists were appended after it. */
  lemma {:induction false} ConceptListAt(vt: seq<seq<real>>, vocab: seq<string>, n: nat, i: nat)
    requires n <= |vt| && forall j :: 0 <= j < |vt| ==> |vt[j]| == |vocab|
    requires i < n
    ensures ConceptLists(vt, vocab, n)[i] == ConceptWords(vt[i], vocab)
  {
    var prev := ConceptLists(vt, vocab, n - 1);
    assert ConceptLists(vt, vocab, n) == prev + [ConceptWords(vt[n - 1], vocab)];
    if i < n - 1 {
      ConceptListAt(vt, vocab, n - 1, i);
    }
  }

  /** Word list i names the min(10, V) terms of largest signed weight in
      row i of Vt, heaviest first; rows past the fifth are not looked at. */
  method InterpretConcepts(vt: seq<seq<real>>, vocab: seq<string>) returns (topWords: seq<seq<string>>)
    requires |vt| >= Dimensions
    requires forall j :: 0 <= j < |vt| ==> |vt[j]| == |vocab|
    ensures |topWords| == Dimensions
    ensures forall i :: 0 <= i < Dimensions ==> topWords[i] == ConceptWords(vt[i], vocab)
    ensures forall i :: 0 <= i < Dimensions ==> ListsConcept(topWords[i], vt[i], vocab)
  {
    topWords := [];
    for i := 0 to Dimensions
      invariant topWords == ConceptLists(vt, vocab, i)
    {
      var words := ConceptWords(vt[i], vocab);
      topWords := topWords + [words];
    }
    ConceptListsAt(vt, vocab, Dimensions);
  }

  /** One weight separates the listed terms from the rest: the weight of
      the last listed term is at most that of every listed term and at least
      that of every term left out. Holds for every ordering of ties. */
  lemma ListedTermsAreHeaviest(component: seq<real>, top: seq<nat>)
    requires IsTopK(component, WordsPerConcept, top)
    ensures |component| > 0 ==>
      var cut := component[top[|top| - 1]];
      && (forall m :: 0 <= m < |top| ==> cut <= component[top[m]])
      && (forall t :: 0 <= t < |component| && t !in top ==> component[t] <= cut)
  {
  }

  /** Ranking is by signed weight, not by magnitude: when a term of
      negative weight is listed, every term of positive weight is listed
      too, and before it. Holds for every ordering of ties. */
  lemma SignedNotAbsolute(component: seq<real>, top: seq<nat>, neg: nat, pos: nat)
    requires IsTopK(component, WordsPerConcept, top)
    requires neg < |component| && pos < |component|
    requires component[neg] < 0.0 < component[pos]
    ensures neg in top ==>
      && pos in top
      && forall m, m' :: 0 <= m < |top| && 0 <= m' < |top| && top[m] == pos && top[m'] == neg ==> m < m'
  {
  }
}
