/** The corpus filter in data_filter.py: each line of the arXiv metadata
    snapshot is parsed, kept when one of its category codes is in FILTER,
    reduced to four cleaned fields and written out, while two counters track
    the lines processed and kept. JSON parsing is a library call: each line
    arrives already parsed, `None` standing for a line `json.loads` rejects. */
module DataFilter {
  import opened Seqs
  import opened TextOps

  /** A parsed JSON value, as far as the filter looks into it. `JOther`
      stands for numbers, booleans, null and arrays, keeping their text. */
  datatype Json = JString(str: string) | JObject(fields: map<string, Json>) | JOther(text: string)

  /** The category codes whose papers are kept. */
  const Filter: set<string> := {"cs.AI", "cs.CR", "cs.LG", "cs.NA", "math.CO", "math.LO", "math.OC"}

  /** The record written for a kept paper. */
  datatype MiniDoc = MiniDoc(id: Json, title: string, abstractText: string, categories: string)
  {
    /** The JSON object written: exactly the keys id, title, abstract and
        categories. */
    function ToJson(): (j: Json)
      ensures j.JObject? && j.fields.Keys == {"id", "title", "abstract", "categories"}
      ensures j.fields["id"] == id && j.fields["categories"] == JString(categories)
      ensures j.fields["title"] == JString(title) && j.fields["abstract"] == JString(abstractText)
    {
      JObject(map["id" := id, "title" := JString(title), "abstract" := JString(abstractText),
                  "categories" := JString(categories)])
    }
  }

  /** `not set(categories.split()).isdisjoint(FILTER)`: some
      whitespace-separated code is one of the selected categories. */
  function Keep(categories: string): (b: bool)
    ensures b <==> exists code :: code in Split(categories) && code in Filter
  {
    var codes := set code | code in Split(categories);
    !(codes !! Filter)
  }

  /** The filter tests whole codes: a record is kept exactly when some
      FILTER code occurs in its categories string with whitespace or an end
      of the string on each side. */
  lemma KeepWholeCode(categories: string)
    ensures Keep(categories) <==>
      exists i, j :: WordAt(categories, i, j) && categories[i..j] in Filter
  {
    SplitWords(categories);
  }

  /** A single category code is kept exactly when it is one of FILTER's
      codes, matched as a whole word and not as a part of a longer code. */
  lemma KeepSingleCode(code: string)
    requires code != [] && NoSpace(code)
    ensures Keep(code) <==> code in Filter
  {
    SplitSingleWord(code);
  }

  /** What happens to one line. */
  datatype Outcome =
    | Failed          // an exception was raised: nothing written, no counter changed
    | Dropped         // processed, but no selected category
    | Kept(doc: MiniDoc)

  /** `doc[key]` on a parsed value: only an object with that key has it. */
  function Field(doc: Json, key: string): Option<Json> {
    if doc.JObject? && key in doc.fields then Some(doc.fields[key]) else None
  }

  /** The body of the `try` block for one line. The subscripts `doc[...]`
      raise unless `doc` is an object with that key, `.split()` and
      `.replace()` raise unless the value is a string; `id` is copied
      whatever its type. A kept record passes the filter and has a cleaned
      title and abstract. */
  function ProcessLine(line: Option<Json>): (o: Outcome)
    ensures o.Kept? ==> CleanRecord(o.doc)
  {
    if line.None? then Failed
    else
      var doc := line.value;
      match Field(doc, "categories")
      case Some(JString(categories)) =>
        if !Keep(categories) then Dropped
        else (match (Field(doc, "id"), Field(doc, "title"), Field(doc, "abstract"))
              case (Some(id), Some(JString(title)), Some(JString(abstractText))) =>
                Kept(MiniDoc(id, Clean(title), Clean(abstractText), categories))
              case _ => Failed)
      case _ => Failed
  }

  /** A line is kept exactly when it parses to an object whose categories
      string has a selected code and whose id, title and abstract are
      present, title and abstract being strings. The written record copies
      id and categories and holds the cleaned title and abstract. */
  lemma ProcessLineKeeps(line: Option<Json>)
    ensures ProcessLine(line).Kept? <==>
      && line.Some? && line.value.JObject?
      && (var f := line.value.fields;
          && "categories" in f && f["categories"].JString? && Keep(f["categories"].str)
          && "id" in f && "title" in f && f["title"].JString? && "abstract" in f && f["abstract"].JString?)
    ensures ProcessLine(line).Kept? ==>
      var f := line.value.fields;
      ProcessLine(line).doc == MiniDoc(f["id"], Clean(f["title"].str), Clean(f["abstract"].str), f["categories"].str)
    ensures ProcessLine(line) == Dropped <==>
      && line.Some? && line.value.JObject?
      && "categories" in line.value.fields && line.value.fields["categories"].JString?
      && !Keep(line.value.fields["categories"].str)
  {
  }

  /** The outcome of every line. */
  function Outcomes(lines: seq<Option<Json>>): (os: seq<Outcome>)
    ensures |os| == |lines| && forall i :: 0 <= i < |lines| ==> os[i] == ProcessLine(lines[i])
  {
    seq(|lines|, i requires 0 <= i < |lines| => ProcessLine(lines[i]))
  }

  /** `total_count` after lines with the given outcomes: those processed
      without an exception. */
  function Total(os: seq<Outcome>): nat {
    if os == [] then 0 else Total(os[..|os| - 1]) + (if os[|os| - 1].Failed? then 0 else 1)
  }

  /** What `f_out` receives for lines with the given outcomes, in order. */
  function Written(os: seq<Outcome>): seq<MiniDoc> {
    if os == [] then []
    else Written(os[..|os| - 1]) + (if os[|os| - 1].Kept? then [os[|os| - 1].doc] else [])
  }

  /** `generate_math_cs_json`: processes every line in turn, counting the
      lines processed and kept and writing the kept records. */
  method GenerateMathCsJson(lines: seq<Option<Json>>) returns (totalCount: nat, keptCount: nat, written: seq<MiniDoc>)
    ensures totalCount == Total(Outcomes(lines))
    ensures written == Written(Outcomes(lines))
    ensures keptCount == |written|
  {
    ghost var os := Outcomes(lines);
    totalCount, keptCount, written := 0, 0, [];
    for n := 0 to |lines|
      invariant totalCount == Total(os[..n])
      invariant written == Written(os[..n])
      invariant keptCount == |written|
    {
      var outcome := ProcessLine(lines[n]);
      NextLine(lines, n);
      if outcome.Kept? {
        keptCount := keptCount + 1;
        written := written + [outcome.doc];
      }
      if !outcome.Failed? {
        totalCount := totalCount + 1;
      }
    }
    assert os[..|lines|] == os;
  }

  /** The kept counter never exceeds the total counter. */
  lemma {:induction false} KeptAtMostTotal(os: seq<Outcome>)
    ensures |Written(os)| <= Total(os)
  {
    if os != [] {
      KeptAtMostTotal(os[..|os| - 1]);
    }
  }

  /** A line that raises changes neither counter and writes nothing; any
      other line adds one to the total, and a kept one writes its record. */
  lemma OneMoreLine(os: seq<Outcome>, o: Outcome)
    ensures Total(os + [o]) == Total(os) + (if o.Failed? then 0 else 1)
    ensures Written(os + [o]) == Written(os) + (if o.Kept? then [o.doc] else [])
  {
    assert (os + [o])[..|os|] == os;
  }

  /** The counters and the output after line n follow from those before it
      by OneMoreLine. */
  lemma NextLine(lines: seq<Option<Json>>, n: nat)
    requires n < |lines|
    ensures var os := Outcomes(lines); var o := ProcessLine(lines[n]);
      && Total(os[..n + 1]) == Total(os[..n]) + (if o.Failed? then 0 else 1)
      && Written(os[..n + 1]) == Written(os[..n]) + (if o.Kept? then [o.doc] else [])
  {
    var os := Outcomes(lines);
    assert os[..n + 1] == os[..n] + [os[n]];
    OneMoreLine(os[..n], os[n]);
  }

  /** Positions of the kept lines, in increasing order. */
  function KeptPositions(os: seq<Outcome>): seq<nat> {
    if os == [] then []
    else KeptPositions(os[..|os| - 1]) + (if os[|os| - 1].Kept? then [|os| - 1] else [])
  }

  /** Kept records come out in input order: record m is the outcome of the
      line at KeptPositions[m], the positions increase, and every kept line
      is among them. */
  lemma {:induction false} WrittenInInputOrder(os: seq<Outcome>)
    ensures var ps := KeptPositions(os);
      && |ps| == |Written(os)|
      && (forall m :: 0 <= m < |ps| ==> ps[m] < |os| && os[ps[m]] == Kept(Written(os)[m]))
      && (forall m, m' :: 0 <= m < m' < |ps| ==> ps[m] < ps[m'])
      && (forall i :: 0 <= i < |os| && os[i].Kept? ==> i in ps)
  {
    if os != [] {
      var init := os[..|os| - 1];
      WrittenInInputOrder(init);
      assert forall i :: 0 <= i < |init| ==> init[i] == os[i];
    }
  }

  /** A record as the filter writes it: it has a selected category, and
      its title and abstract contain no newline and neither start nor end
      with whitespace. */
  predicate CleanRecord(d: MiniDoc) {
    && Keep(d.categories)
    && '\n' !in d.title && (d.title == [] || (!IsSpace(d.title[0]) && !IsSpace(d.title[|d.title| - 1])))
    && '\n' !in d.abstractText
    && (d.abstractText == [] || (!IsSpace(d.abstractText[0]) && !IsSpace(d.abstractText[|d.abstractText| - 1])))
  }

  /** Every written record is clean. */
  lemma WrittenRecordsAreClean(lines: seq<Option<Json>>)
    ensures forall d :: d in Written(Outcomes(lines)) ==> CleanRecord(d)
  {
    var os := Outcomes(lines);
    WrittenInInputOrder(os);
    var ws := Written(os);
    var ps := KeptPositions(os);
    forall m | 0 <= m < |ws|
      ensures CleanRecord(ws[m])
    {
      assert os[ps[m]] == ProcessLine(lines[ps[m]]);
    }
  }
}
