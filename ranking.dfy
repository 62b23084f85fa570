/**
 * The embedding index and the top-k ranking shared by the retrieval front ends: the index
 * file read line by line, and `find_similar_logs`, which scores every record that has an
 * embedding against the query, sorts the scores stably in descending order and keeps the
 * first `top_k`. The similarity measure is a parameter, defined on vectors of one length;
 * the ranking cuts both vectors to the shorter length before scoring.
 */
module Ranking {
  import opened Wrappers
  import opened Json
  import Text
  import Seqs
  import Sorting

  const DEFAULT_TOP_K: int := 3

  /** The lines `load_embeddings` parses: those with something besides whitespace. */
  function NonBlank(lines: seq<string>): seq<string>
  {
    Seqs.Filter(lines, (l: string) => Text.Strip(l) != "")
  }

  /** Every line that is parsed decodes (a malformed line makes `json.loads` raise). */
  predicate Decodable(lines: seq<string>, parse: string -> Option<Json>)
  {
    forall k :: 0 <= k < |lines| && Text.Strip(lines[k]) != "" ==> parse(lines[k]).Some?
  }

  /** The records of the index: each non-blank line decoded, in file order. */
  function ParsedLines(lines: seq<string>, parse: string -> Option<Json>): seq<Json>
    requires Decodable(lines, parse)
  {
    if lines == [] then []
    else
      var init, line := lines[..|lines| - 1], lines[|lines| - 1];
      assert Decodable(init, parse) by {
        assert forall k :: 0 <= k < |init| ==> init[k] == lines[k];
      }
      ParsedLines(init, parse) + (if Text.Strip(line) != "" then [parse(line).value] else [])
  }

  /** `records` are the `lines` decoded one for one, in order. */
  predicate DecodedAs(lines: seq<string>, records: seq<Json>, parse: string -> Option<Json>)
  {
    |records| == |lines|
    && forall k :: 0 <= k < |lines| ==> parse(lines[k]).Some? && records[k] == parse(lines[k]).value
  }

  /** The records are the non-blank lines, decoded one for one and in order. */
  lemma {:induction false} ParsedNonBlank(lines: seq<string>, parse: string -> Option<Json>)
    requires Decodable(lines, parse)
    ensures DecodedAs(NonBlank(lines), ParsedLines(lines, parse), parse)
  {
    if lines != [] {
      var init, line := lines[..|lines| - 1], lines[|lines| - 1];
      DecodablePrefix(lines, parse);
      ParsedNonBlank(init, parse);
      if Text.Strip(line) != "" {
        assert NonBlank(lines) == NonBlank(init) + [line];
        assert ParsedLines(lines, parse) == ParsedLines(init, parse) + [parse(line).value];
        DecodedSnoc(NonBlank(init), ParsedLines(init, parse), line, parse);
      } else {
        assert NonBlank(lines) == NonBlank(init);
      }
    }
  }

  lemma DecodedSnoc(lines: seq<string>, records: seq<Json>, line: string, parse: string -> Option<Json>)
    requires DecodedAs(lines, records, parse) && parse(line).Some?
    ensures DecodedAs(lines + [line], records + [parse(line).value], parse)
  {
    var l, r := lines + [line], records + [parse(line).value];
    forall k | 0 <= k < |l|
      ensures parse(l[k]).Some? && r[k] == parse(l[k]).value
    {
      if k < |lines| {
        assert l[k] == lines[k] && r[k] == records[k];
      }
    }
  }

  lemma DecodablePrefix(lines: seq<string>, parse: string -> Option<Json>)
    requires Decodable(lines, parse) && lines != []
    ensures Decodable(lines[..|lines| - 1], parse)
  {
    var init := lines[..|lines| - 1];
    assert forall k :: 0 <= k < |init| ==> init[k] == lines[k];
  }

  /** Decoding one more line that decodes extends the records by it. */
  lemma ParsedSnoc(lines: seq<string>, i: nat, parse: string -> Option<Json>)
    requires i < |lines| && Decodable(lines[..i], parse)
    requires Text.Strip(lines[i]) != "" ==> parse(lines[i]).Some?
    ensures Decodable(lines[..i + 1], parse)
    ensures ParsedLines(lines[..i + 1], parse) ==
      ParsedLines(lines[..i], parse) + (if Text.Strip(lines[i]) != "" then [parse(lines[i]).value] else [])
  {
    DecodableSnoc(lines, i, parse);
    var s := lines[..i + 1];
    assert s[..i] == lines[..i] && s[i] == lines[i];
  }

  lemma DecodableSnoc(lines: seq<string>, i: nat, parse: string -> Option<Json>)
    requires i < |lines| && Decodable(lines[..i], parse)
    requires Text.Strip(lines[i]) != "" ==> parse(lines[i]).Some?
    ensures Decodable(lines[..i + 1], parse)
  {
    var s := lines[..i + 1];
    forall k | 0 <= k < |s| && Text.Strip(s[k]) != ""
      ensures parse(s[k]).Some?
    {
      if k < i {
        assert s[k] == lines[..i][k];
      }
    }
  }

  /** The loop of `load_embeddings` over the lines of the index file. */
  method ParseIndex(lines: seq<string>, parse: string -> Option<Json>) returns (records: seq<Json>)
    requires Decodable(lines, parse)
    ensures records == ParsedLines(lines, parse)
  {
    records := [];
    for i := 0 to |lines|
      invariant Decodable(lines[..i], parse)
      invariant records == ParsedLines(lines[..i], parse)
    {
      ParsedSnoc(lines, i, parse);
      var line := lines[i];
      if Text.Strip(line) != "" {
        records := records + [parse(line).value];
      }
    }
    assert lines[..|lines|] == lines;
  }

  /**
   * `load_embeddings` of the front ends that go on without an index: a missing file
   * (`None`) loads as no records.
   */
  method LoadEmbeddings(file: Option<seq<string>>, parse: string -> Option<Json>) returns (records: seq<Json>)
    requires file.Some? ==> Decodable(file.value, parse)
    ensures file.None? ==> records == []
    ensures file.Some? ==> records == ParsedLines(file.value, parse)
  {
    if file.None? {
      return [];
    }
    records := ParseIndex(file.value, parse);
  }

  /** A file of blank lines holds no records. */
  lemma {:induction false} BlankIndexIsEmpty(lines: seq<string>, parse: string -> Option<Json>)
    requires forall k :: 0 <= k < |lines| ==> Text.Strip(lines[k]) == ""
    ensures Decodable(lines, parse) && ParsedLines(lines, parse) == []
  {
    if lines != [] {
      BlankIndexIsEmpty(lines[..|lines| - 1], parse);
    }
  }

  predicate IsNumber(v: Json)
  {
    v.JInt? || v.JFloat?
  }

  function NumberValue(v: Json): real
    requires IsNumber(v)
  {
    if v.JInt? then v.i as real else v.x
  }

  predicate IsVector(v: Json)
  {
    v.JArr? && forall k :: 0 <= k < |v.items| ==> IsNumber(v.items[k])
  }

  /** `np.array(embedding)` for a list of numbers. */
  function Vector(v: Json): (r: seq<real>)
    requires IsVector(v)
    ensures |r| == |v.items|
  {
    seq(|v.items|, k requires 0 <= k < |v.items| => NumberValue(v.items[k]))
  }

  /**
   * What the ranking needs of a record: a dict (`'embedding' in`, `.get`), whose embedding,
   * when present, is a list of numbers.
   */
  predicate Rankable(record: Json)
  {
    record.JObj? && (Has(record, "embedding") ==> IsVector(Get(record, "embedding").value))
  }

  predicate AllRankable(records: seq<Json>)
  {
    forall k :: 0 <= k < |records| ==> Rankable(records[k])
  }

  predicate HasEmbedding(record: Json)
  {
    record.JObj? && Has(record, "embedding")
  }

  function Min(a: nat, b: nat): nat
  {
    if a < b then a else b
  }

  /** The score of an embedding: the query and the embedding, each cut to the shorter length, compared. */
  function Score(query: seq<real>, v: seq<real>, sim: (seq<real>, seq<real>) -> real): real
  {
    if |query| != |v| then
      var m := Min(|query|, |v|);
      sim(query[..m], v[..m])
    else sim(query, v)
  }

  /** Cutting to the shorter length is all the ranking does to the vectors; equal lengths pass unchanged. */
  lemma ScoreIsTruncated(query: seq<real>, v: seq<real>, sim: (seq<real>, seq<real>) -> real)
    ensures var m := Min(|query|, |v|);
      Score(query, v, sim) == sim(query[..m], v[..m])
    ensures |query| == |v| ==> Score(query, v, sim) == sim(query, v)
  {
    assert query[..|query|] == query && v[..|v|] == v;
  }

  /** A scored record: its score, its position in the index and the record itself. */
  datatype Scored = Scored(score: real, pos: nat, record: Json)

  /** The `similarities` list before sorting: one scored entry per record with an embedding, in index order. */
  function Candidates(query: seq<real>, records: seq<Json>, sim: (seq<real>, seq<real>) -> real): (c: seq<Scored>)
    requires AllRankable(records)
    ensures |c| <= |records|
  {
    if records == [] then []
    else
      var init, r := records[..|records| - 1], records[|records| - 1];
      assert AllRankable(init) by {
        assert forall k :: 0 <= k < |init| ==> init[k] == records[k];
      }
      var c := Candidates(query, init, sim);
      if Has(r, "embedding") then c + [Scored(Score(query, Vector(Get(r, "embedding").value), sim), |records| - 1, r)]
      else c
  }

  function Records(c: seq<Scored>): (rs: seq<Json>)
    ensures |rs| == |c| && forall k :: 0 <= k < |c| ==> rs[k] == c[k].record
  {
    seq(|c|, k requires 0 <= k < |c| => c[k].record)
  }

  /** `key=lambda x: x[0], reverse=True`: a higher score comes first. */
  function ByScore(): (Scored, Scored) -> bool
  {
    (a: Scored, b: Scored) => a.score > b.score
  }

  /** The sorted `similarities`. */
  function Ranked(query: seq<real>, records: seq<Json>, sim: (seq<real>, seq<real>) -> real): seq<Scored>
    requires AllRankable(records)
  {
    Sorting.Sort(Candidates(query, records, sim), ByScore())
  }

  /** `[log_data for _, log_data in similarities[:top_k]]`. */
  function TopK(query: seq<real>, records: seq<Json>, topK: int, sim: (seq<real>, seq<real>) -> real): seq<Json>
    requires AllRankable(records)
  {
    Records(Seqs.SliceTo(Ranked(query, records, sim), topK))
  }

  /** The score of one record, with the vectors cut to the shorter length when they differ. */
  method ScoreRecord(query: seq<real>, record: Json, sim: (seq<real>, seq<real>) -> real) returns (s: real)
    requires Rankable(record) && Has(record, "embedding")
    ensures s == Score(query, Vector(Get(record, "embedding").value), sim)
  {
    var v := Vector(Get(record, "embedding").value);
    if |query| != |v| {
      var m := Min(|query|, |v|);
      s := sim(query[..m], v[..m]);
    } else {
      s := sim(query, v);
    }
  }

  /** `find_similar_logs` (with truncation). */
  method FindSimilarLogs(query: seq<real>, records: seq<Json>, topK: int, sim: (seq<real>, seq<real>) -> real)
    returns (top: seq<Json>)
    requires AllRankable(records)
    ensures top == TopK(query, records, topK, sim)
  {
    var similarities: seq<Scored> := [];
    for i := 0 to |records|
      invariant AllRankable(records[..i])
      invariant similarities == Candidates(query, records[..i], sim)
    {
      assert records[..i + 1][..i] == records[..i];
      var r := records[i];
      if !Has(r, "embedding") {
        continue;
      }
      var s := ScoreRecord(query, r, sim);
      similarities := similarities + [Scored(s, i, r)];
    }
    assert records[..|records|] == records;
    similarities := Sorting.Sort(similarities, ByScore());
    top := Records(Seqs.SliceTo(similarities, topK));
  }

  /** Each candidate is the record at its position, which has an embedding; positions increase. */
  lemma CandidatesFromIndex(query: seq<real>, records: seq<Json>, sim: (seq<real>, seq<real>) -> real)
    requires AllRankable(records)
    ensures var c := Candidates(query, records, sim);
      && (forall k :: 0 <= k < |c| ==> c[k].pos < |records| && records[c[k].pos] == c[k].record && HasEmbedding(c[k].record))
      && Sorting.RankIncreasing(c, (x: Scored) => x.pos as int)
      && Records(c) == Seqs.Filter(records, HasEmbedding)
  {
    CandidatePositions(query, records, sim);
    CandidateRecords(query, records, sim);
  }

  lemma {:induction false} CandidatePositions(query: seq<real>, records: seq<Json>, sim: (seq<real>, seq<real>) -> real)
    requires AllRankable(records)
    ensures var c := Candidates(query, records, sim);
      && (forall k :: 0 <= k < |c| ==> c[k].pos < |records| && records[c[k].pos] == c[k].record && HasEmbedding(c[k].record))
      && Sorting.RankIncreasing(c, (x: Scored) => x.pos as int)
  {
    if records != [] {
      var init, r := records[..|records| - 1], records[|records| - 1];
      RankablePrefix(records);
      CandidatePositions(query, init, sim);
      var c := Candidates(query, init, sim);
      assert forall k :: 0 <= k < |c| ==> records[c[k].pos] == init[c[k].pos];
    }
  }

  lemma {:induction false} CandidateRecords(query: seq<real>, records: seq<Json>, sim: (seq<real>, seq<real>) -> real)
    requires AllRankable(records)
    ensures Records(Candidates(query, records, sim)) == Seqs.Filter(records, HasEmbedding)
  {
    if records != [] {
      var init, r := records[..|records| - 1], records[|records| - 1];
      RankablePrefix(records);
      CandidateRecords(query, init, sim);
      var c := Candidates(query, init, sim);
      if Has(r, "embedding") {
        var x := Scored(Score(query, Vector(Get(r, "embedding").value), sim), |records| - 1, r);
        assert Candidates(query, records, sim) == c + [x];
        RecordsSnoc(c, x);
      }
    }
  }

  lemma RankablePrefix(records: seq<Json>)
    requires AllRankable(records) && records != []
    ensures AllRankable(records[..|records| - 1])
  {
    var init := records[..|records| - 1];
    assert forall k :: 0 <= k < |init| ==> init[k] == records[k];
  }

  lemma RecordsSnoc(c: seq<Scored>, x: Scored)
    ensures Records(c + [x]) == Records(c) + [x.record]
  {
    assert |Records(c + [x])| == |Records(c) + [x.record]|;
  }

  /** A higher score comes first, whatever the scores. */
  lemma ByScoreIsWeakOrder()
    ensures Sorting.StrictWeakOrder(ByScore())
  {
  }

  /**
   * The ranking is the candidates reordered: by descending score, with equal scores in
   * index order (Python's sort is stable, also with `reverse=True`).
   */
  lemma RankedOrder(query: seq<real>, records: seq<Json>, sim: (seq<real>, seq<real>) -> real)
    requires AllRankable(records)
    ensures var r := Ranked(query, records, sim);
      && multiset(r) == multiset(Candidates(query, records, sim))
      && (forall i, j :: 0 <= i < j < |r| ==> r[i].score >= r[j].score)
      && (forall i, j :: 0 <= i < j < |r| && r[i].score == r[j].score ==> r[i].pos < r[j].pos)
  {
    var c := Candidates(query, records, sim);
    var r := Ranked(query, records, sim);
    ByScoreIsWeakOrder();
    Sorting.SortSorted(c, ByScore());
    CandidatesFromIndex(query, records, sim);
    Sorting.SortStable(c, ByScore(), (x: Scored) => x.pos as int);
    forall i, j | 0 <= i < j < |r|
      ensures r[i].score >= r[j].score
    {
      assert !ByScore()(r[j], r[i]);
    }
  }

  /**
   * The result holds `min(top_k, records with an embedding)` records (for `top_k >= 0`),
   * all of them records of the index with an embedding, and none scores below a
   * candidate that was left out.
   */
  lemma TopKSelection(query: seq<real>, records: seq<Json>, topK: int, sim: (seq<real>, seq<real>) -> real)
    requires AllRankable(records)
    ensures var n := |Seqs.Filter(records, HasEmbedding)|;
      topK >= 0 ==> |TopK(query, records, topK, sim)| == if topK < n then topK else n
    ensures forall r :: r in TopK(query, records, topK, sim) ==> r in records && HasEmbedding(r)
    ensures var ranked := Ranked(query, records, sim);
      var kept := |TopK(query, records, topK, sim)|;
      forall i, j :: 0 <= i < kept <= j < |ranked| ==> ranked[i].score >= ranked[j].score
  {
    var c := Candidates(query, records, sim);
    var ranked := Ranked(query, records, sim);
    CandidatesFromIndex(query, records, sim);
    RankedOrder(query, records, sim);
    assert |Records(c)| == |c|;
    var top := Seqs.SliceTo(ranked, topK);
    forall r | r in TopK(query, records, topK, sim)
      ensures r in records && HasEmbedding(r)
    {
      var k :| 0 <= k < |top| && top[k].record == r;
      assert top[k] in multiset(c);
      var i :| 0 <= i < |c| && c[i] == top[k];
    }
  }
}
