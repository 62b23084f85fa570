/**
 * The command-line query engine: it loads the index (a missing index ends the program
 * with status 1), ranks the records against the encoded question without cutting vectors
 * to a common length, builds a six-line block per ranked record and asks the model,
 * whose failure comes back as text.
 */
module RagQuery {
  import opened Wrappers
  import opened Json
  import Text
  import Seqs
  import Sorting
  import Ranking
  import RagContext

  /** `load_embeddings`: a missing index file exits with status 1. */
  method LoadEmbeddings(file: Option<seq<string>>, parse: string -> Option<Json>)
    returns (r: Result<seq<Json>, nat>)
    requires file.Some? ==> Ranking.Decodable(file.value, parse)
    ensures file.None? ==> r == Err(1)
    ensures file.Some? ==> r == Ok(Ranking.ParsedLines(file.value, parse))
  {
    if file.None? {
      return Err(1);
    }
    var records := Ranking.ParseIndex(file.value, parse);
    return Ok(records);
  }

  /**
   * Every embedding has the query's length: `np.dot` of vectors of different lengths
   * raises, and this copy of the ranking does not cut them.
   */
  predicate SameDimension(query: seq<real>, records: seq<Json>)
    requires Ranking.AllRankable(records)
  {
    forall k :: 0 <= k < |records| && Ranking.HasEmbedding(records[k]) ==>
      |Ranking.Vector(Get(records[k], "embedding").value)| == |query|
  }

  /**
   * `find_similar_logs` without truncation: on embeddings of the query's length it ranks
   * exactly as the truncating copy does.
   */
  method FindSimilarLogs(query: seq<real>, records: seq<Json>, topK: int, sim: (seq<real>, seq<real>) -> real)
    returns (top: seq<Json>)
    requires Ranking.AllRankable(records) && SameDimension(query, records)
    ensures top == Ranking.TopK(query, records, topK, sim)
  {
    var similarities: seq<Ranking.Scored> := [];
    for i := 0 to |records|
      invariant Ranking.AllRankable(records[..i])
      invariant similarities == Ranking.Candidates(query, records[..i], sim)
    {
      assert records[..i + 1][..i] == records[..i];
      var r := records[i];
      if !Has(r, "embedding") {
        continue;
      }
      var v := Ranking.Vector(Get(r, "embedding").value);
      assert Ranking.HasEmbedding(records[i]);
      Ranking.ScoreIsTruncated(query, v, sim);
      similarities := similarities + [Ranking.Scored(sim(query, v), i, r)];
    }
    assert records[..|records|] == records;
    similarities := Sorting.Sort(similarities, Ranking.ByScore());
    top := Ranking.Records(Seqs.SliceTo(similarities, topK));
  }

  function Header(query: string): string
  {
    "User asked: " + query + "\n\n" + "Matching logs:\n"
  }

  /** The lines of a record's block, the blank line after them included. */
  function BlockLines(date: string, full: Option<Json>): (lines: seq<string>)
    requires RagContext.Readable(full)
    ensures |lines| == 7
  {
    if !RagContext.Found(full) then
      ["Date: " + date,
       "Summary: [Log file not found]",
       "Mood: [Not available]",
       "Tags: [Not available]",
       "Wins: [Not available]",
       "Losses: [Not available]",
       ""]
    else
      var f := RagContext.FieldsOf(full.value);
      ["Date: " + date,
       "Summary: " + PyStr(f.summary),
       "Mood: " + PyStr(f.mood),
       "Tags: " + PyStr(f.tags),
       "Wins: " + PyStr(f.wins),
       "Losses: " + PyStr(f.losses),
       ""]
  }

  /** A record's block: its lines, each followed by a line break. */
  function Block(record: Json, lookup: RagContext.Lookup): string
    requires record.JObj? && RagContext.Readable(lookup(RagContext.DateText(record)))
  {
    var date := RagContext.DateText(record);
    Text.Join("\n", BlockLines(date, lookup(date))) + "\n"
  }

  function Blocks(records: seq<Json>, lookup: RagContext.Lookup): string
    requires RagContext.Formattable(records, lookup)
  {
    if records == [] then ""
    else
      var init := records[..|records| - 1];
      assert RagContext.Formattable(init, lookup) by {
        assert forall k :: 0 <= k < |init| ==> init[k] == records[k];
      }
      Blocks(init, lookup) + Block(records[|records| - 1], lookup)
  }

  /** The prompt: the header, then one block per ranked record in rank order. */
  function Prompt(query: string, records: seq<Json>, lookup: RagContext.Lookup): string
    requires RagContext.Formattable(records, lookup)
  {
    Header(query) + Blocks(records, lookup)
  }

  lemma BlocksSnoc(records: seq<Json>, i: nat, lookup: RagContext.Lookup)
    requires i < |records| && RagContext.Formattable(records, lookup)
    ensures RagContext.Formattable(records[..i], lookup) && RagContext.Formattable(records[..i + 1], lookup)
    ensures Blocks(records[..i + 1], lookup) == Blocks(records[..i], lookup) + Block(records[i], lookup)
  {
    var pre := records[..i + 1];
    assert forall k :: 0 <= k < i + 1 ==> pre[k] == records[k];
    assert pre[..i] == records[..i];
  }

  /** `format_prompt`. */
  method FormatPrompt(query: string, similar: seq<Json>, lookup: RagContext.Lookup) returns (prompt: string)
    requires RagContext.Formattable(similar, lookup)
    ensures prompt == Prompt(query, similar, lookup)
  {
    prompt := "User asked: " + query + "\n\n";
    prompt := prompt + "Matching logs:\n";
    assert similar[..0] == [];
    for i := 0 to |similar|
      invariant RagContext.Formattable(similar[..i], lookup)
      invariant prompt == Header(query) + Blocks(similar[..i], lookup)
    {
      BlocksSnoc(similar, i, lookup);
      ghost var before := Blocks(similar[..i], lookup);
      var date := RagContext.DateText(similar[i]);
      var full := lookup(date);
      var block := Text.Join("\n", BlockLines(date, full)) + "\n";
      RagContext.AppendEntry(Header(query), before, block);
      prompt := prompt + block;
    }
    assert similar[..|similar|] == similar;
  }

  /** With no ranked records the prompt is the header alone. */
  lemma NoLogsPrompt(query: string, lookup: RagContext.Lookup)
    ensures Prompt(query, [], lookup) == "User asked: " + query + "\n\nMatching logs:\n"
  {
  }

  /**
   * Every block, found or not, reads back as the same six labelled lines and a blank line;
   * a missing log says so on its summary line and shows every other field as not available.
   */
  lemma BlockShape(date: string, full: Option<Json>)
    requires RagContext.Readable(full)
    requires forall k :: 0 <= k < 7 ==> '\n' !in BlockLines(date, full)[k]
    ensures var lines := BlockLines(date, full);
      && Text.Split(Text.Join("\n", lines) + "\n", '\n') == lines + [""]
      && Text.StartsWith(lines[0], "Date: ") && Text.StartsWith(lines[1], "Summary: ")
      && Text.StartsWith(lines[2], "Mood: ") && Text.StartsWith(lines[3], "Tags: ")
      && Text.StartsWith(lines[4], "Wins: ") && Text.StartsWith(lines[5], "Losses: ")
      && lines[6] == ""
    ensures !RagContext.Found(full) ==> BlockLines(date, full)[1] == "Summary: [Log file not found]"
  {
    Text.SplitJoinTerminated(BlockLines(date, full), '\n');
  }

  const OPENAI_ERROR: string := "Error querying OpenAI: "

  /** `query_openai`: the model's text, or its failure as text. */
  function Reply(r: Result<string, string>): (answer: string)
    ensures r.Ok? ==> answer == r.value
    ensures r.Err? ==> Text.StartsWith(answer, OPENAI_ERROR) && answer[|OPENAI_ERROR|..] == r.error
  {
    match r
    case Ok(text) => text
    case Err(e) => OPENAI_ERROR + e
  }

  /**
   * `run_query`: load, encode, rank, format and ask. A missing index ends with status 1
   * before anything else happens.
   */
  method RunQuery(query: string, file: Option<seq<string>>, parse: string -> Option<Json>,
                  encode: string -> seq<real>, sim: (seq<real>, seq<real>) -> real,
                  lookup: RagContext.Lookup, llm: string -> Result<string, string>)
    returns (r: Result<string, nat>)
    requires file.Some? ==> Ranking.Decodable(file.value, parse)
    requires file.Some? ==>
      var records := Ranking.ParsedLines(file.value, parse);
      && Ranking.AllRankable(records) && SameDimension(encode(query), records)
      && RagContext.Formattable(Ranking.TopK(encode(query), records, Ranking.DEFAULT_TOP_K, sim), lookup)
    ensures file.None? ==> r == Err(1)
    ensures file.Some? ==> (
      var records := Ranking.ParsedLines(file.value, parse);
      r == Ok(Reply(llm(Prompt(query, Ranking.TopK(encode(query), records, Ranking.DEFAULT_TOP_K, sim), lookup)))))
  {
    var loaded := LoadEmbeddings(file, parse);
    if loaded.Err? {
      return Err(loaded.error);
    }
    var queryEmbedding := encode(query);
    var similar := FindSimilarLogs(queryEmbedding, loaded.value, Ranking.DEFAULT_TOP_K, sim);
    var prompt := FormatPrompt(query, similar, lookup);
    return Ok(Reply(llm(prompt)));
  }
}
