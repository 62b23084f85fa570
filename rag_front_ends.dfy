/**
 * The three front ends that share the ranking and the numbered context: the LM Studio
 * bridge, the copy-paste context formatter and the web UI engine. Each loads the index,
 * answers an empty index with a fixed message, and otherwise ranks the records against the
 * encoded question and builds the context. The encoder, the similarity and the model call
 * are parameters.
 */
module RagFrontEnds {
  import opened Wrappers
  import opened Json
  import Text
  import Seqs
  import Ranking
  import RagContext

  const NO_EMBEDDINGS: string := "❌ No embeddings found. Please check your data files."
  const NO_EMBEDDINGS_SHORT: string := "❌ No embeddings found."

  /** What the front ends need of the index and the logs to run without raising. */
  predicate Servable(query: string, records: seq<Json>, encode: string -> seq<real>,
                     sim: (seq<real>, seq<real>) -> real, lookup: RagContext.Lookup)
  {
    && Ranking.AllRankable(records)
    && RagContext.Formattable(Ranking.TopK(encode(query), records, Ranking.DEFAULT_TOP_K, sim), lookup)
  }

  /**
   * `RAGToLMStudio.process_query`: an empty index gives the fixed message and nothing is
   * sent; otherwise the context of the top three records goes to the model (`send`).
   */
  method BridgeQuery(query: string, records: seq<Json>, encode: string -> seq<real>,
                     sim: (seq<real>, seq<real>) -> real, lookup: RagContext.Lookup,
                     send: string -> string)
    returns (response: string)
    requires Servable(query, records, encode, sim, lookup)
    ensures records == [] ==> response == NO_EMBEDDINGS
    ensures records != [] ==> (response
      == send(RagContext.Context(query, Ranking.TopK(encode(query), records, Ranking.DEFAULT_TOP_K, sim), lookup)))
  {
    if records == [] {
      return NO_EMBEDDINGS;
    }
    var queryEmbedding := encode(query);
    var similar := Ranking.FindSimilarLogs(queryEmbedding, records, Ranking.DEFAULT_TOP_K, sim);
    var context := RagContext.FormatRagContext(query, similar, lookup);
    response := send(context);
  }

  /**
   * `ContextFormatter.format_context`: the short fixed message for an empty index,
   * otherwise the context itself, for pasting by hand.
   */
  method FormatContext(query: string, records: seq<Json>, encode: string -> seq<real>,
                       sim: (seq<real>, seq<real>) -> real, lookup: RagContext.Lookup)
    returns (context: string)
    requires Servable(query, records, encode, sim, lookup)
    ensures records == [] ==> context == NO_EMBEDDINGS_SHORT
    ensures records != [] ==> (context
      == RagContext.Context(query, Ranking.TopK(encode(query), records, Ranking.DEFAULT_TOP_K, sim), lookup))
  {
    if records == [] {
      return NO_EMBEDDINGS_SHORT;
    }
    var queryEmbedding := encode(query);
    var similar := Ranking.FindSimilarLogs(queryEmbedding, records, Ranking.DEFAULT_TOP_K, sim);
    context := RagContext.FormatRagContext(query, similar, lookup);
  }

  /**
   * `RAGEngine.process_query`: the reply and the logs it used. An empty index gives the
   * fixed message and no logs; otherwise one loop builds the context and collects, for each
   * found log, the values its entry shows.
   */
  method EngineQuery(query: string, records: seq<Json>, encode: string -> seq<real>,
                     sim: (seq<real>, seq<real>) -> real, lookup: RagContext.Lookup,
                     send: string -> string)
    returns (response: string, usedLogs: seq<Json>)
    requires Servable(query, records, encode, sim, lookup)
    ensures records == [] ==> response == NO_EMBEDDINGS && usedLogs == []
    ensures records != [] ==>
      var top := Ranking.TopK(encode(query), records, Ranking.DEFAULT_TOP_K, sim);
      && response == send(RagContext.Context(query, top, lookup))
      && usedLogs == RagContext.UsedLogs(top, lookup)
  {
    if records == [] {
      return NO_EMBEDDINGS, [];
    }
    var queryEmbedding := encode(query);
    var similar := Ranking.FindSimilarLogs(queryEmbedding, records, Ranking.DEFAULT_TOP_K, sim);
    var context;
    context, usedLogs := ContextAndUsedLogs(query, similar, lookup);
    response := send(context);
  }

  /** The loop of `RAGEngine.process_query`: the context and, beside it, the logs found. */
  method ContextAndUsedLogs(query: string, similar: seq<Json>, lookup: RagContext.Lookup)
    returns (context: string, usedLogs: seq<Json>)
    requires RagContext.Formattable(similar, lookup)
    ensures context == RagContext.Context(query, similar, lookup)
    ensures usedLogs == RagContext.UsedLogs(similar, lookup)
  {
    context := "Based on your daily logs, here's the context for your question: '" + query + "'\n\n";
    context := context + "Relevant log entries:\n";
    usedLogs := [];
    assert similar[..0] == [];
    for i := 0 to |similar|
      invariant RagContext.Formattable(similar[..i], lookup)
      invariant context == RagContext.Opening(query) + RagContext.Entries(similar[..i], lookup)
      invariant usedLogs == RagContext.UsedLogs(similar[..i], lookup)
    {
      RagContext.EntriesSnoc(similar, i, lookup);
      UsedLogsSnoc(similar, i, lookup);
      ghost var before := RagContext.Entries(similar[..i], lookup);
      var date := RagContext.DateText(similar[i]);
      var full := lookup(date);
      if !RagContext.Found(full) {
        RagContext.AppendEntry(RagContext.Opening(query), before, RagContext.MissingEntry(i + 1, date));
        context := context + RagContext.MissingEntry(i + 1, date);
        continue;
      }
      var f := RagContext.FieldsOf(full.value);
      RagContext.AppendEntry(RagContext.Opening(query), before, RagContext.FoundEntry(i + 1, date, f));
      context := context + RagContext.FoundEntry(i + 1, date, f);
      usedLogs := usedLogs + [RagContext.UsedLog(similar[i], f)];
    }
    assert similar[..|similar|] == similar;
    context := context + "Now please answer the user's question: " + query;
  }

  lemma UsedLogsSnoc(records: seq<Json>, i: nat, lookup: RagContext.Lookup)
    requires i < |records| && RagContext.Formattable(records, lookup)
    ensures RagContext.Formattable(records[..i], lookup) && RagContext.Formattable(records[..i + 1], lookup)
    ensures var full := lookup(RagContext.DateText(records[i]));
      RagContext.UsedLogs(records[..i + 1], lookup) == RagContext.UsedLogs(records[..i], lookup)
        + (if RagContext.Found(full) then [RagContext.UsedLog(records[i], RagContext.FieldsOf(full.value))] else [])
  {
    var pre := records[..i + 1];
    assert forall k :: 0 <= k < i + 1 ==> pre[k] == records[k];
    assert pre[..i] == records[..i];
  }
}
