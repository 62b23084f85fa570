/**
 * The numbered context the retrieval front ends hand to the language model: an opening
 * that quotes the question, one entry per ranked record (the full log looked up by the
 * record's date) and a closing line that repeats the question. A record whose full log
 * is missing keeps its number and gets a one-line placeholder.
 */
module RagContext {
  import opened Wrappers
  import opened Json
  import Text
  import Seqs
  import Dicts
  import CleanDailyLogs

  /**
   * `load_full_log`: the decoded `<date>.json` of the log directory, `None` when there is
   * no such file.
   */
  type Lookup = string -> Option<Json>

  function Opening(query: string): string
  {
    "Based on your daily logs, here's the context for your question: '" + query + "'\n\n"
    + "Relevant log entries:\n"
  }

  function Closing(query: string): string
  {
    "Now please answer the user's question: " + query
  }

  const NOT_AVAILABLE: Json := JStr("[Not available]")

  /** `log_data.get('date', 'Unknown')`. */
  function DateOf(record: Json): Json
    requires record.JObj?
  {
    GetOr(record, "date", JStr("Unknown"))
  }

  /** The date as it is printed and as it names the log file. */
  function DateText(record: Json): string
    requires record.JObj?
  {
    PyStr(DateOf(record))
  }

  /** `full_log is None` fails: the file exists and does not hold JSON `null`. */
  predicate Found(full: Option<Json>)
  {
    full.Some? && !full.value.JNull?
  }

  /** `full_log.get` needs a dict. */
  predicate Readable(full: Option<Json>)
  {
    Found(full) ==> full.value.JObj?
  }

  /** The five values read from a found log. */
  datatype Fields = Fields(summary: Json, mood: Json, tags: Json, wins: Json, losses: Json)

  /** Top-level `summary`, `mood`, `tags`, `wins` and `losses`, each with its default. */
  function FieldsOf(log: Json): Fields
    requires log.JObj?
  {
    Fields(GetOr(log, "summary", NOT_AVAILABLE), GetOr(log, "mood", NOT_AVAILABLE),
           GetOr(log, "tags", EMPTY_ARR), GetOr(log, "wins", NOT_AVAILABLE),
           GetOr(log, "losses", NOT_AVAILABLE))
  }

  /** The placeholder entry for a record whose log file is missing. */
  function MissingEntry(i: nat, date: string): string
  {
    Text.NatToString(i) + ". Date: " + date + " - [Log file not found]\n"
  }

  /** The six lines of a found entry and the blank line after them. */
  function FoundLines(i: nat, date: string, f: Fields): seq<string>
  {
    [Text.NatToString(i) + ". Date: " + date,
     "   Summary: " + PyStr(f.summary),
     "   Mood: " + PyStr(f.mood),
     "   Tags: " + PyStr(f.tags),
     "   Wins: " + PyStr(f.wins),
     "   Losses: " + PyStr(f.losses),
     ""]
  }

  /** The entry for a found log: its lines, each followed by a line break. */
  function FoundEntry(i: nat, date: string, f: Fields): string
  {
    Text.Join("\n", FoundLines(i, date, f)) + "\n"
  }

  /** What the context needs of the ranked records: dicts whose found logs are dicts. */
  predicate Formattable(records: seq<Json>, lookup: Lookup)
  {
    forall k :: 0 <= k < |records| ==> records[k].JObj? && Readable(lookup(DateText(records[k])))
  }

  /** The entry numbered `i` for `record`. */
  function Entry(i: nat, record: Json, lookup: Lookup): string
    requires record.JObj? && Readable(lookup(DateText(record)))
  {
    var date := DateText(record);
    var full := lookup(date);
    if Found(full) then FoundEntry(i, date, FieldsOf(full.value)) else MissingEntry(i, date)
  }

  /** The entries of the ranked records, numbered from 1 in rank order. */
  function Entries(records: seq<Json>, lookup: Lookup): string
    requires Formattable(records, lookup)
  {
    if records == [] then ""
    else
      var init := records[..|records| - 1];
      FormattablePrefix(records, lookup, |records| - 1);
      Entries(init, lookup) + Entry(|records|, records[|records| - 1], lookup)
  }

  /** The whole context. */
  function Context(query: string, records: seq<Json>, lookup: Lookup): string
    requires Formattable(records, lookup)
  {
    Opening(query) + Entries(records, lookup) + Closing(query)
  }

  /** `format_rag_context`: the opening, one entry per ranked record, the closing line. */
  method FormatRagContext(query: string, similar: seq<Json>, lookup: Lookup) returns (context: string)
    requires Formattable(similar, lookup)
    ensures context == Context(query, similar, lookup)
  {
    context := "Based on your daily logs, here's the context for your question: '" + query + "'\n\n";
    context := context + "Relevant log entries:\n";
    assert similar[..0] == [];
    for i := 0 to |similar|
      invariant Formattable(similar[..i], lookup)
      invariant context == Opening(query) + Entries(similar[..i], lookup)
    {
      EntriesSnoc(similar, i, lookup);
      ghost var before := Entries(similar[..i], lookup);
      var date := DateText(similar[i]);
      var full := lookup(date);
      if !Found(full) {
        AppendEntry(Opening(query), before, MissingEntry(i + 1, date));
        context := context + MissingEntry(i + 1, date);
        continue;
      }
      var f := FieldsOf(full.value);
      AppendEntry(Opening(query), before, FoundEntry(i + 1, date, f));
      context := context + FoundEntry(i + 1, date, f);
    }
    assert similar[..|similar|] == similar;
    context := context + "Now please answer the user's question: " + query;
  }

  lemma AppendEntry(opening: string, before: string, entry: string)
    ensures opening + before + entry == opening + (before + entry)
  {
  }

  /** One more record adds its entry, numbered after those before it. */
  lemma EntriesSnoc(records: seq<Json>, i: nat, lookup: Lookup)
    requires i < |records| && Formattable(records, lookup)
    ensures Formattable(records[..i], lookup) && Formattable(records[..i + 1], lookup)
    ensures Entries(records[..i + 1], lookup) == Entries(records[..i], lookup) + Entry(i + 1, records[i], lookup)
  {
    FormattablePrefix(records, lookup, i);
    FormattablePrefix(records, lookup, i + 1);
    assert records[..i + 1][..i] == records[..i];
  }

  /** Every prefix of formattable records is formattable. */
  lemma FormattablePrefix(records: seq<Json>, lookup: Lookup, n: nat)
    requires Formattable(records, lookup) && n <= |records|
    ensures Formattable(records[..n], lookup)
  {
    forall k | 0 <= k < n
      ensures records[..n][k].JObj? && Readable(lookup(DateText(records[..n][k])))
    {
      assert records[..n][k] == records[k];
    }
  }

  /** The context opens with the quoted question and closes with the question. */
  lemma ContextFrame(query: string, records: seq<Json>, lookup: Lookup)
    requires Formattable(records, lookup)
    ensures Text.StartsWith(Context(query, records, lookup), Opening(query))
    ensures Text.EndsWith(Context(query, records, lookup), Closing(query))
  {
    var c := Context(query, records, lookup);
    assert c[..|Opening(query)|] == Opening(query);
    assert c[|c| - |Closing(query)|..] == Closing(query);
  }

  /** The entries as a list, before they are run together. */
  function EntryList(records: seq<Json>, lookup: Lookup): (parts: seq<string>)
    requires Formattable(records, lookup)
    ensures |parts| == |records|
  {
    if records == [] then []
    else
      var init := records[..|records| - 1];
      FormattablePrefix(records, lookup, |records| - 1);
      EntryList(init, lookup) + [Entry(|records|, records[|records| - 1], lookup)]
  }

  /** Numbering runs over every ranked record, found or not: record `k` is entry `k + 1`. */
  lemma {:induction false} EntryNumbered(records: seq<Json>, lookup: Lookup, k: nat)
    requires Formattable(records, lookup) && k < |records|
    ensures EntryList(records, lookup)[k] == Entry(k + 1, records[k], lookup)
  {
    var n := |records| - 1;
    if k == n {
      EntryListLast(records, lookup);
    } else {
      FormattablePrefix(records, lookup, n);
      EntryNumbered(records[..n], lookup, k);
      EntryListStep(records, lookup, k);
    }
  }

  /** The last record's entry ends the list. */
  lemma EntryListLast(records: seq<Json>, lookup: Lookup)
    requires Formattable(records, lookup) && |records| > 0
    ensures EntryList(records, lookup)[|records| - 1] == Entry(|records|, records[|records| - 1], lookup)
  {
  }

  /** An earlier record's entry is where it was in the list without the last record. */
  lemma EntryListStep(records: seq<Json>, lookup: Lookup, k: nat)
    requires Formattable(records, lookup) && k < |records| - 1
    requires Formattable(records[..|records| - 1], lookup)
    requires EntryList(records[..|records| - 1], lookup)[k] == Entry(k + 1, records[..|records| - 1][k], lookup)
    ensures EntryList(records, lookup)[k] == Entry(k + 1, records[k], lookup)
  {
  }

  /** The entries, one after another, make up the middle of the context. */
  lemma {:induction false} EntriesJoined(records: seq<Json>, lookup: Lookup)
    requires Formattable(records, lookup)
    ensures Entries(records, lookup) == Text.Join("", EntryList(records, lookup))
  {
    if |records| > 1 {
      var init := records[..|records| - 1];
      FormattablePrefix(records, lookup, |records| - 1);
      EntriesJoined(init, lookup);
      Text.JoinSnoc("", EntryList(init, lookup), Entry(|records|, records[|records| - 1], lookup));
    } else if |records| == 1 {
      assert records[..0] == [];
    }
  }

  /** A found entry reads back as its six lines and a blank line. */
  lemma FoundEntryLines(i: nat, date: string, f: Fields)
    requires forall k :: 0 <= k < 7 ==> '\n' !in FoundLines(i, date, f)[k]
    ensures Text.Split(FoundEntry(i, date, f), '\n') == FoundLines(i, date, f) + [""]
  {
    Text.SplitJoinTerminated(FoundLines(i, date, f), '\n');
  }

  /** A missing log's entry is a single line naming its number and date. */
  lemma MissingEntryLine(i: nat, date: string)
    requires '\n' !in date
    ensures Text.Split(MissingEntry(i, date), '\n')
      == [Text.NatToString(i) + ". Date: " + date + " - [Log file not found]", ""]
  {
    var line := Text.NatToString(i) + ". Date: " + date + " - [Log file not found]";
    assert '\n' !in line;
    Text.SplitJoinTerminated([line], '\n');
    assert MissingEntry(i, date) == Text.Join("\n", [line]) + "\n";
  }

  /**
   * A log in the normaliser's eight-field shape has no top-level `mood`, `wins` or
   * `losses`: its entry always shows `[Not available]` for them.
   */
  lemma NormalisedLogUnavailable(log: Json)
    requires log.JObj? && Dicts.Keys(log.fields) == CleanDailyLogs.TEMPLATE_KEYS
    ensures FieldsOf(log).mood == NOT_AVAILABLE
    ensures FieldsOf(log).wins == NOT_AVAILABLE
    ensures FieldsOf(log).losses == NOT_AVAILABLE
  {
    var ks := CleanDailyLogs.TEMPLATE_KEYS;
    forall j | 0 <= j < |log.fields|
      ensures log.fields[j].0 in ks
    {
      assert Dicts.Keys(log.fields)[j] == log.fields[j].0;
    }
  }

  /** `used_logs.append({...})`: the values a found entry shows, under their names. */
  function UsedLog(record: Json, f: Fields): Json
    requires record.JObj?
  {
    JObj([("date", DateOf(record)), ("summary", f.summary), ("mood", f.mood),
          ("tags", f.tags), ("wins", f.wins), ("losses", f.losses)])
  }

  /** Whether the record's log file is found. */
  function IsFound(lookup: Lookup): Json -> bool
  {
    (r: Json) => r.JObj? && Found(lookup(DateText(r)))
  }

  /** The `used_logs` of `RAGEngine.process_query`: one per found entry, in rank order. */
  function UsedLogs(records: seq<Json>, lookup: Lookup): seq<Json>
    requires Formattable(records, lookup)
  {
    if records == [] then []
    else
      var init, r := records[..|records| - 1], records[|records| - 1];
      FormattablePrefix(records, lookup, |records| - 1);
      var full := lookup(DateText(r));
      UsedLogs(init, lookup) + (if Found(full) then [UsedLog(r, FieldsOf(full.value))] else [])
  }

  /**
   * `used_logs` holds exactly the records whose log was found, in rank order, each with
   * the values its context entry shows.
   */
  lemma {:induction false} UsedLogsAreFoundEntries(records: seq<Json>, lookup: Lookup)
    requires Formattable(records, lookup)
    ensures var found := Seqs.Filter(records, IsFound(lookup));
      && |UsedLogs(records, lookup)| == |found|
      && forall j :: 0 <= j < |found| ==>
           && IsFound(lookup)(found[j])
           && Found(lookup(DateText(found[j]))) && lookup(DateText(found[j])).value.JObj?
           && UsedLogs(records, lookup)[j] == UsedLog(found[j], FieldsOf(lookup(DateText(found[j])).value))
  {
    if records != [] {
      var init := records[..|records| - 1];
      assert forall k :: 0 <= k < |init| ==> init[k] == records[k];
      UsedLogsAreFoundEntries(init, lookup);
    }
  }
}
