/**
 * The CSV variant of the sheet integration: every exported tab is read as a CSV file
 * and formatted with the generic row rules, the embedding text is every non-metadata
 * field, and the new embeddings are merged after the existing log embeddings.
 *
 * Cell cleaning, the generic row rules and the embedding-record loop are the same
 * definitions as in `GoogleSheets` (`Clean`, `Generic`, `CreateEmbeddings`).
 */
module SimpleSheets {
  import opened Wrappers
  import opened Json
  import Text
  import Seqs
  import Dicts
  import Ranking
  import GoogleSheets

  type Entry = GoogleSheets.Entry

  // ---------------------------------------------------------------------------------
  // process_csv_file / process_all_csv_files
  // ---------------------------------------------------------------------------------

  /** What one CSV file yields; `None` is a file that `read_csv` fails on, which yields nothing. */
  function CsvEntries(tab: string, file: Option<GoogleSheets.Frame>): seq<Entry>
  {
    match file
    case None => []
    case Some(df) => GoogleSheets.Generic(tab, df)
  }

  /** `process_csv_file`: the generic rules applied to every row of the file. */
  method ProcessCsvFile(tab: string, file: Option<GoogleSheets.Frame>) returns (entries: seq<Entry>)
    ensures file.None? ==> entries == []
    ensures file.Some? ==> entries == GoogleSheets.Generic(tab, file.value)
  {
    if file.None? {
      return [];
    }
    entries := GoogleSheets.FormatGeneric(file.value, tab);
  }

  /** The tabs and their file names, in the order they are processed. */
  const CSV_FILES: seq<(string, string)> := [
    ("samdaily", "samdaily.csv"), ("energy_modes", "energy_modes.csv"), ("prompts", "prompts.csv"),
    ("sheet6", "sheet6.csv"), ("video", "video.csv")
  ]

  /** What one listed file contributes: nothing when it is not in the data directory. */
  function FileEntries(file: (string, string), present: string -> bool, read: string -> Option<GoogleSheets.Frame>): seq<Entry>
  {
    if present(file.1) then CsvEntries(file.0, read(file.1)) else []
  }

  /**
   * Every listed file's entries, one file after the other; `present` says whether a file is
   * in the data directory and `read` stands for `pd.read_csv`.
   */
  function AllCsv(files: seq<(string, string)>, present: string -> bool, read: string -> Option<GoogleSheets.Frame>): seq<Entry>
  {
    Seqs.ConcatMap(files, file => FileEntries(file, present, read))
  }

  /** `process_all_csv_files`: nothing when the data directory is missing. */
  function CsvFiles(dirExists: bool, present: string -> bool, read: string -> Option<GoogleSheets.Frame>): seq<Entry>
  {
    if dirExists then AllCsv(CSV_FILES, present, read) else []
  }

  method ProcessAllCsvFiles(dirExists: bool, present: string -> bool, read: string -> Option<GoogleSheets.Frame>)
    returns (entries: seq<Entry>)
    ensures entries == CsvFiles(dirExists, present, read)
  {
    if !dirExists {
      return [];
    }
    entries := [];
    for i := 0 to |CSV_FILES|
      invariant entries == AllCsv(CSV_FILES[..i], present, read)
    {
      var (tab, name) := CSV_FILES[i];
      assert CSV_FILES[..i + 1][..i] == CSV_FILES[..i];
      if present(name) {
        var more := ProcessCsvFile(tab, read(name));
        entries := entries + more;
      }
    }
    assert CSV_FILES[..|CSV_FILES|] == CSV_FILES;
  }

  /**
   * An entry is produced exactly when the data directory exists and some listed file is
   * present, reads as a frame and formats to it.
   */
  lemma CsvMembers(dirExists: bool, present: string -> bool, read: string -> Option<GoogleSheets.Frame>, e: Entry)
    ensures e in CsvFiles(dirExists, present, read) <==>
      dirExists && (exists t :: 0 <= t < |CSV_FILES| && present(CSV_FILES[t].1) && read(CSV_FILES[t].1).Some?
                      && e in GoogleSheets.Generic(CSV_FILES[t].0, read(CSV_FILES[t].1).value))
  {
    Seqs.ConcatMapMember(CSV_FILES, file => FileEntries(file, present, read), e);
  }

  /** The tab names are already keys, so each file's entries carry `google_sheets_<tab>`. */
  lemma CsvSourceTags(t: nat)
    requires t < |CSV_FILES|
    ensures GoogleSheets.SourceTag(CSV_FILES[t].0) == "google_sheets_" + CSV_FILES[t].0
  {
    var tab := CSV_FILES[t].0;
    assert ' ' !in tab && forall k :: 0 <= k < |tab| ==> !('A' <= tab[k] <= 'Z');
    GoogleSheets.NormaliseFixes(tab);
  }

  // ---------------------------------------------------------------------------------
  // The text of create_embeddings_file
  // ---------------------------------------------------------------------------------

  /** `f"{key}: {value}"` for every key except the metadata, in entry order, joined by `" | "`. */
  function SimpleText(entry: Entry): string
  {
    Text.Join(" | ", GoogleSheets.KeyParts(entry, GoogleSheets.METADATA))
  }

  method BuildSimpleText(entry: Entry) returns (text: string)
    ensures text == SimpleText(entry)
  {
    var parts: seq<string> := [];
    for i := 0 to |entry|
      invariant parts == GoogleSheets.KeyParts(entry[..i], GoogleSheets.METADATA)
    {
      var (key, value) := entry[i];
      Seqs.TakeSnoc(entry, i);
      if key !in GoogleSheets.METADATA {
        parts := parts + [key + ": " + PyStr(value)];
      }
    }
    assert entry[..|entry|] == entry;
    text := Text.Join(" | ", parts);
  }

  /** Key parts depend only on which keys are excluded. */
  lemma {:induction false} KeyPartsSameExclusion(entry: Entry, ex1: seq<string>, ex2: seq<string>)
    requires forall i :: 0 <= i < |entry| ==> (entry[i].0 in ex1 <==> entry[i].0 in ex2)
    ensures GoogleSheets.KeyParts(entry, ex1) == GoogleSheets.KeyParts(entry, ex2)
  {
    if entry != [] {
      var init := entry[..|entry| - 1];
      assert forall i :: 0 <= i < |init| ==> init[i] == entry[i];
      KeyPartsSameExclusion(init, ex1, ex2);
    }
  }

  /** Without a labelled key, the CSV text and the labelled text of the sheet integration agree. */
  lemma SimpleTextWithoutLabels(entry: Entry)
    requires forall l :: 0 <= l < |GoogleSheets.LABELS| ==> !Dicts.HasKey(entry, GoogleSheets.LABELS[l].0)
    ensures SimpleText(entry) == GoogleSheets.EmbeddingText(entry)
  {
    var labels := GoogleSheets.LABELS;
    var parts := GoogleSheets.LabelledParts(entry, labels);
    if parts != [] {
      GoogleSheets.LabelledMember(entry, labels, parts[0]);
    }
    assert parts == [];
    assert forall i :: 0 <= i < |entry| ==>
      (entry[i].0 in GoogleSheets.METADATA <==> entry[i].0 in Dicts.Keys(labels) + GoogleSheets.METADATA);
    KeyPartsSameExclusion(entry, GoogleSheets.METADATA, Dicts.Keys(labels) + GoogleSheets.METADATA);
    var rest := GoogleSheets.KeyParts(entry, GoogleSheets.METADATA);
    assert GoogleSheets.TextParts(entry) == parts + rest;
    assert parts + rest == rest;
  }

  /** `text.strip()` is empty exactly when every key is metadata. */
  lemma SimpleBlankIff(entry: Entry)
    ensures Text.Strip(SimpleText(entry)) == "" <==>
      forall i :: 0 <= i < |entry| ==> entry[i].0 in GoogleSheets.METADATA
  {
    var parts := GoogleSheets.KeyParts(entry, GoogleSheets.METADATA);
    if exists i :: 0 <= i < |entry| && entry[i].0 !in GoogleSheets.METADATA {
      var i :| 0 <= i < |entry| && entry[i].0 !in GoogleSheets.METADATA;
      GoogleSheets.KeyPartsMember(entry, GoogleSheets.METADATA, GoogleSheets.KeyPart(entry[i]));
      var j :| 0 <= j < |entry| && entry[j].0 !in GoogleSheets.METADATA && parts[0] == GoogleSheets.KeyPart(entry[j]) by {
        GoogleSheets.KeyPartsMember(entry, GoogleSheets.METADATA, parts[0]);
      }
      var k := |entry[j].0|;
      assert parts[0][k] == ':';
      Text.JoinStartsWith(" | ", parts);
      assert SimpleText(entry)[k] == ':';
      Text.StripNonBlank(SimpleText(entry), k);
    } else if parts != [] {
      GoogleSheets.KeyPartsMember(entry, GoogleSheets.METADATA, parts[0]);
    }
  }

  /** Of three distinct keys one is not metadata, so the text is not blank. */
  lemma ThreeKeysGiveSimpleText(e: Entry)
    requires Dicts.UniqueKeys(e) && |e| > 2
    ensures Text.Strip(SimpleText(e)) != ""
  {
    assert e[0].0 != e[1].0 && e[0].0 != e[2].0 && e[1].0 != e[2].0;
    var i := if e[0].0 !in GoogleSheets.METADATA then 0
      else if e[1].0 !in GoogleSheets.METADATA then 1 else 2;
    assert e[i].0 !in GoogleSheets.METADATA;
    SimpleBlankIff(e);
  }

  /** Every entry a CSV file formats to gets an embedding record. */
  lemma GenericSimpleText(tab: string, df: GoogleSheets.Frame, e: Entry)
    requires e in GoogleSheets.Generic(tab, df)
    ensures Text.Strip(SimpleText(e)) != ""
  {
    GoogleSheets.GenericRows(tab, df, e);
    var i :| 0 <= i < |df.rows| && e == GoogleSheets.GenericEntry(tab, df.columns, df.rows[i], i);
    GoogleSheets.GenericUnique(tab, df.columns, df.rows[i], i);
    ThreeKeysGiveSimpleText(e);
  }

  /** Every processed entry gets an embedding record. */
  lemma CsvEntriesHaveText(dirExists: bool, present: string -> bool, read: string -> Option<GoogleSheets.Frame>, e: Entry)
    requires e in CsvFiles(dirExists, present, read)
    ensures Text.Strip(SimpleText(e)) != ""
  {
    CsvMembers(dirExists, present, read, e);
    var t :| 0 <= t < |CSV_FILES| && present(CSV_FILES[t].1) && read(CSV_FILES[t].1).Some?
      && e in GoogleSheets.Generic(CSV_FILES[t].0, read(CSV_FILES[t].1).value);
    GenericSimpleText(CSV_FILES[t].0, read(CSV_FILES[t].1).value, e);
  }

  /**
   * The CSV script's embeddings file: one record per processed entry, in order, its text
   * being `SimpleText` of the entry; the loop fails only where the encoder does.
   */
  lemma CsvRecordsOneForOne(dirExists: bool, present: string -> bool, read: string -> Option<GoogleSheets.Frame>,
                            encode: string -> Option<seq<real>>)
    ensures var entries := CsvFiles(dirExists, present, read);
      var rs := GoogleSheets.Embedded(entries, SimpleText, encode);
      && |rs| == |entries|
      && (forall i :: 0 <= i < |entries| ==>
            && rs[i].id == GoogleSheets.RecordId(i) && rs[i].text == SimpleText(entries[i]) && rs[i].metadata == entries[i]
            && (encode(SimpleText(entries[i])).Some? ==> rs[i].embedding == encode(SimpleText(entries[i])).value))
      && (forall i :: 0 <= i < |entries| ==>
            (GoogleSheets.EncodeFails(entries, i, SimpleText, encode) <==> encode(SimpleText(entries[i])).None?))
  {
    var entries := CsvFiles(dirExists, present, read);
    forall i | 0 <= i < |entries|
      ensures Text.Strip(SimpleText(entries[i])) != ""
    {
      CsvEntriesHaveText(dirExists, present, read, entries[i]);
    }
    GoogleSheets.AllEmbedded(entries, SimpleText, encode);
  }

  // ---------------------------------------------------------------------------------
  // merge_with_existing_embeddings
  // ---------------------------------------------------------------------------------

  /**
   * The records of one JSON-lines file: the non-blank lines decoded in order, or `None`
   * when a non-blank line does not decode (`json.loads` raises and the merge gives up).
   */
  method LoadJsonLines(lines: seq<string>, parse: string -> Option<Json>) returns (r: Option<seq<Json>>)
    ensures r.Some? <==> Ranking.Decodable(lines, parse)
    ensures r.Some? ==> r.value == Ranking.ParsedLines(lines, parse)
  {
    var records: seq<Json> := [];
    for i := 0 to |lines|
      invariant Ranking.Decodable(lines[..i], parse)
      invariant records == Ranking.ParsedLines(lines[..i], parse)
    {
      var line := lines[i];
      if Text.Strip(line) != "" {
        var v := parse(line);
        if v.None? {
          assert !Ranking.Decodable(lines, parse) by {
            assert Text.Strip(lines[i]) != "" && parse(lines[i]).None?;
          }
          return None;
        }
        Ranking.ParsedSnoc(lines, i, parse);
        records := records + [v.value];
      } else {
        Ranking.ParsedSnoc(lines, i, parse);
      }
    }
    assert lines[..|lines|] == lines;
    return Some(records);
  }

  /** The records a file contributes: a missing file (`None`) contributes none. */
  function Loaded(file: Option<seq<string>>, parse: string -> Option<Json>): seq<Json>
    requires file.Some? ==> Ranking.Decodable(file.value, parse)
  {
    match file
    case None => []
    case Some(lines) => Ranking.ParsedLines(lines, parse)
  }

  predicate Loads(file: Option<seq<string>>, parse: string -> Option<Json>)
  {
    file.Some? ==> Ranking.Decodable(file.value, parse)
  }

  /** The combined records: the existing ones first, then the new ones; `None` when either file fails to decode. */
  function Merged(existing: Option<seq<string>>, incoming: Option<seq<string>>, parse: string -> Option<Json>): Option<seq<Json>>
  {
    if Loads(existing, parse) && Loads(incoming, parse) then Some(Loaded(existing, parse) + Loaded(incoming, parse))
    else None
  }

  /** `merge_with_existing_embeddings`; the combined file's lines are the result. */
  method MergeEmbeddings(existing: Option<seq<string>>, incoming: Option<seq<string>>, parse: string -> Option<Json>)
    returns (merged: Option<seq<Json>>)
    ensures merged == Merged(existing, incoming, parse)
    ensures merged.None? <==>
      (existing.Some? && exists k :: 0 <= k < |existing.value| && Text.Strip(existing.value[k]) != "" && parse(existing.value[k]).None?)
      || (incoming.Some? && exists k :: 0 <= k < |incoming.value| && Text.Strip(incoming.value[k]) != "" && parse(incoming.value[k]).None?)
  {
    var all: seq<Json> := [];
    if existing.Some? {
      var loaded := LoadJsonLines(existing.value, parse);
      if loaded.None? {
        return None;
      }
      all := all + loaded.value;
    }
    assert Loads(existing, parse) && all == Loaded(existing, parse);
    if incoming.Some? {
      var loaded := LoadJsonLines(incoming.value, parse);
      if loaded.None? {
        return None;
      }
      all := all + loaded.value;
    }
    assert all == Loaded(existing, parse) + Loaded(incoming, parse);
    return Some(all);
  }

  /** The lines a file contributes to the total. */
  function NonBlankCount(file: Option<seq<string>>): nat
  {
    match file
    case None => 0
    case Some(lines) => |Ranking.NonBlank(lines)|
  }

  /** One loaded record per non-blank line, decoded from that line. */
  lemma LoadedLines(file: Option<seq<string>>, parse: string -> Option<Json>)
    requires Loads(file, parse)
    ensures |Loaded(file, parse)| == NonBlankCount(file)
    ensures file.Some? ==> forall k :: 0 <= k < NonBlankCount(file) ==>
      parse(Ranking.NonBlank(file.value)[k]).Some? && Loaded(file, parse)[k] == parse(Ranking.NonBlank(file.value)[k]).value
  {
    if file.Some? {
      Ranking.ParsedNonBlank(file.value, parse);
    }
  }

  /**
   * A merge holds one record per non-blank line of the existing file, in order, followed by
   * one per non-blank line of the new file; the total is the sum of the two.
   */
  lemma MergeOrder(existing: Option<seq<string>>, incoming: Option<seq<string>>, parse: string -> Option<Json>)
    requires Merged(existing, incoming, parse).Some?
    ensures var all, n := Merged(existing, incoming, parse).value, NonBlankCount(existing);
      && |all| == n + NonBlankCount(incoming)
      && all[..n] == Loaded(existing, parse) && all[n..] == Loaded(incoming, parse)
  {
    LoadedLines(existing, parse);
    LoadedLines(incoming, parse);
  }
}
