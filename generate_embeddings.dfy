/**
 * The embedding-index builder: every normalised log becomes one index record
 * `{"date": <D-M-YY>, "embedding": [...]}`, whose vector encodes a text made of the
 * log's summary, tags, insight lists and trigger events.
 * The sentence encoder and `datetime.fromisoformat` are supplied by the caller.
 */
module GenerateEmbeddings {
  import opened Wrappers
  import opened Json
  import Text
  import Dicts
  import CleanDailyLogs

  type DateTime = CleanDailyLogs.DateTime

  /** The timestamp text `extract_date` parses: one trailing `Z` removed, nothing trimmed. */
  function TrimZ(ts: string): (r: string)
    ensures Text.EndsWith(ts, "Z") ==> r + "Z" == ts
    ensures !Text.EndsWith(ts, "Z") ==> r == ts
  {
    if Text.EndsWith(ts, "Z") then ts[..|ts| - 1] else ts
  }

  /**
   * `extract_date(ts, fname)`: the `D-M-YY` id of a parsable timestamp (no year pinning),
   * else the file name with every `.json` removed. A non-string timestamp raises inside
   * the `try` and takes the fallback too.
   */
  function ExtractDate(ts: Json, fname: string, fromIso: string -> Option<DateTime>): string
  {
    if Truthy(ts) && ts.JStr? && fromIso(TrimZ(ts.s)).Some? then CleanDailyLogs.BaseName(fromIso(TrimZ(ts.s)).value)
    else Text.RemoveAll(fname, ".json")
  }

  /**
   * What one list-or-scalar field adds to the parts: the `str` of every element of a
   * list (empty strings included), `str(v)` of any other truthy value, else nothing.
   */
  function FieldParts(v: Json): seq<string>
  {
    if v.JArr? then Strs(v.items) else if Truthy(v) then [PyStr(v)] else []
  }

  /** The summary's part: `str(summary)` when truthy (a list summary is not expanded). */
  function SummaryParts(data: Json): seq<string>
    requires data.JObj?
  {
    var summary := GetNone(data, "summary");
    if Truthy(summary) then [PyStr(summary)] else []
  }

  /** `data.get('insights') or {}`. */
  function Insights(data: Json): Json
    requires data.JObj?
  {
    Or(GetNone(data, "insights"), EMPTY_OBJ)
  }

  /** `build_text` reads a dict whose `insights`, when truthy, is a dict (else `.get` raises). */
  predicate Embeddable(data: Json)
  {
    data.JObj? && Insights(data).JObj?
  }

  /** The parts of the insight lists named in `keys`, in that order. */
  function InsightParts(insights: Json, keys: seq<string>): seq<string>
    requires insights.JObj?
  {
    if keys == [] then []
    else InsightParts(insights, keys[..|keys| - 1]) + FieldParts(GetNone(insights, keys[|keys| - 1]))
  }

  /** The parts `build_text` collects, in order: summary, tags, wins, losses, ideas, trigger events. */
  function TextParts(data: Json): seq<string>
    requires Embeddable(data)
  {
    SummaryParts(data)
    + FieldParts(GetNone(data, "tags"))
    + InsightParts(Insights(data), CleanDailyLogs.INSIGHT_KEYS)
    + FieldParts(GetNone(data, "triggerEvents"))
  }

  /** `build_text`: the parts collected step by step, joined by single spaces. */
  method BuildText(data: Json) returns (text: string)
    requires Embeddable(data)
    ensures text == Text.Join(" ", TextParts(data))
  {
    var parts: seq<string> := [];
    var summary := GetNone(data, "summary");
    if Truthy(summary) {
      parts := parts + [PyStr(summary)];
    }
    var tags := Or(GetNone(data, "tags"), EMPTY_ARR);
    OrEmptyList(GetNone(data, "tags"));
    if tags.JArr? {
      parts := parts + Strs(tags.items);
    } else {
      parts := parts + [PyStr(tags)];
    }
    assert parts == SummaryParts(data) + FieldParts(GetNone(data, "tags"));
    var insightParts := CollectInsights(Insights(data), CleanDailyLogs.INSIGHT_KEYS);
    parts := parts + insightParts;
    var triggers := Or(GetNone(data, "triggerEvents"), EMPTY_ARR);
    OrEmptyList(GetNone(data, "triggerEvents"));
    parts := AddField(parts, triggers);
    assert parts == SummaryParts(data) + FieldParts(GetNone(data, "tags")) + insightParts
                    + FieldParts(GetNone(data, "triggerEvents"));
    text := Text.Join(" ", parts);
  }

  /** One field's step: `parts.extend(map(str, v))` for a list, `parts.append(str(v))` if truthy. */
  method AddField(parts: seq<string>, v: Json) returns (parts': seq<string>)
    ensures parts' == parts + FieldParts(v)
  {
    parts' := parts;
    if v.JArr? {
      parts' := parts' + Strs(v.items);
    } else if Truthy(v) {
      parts' := parts' + [PyStr(v)];
    }
  }

  /** The loop over the insight keys, adding each key's list or value. */
  method CollectInsights(insights: Json, keys: seq<string>) returns (parts: seq<string>)
    requires insights.JObj?
    ensures parts == InsightParts(insights, keys)
  {
    parts := [];
    for k := 0 to |keys|
      invariant parts == InsightParts(insights, keys[..k])
    {
      InsightPartsSnoc(insights, keys, k);
      parts := AddField(parts, GetNone(insights, keys[k]));
    }
    assert keys[..|keys|] == keys;
  }

  lemma InsightPartsSnoc(insights: Json, keys: seq<string>, k: nat)
    requires insights.JObj? && k < |keys|
    ensures InsightParts(insights, keys[..k + 1]) == InsightParts(insights, keys[..k]) + FieldParts(GetNone(insights, keys[k]))
  {
    assert keys[..k + 1][..k] == keys[..k];
  }

  /** `v or []` adds the same parts as `v` itself: a falsy value becomes the empty list. */
  lemma OrEmptyList(v: Json)
    ensures FieldParts(Or(v, EMPTY_ARR)) == FieldParts(v)
    ensures !Or(v, EMPTY_ARR).JArr? ==> Truthy(Or(v, EMPTY_ARR))
  {
  }

  /** Keys the text is built from; every other field of a log leaves the text unchanged. */
  const TEXT_KEYS: seq<string> := ["summary", "tags", "insights", "triggerEvents"]

  /**
   * Setting any field outside `TEXT_KEYS` (goals, status, symptomChecklist, timestamp, ...)
   * leaves the embedding text as it was.
   */
  lemma TextIgnoresOtherFields(data: Json, key: string, v: Json)
    requires Embeddable(data) && key !in TEXT_KEYS
    ensures Embeddable(JObj(Dicts.Set(data.fields, key, v)))
    ensures TextParts(JObj(Dicts.Set(data.fields, key, v))) == TextParts(data)
  {
    var data' := JObj(Dicts.Set(data.fields, key, v));
    forall k | k in TEXT_KEYS
      ensures GetNone(data', k) == GetNone(data, k)
    {
      Dicts.GetSet(data.fields, key, v, k);
    }
    assert GetNone(data', "insights") == GetNone(data, "insights");
    assert GetNone(data', "summary") == GetNone(data, "summary");
    assert GetNone(data', "tags") == GetNone(data, "tags");
    assert GetNone(data', "triggerEvents") == GetNone(data, "triggerEvents");
  }

  /** A summary with one string tag is embedded as the two joined by a space. */
  lemma SummaryAndTagExample()
    ensures var data := JObj([("summary", JStr("Felt great")), ("tags", JArr([JStr("happy")]))]);
      Embeddable(data) && Text.Join(" ", TextParts(data)) == "Felt great happy"
  {
    var data := JObj([("summary", JStr("Felt great")), ("tags", JArr([JStr("happy")]))]);
    ExampleFields(data);
    NoInsightParts(CleanDailyLogs.INSIGHT_KEYS);
    assert FieldParts(JArr([JStr("happy")])) == ["happy"];
    assert TextParts(data) == ["Felt great"] + ["happy"] + [] + [];
    ExampleJoin();
  }

  lemma ExampleFields(data: Json)
    requires data == JObj([("summary", JStr("Felt great")), ("tags", JArr([JStr("happy")]))])
    ensures GetNone(data, "summary") == JStr("Felt great") && GetNone(data, "tags") == JArr([JStr("happy")])
    ensures GetNone(data, "insights") == JNull && GetNone(data, "triggerEvents") == JNull
  {
  }

  lemma ExampleJoin()
    ensures Text.Join(" ", ["Felt great"] + ["happy"] + [] + []) == "Felt great happy"
  {
    var parts := ["Felt great"] + ["happy"] + [] + [];
    assert parts == ["Felt great", "happy"] && parts[1..] == ["happy"];
  }

  /** An empty insights dict contributes no parts, whatever the keys. */
  lemma {:induction false} NoInsightParts(keys: seq<string>)
    ensures InsightParts(EMPTY_OBJ, keys) == []
  {
    if keys != [] {
      NoInsightParts(keys[..|keys| - 1]);
      assert GetNone(EMPTY_OBJ, keys[|keys| - 1]) == JNull;
    }
  }

  /**
   * A normalised log's timestamp (rendered `%Y-%m-%dT%H:%M:%SZ`) gives back the base name
   * the normaliser filed it under, whatever suffix that file carries: `1-1-25.json` and
   * `1-1-25_2.json` share the id `1-1-25`.
   */
  lemma DateOfNormalisedLog(dt: DateTime, fname: string, fromIso: string -> Option<DateTime>)
    requires CleanDailyLogs.ValidDateTime(dt) && dt.year >= 1000
    requires var s := CleanDailyLogs.Render(dt)[..19];
      fromIso(s).Some? && fromIso(s).value.day == dt.day && fromIso(s).value.month == dt.month
      && fromIso(s).value.year == dt.year
    ensures ExtractDate(JStr(CleanDailyLogs.Render(dt)), fname, fromIso) == CleanDailyLogs.BaseName(dt)
  {
    CleanDailyLogs.RenderLength(dt);
    var r := CleanDailyLogs.Render(dt);
    assert Text.EndsWith(r, "Z");
    assert TrimZ(r) == r[..19];
  }

  /** The fallback id of a file named `stem.json`, where the stem has no `.`, is the stem. */
  lemma {:induction false} FallbackIsStem(stem: string)
    requires '.' !in stem
    ensures Text.RemoveAll(stem + ".json", ".json") == stem
  {
    if stem == [] {
      assert Text.StartsWith(".json", ".json");
      assert ".json"[5..] == [];
    } else {
      assert !Text.StartsWith(stem + ".json", ".json") by {
        assert (stem + ".json")[0] == stem[0] != '.';
      }
      assert (stem + ".json")[1..] == stem[1..] + ".json";
      FallbackIsStem(stem[1..]);
    }
  }

  /** One line of the index. */
  datatype Embedded = Embedded(date: string, embedding: seq<real>)

  /** A listed file: its name and its decoded content (`None` when it cannot be read or decoded). */
  datatype LogFile = LogFile(name: string, content: Option<Json>)

  /**
   * `process_file`: `None` when the file cannot be read or the encoder raises; otherwise
   * the date id and the vector of the log's text.
   */
  function ProcessFile(f: LogFile, encode: string -> Option<seq<real>>, fromIso: string -> Option<DateTime>)
    : (r: Option<Embedded>)
    requires f.content.Some? ==> Embeddable(f.content.value)
    ensures r.None? <==> f.content.None? || encode(Text.Join(" ", TextParts(f.content.value))).None?
    ensures r.Some? ==>
              r.value.embedding == encode(Text.Join(" ", TextParts(f.content.value))).value
              && r.value.date == ExtractDate(GetOr(f.content.value, "timestamp", JStr("")), f.name, fromIso)
  {
    match f.content
    case None => None
    case Some(data) =>
      match encode(Text.Join(" ", TextParts(data)))
      case None => None
      case Some(emb) => Some(Embedded(ExtractDate(GetOr(data, "timestamp", JStr("")), f.name, fromIso), emb))
  }

  predicate EmbeddableFiles(files: seq<LogFile>)
  {
    forall k :: 0 <= k < |files| && files[k].content.Some? ==> Embeddable(files[k].content.value)
  }

  /** The index lines for a listing: one per `.json` file that processes, in listing order. */
  function Index(files: seq<LogFile>, encode: string -> Option<seq<real>>, fromIso: string -> Option<DateTime>)
    : (r: seq<Embedded>)
    requires EmbeddableFiles(files)
    ensures |r| <= |files|
  {
    if files == [] then []
    else
      var init, f := files[..|files| - 1], files[|files| - 1];
      Index(init, encode, fromIso) +
      if Text.EndsWith(f.name, ".json") && ProcessFile(f, encode, fromIso).Some?
      then [ProcessFile(f, encode, fromIso).value] else []
  }

  /**
   * `main`: processes the `.json` files and keeps every non-`None` result. The thread
   * pool's completion order is taken to be the submission order.
   */
  method BuildIndex(files: seq<LogFile>, encode: string -> Option<seq<real>>, fromIso: string -> Option<DateTime>)
    returns (results: seq<Embedded>)
    requires EmbeddableFiles(files)
    ensures results == Index(files, encode, fromIso)
  {
    results := [];
    for i := 0 to |files|
      invariant results == Index(files[..i], encode, fromIso)
    {
      assert files[..i + 1][..i] == files[..i];
      var f := files[i];
      if Text.EndsWith(f.name, ".json") {
        var res := ProcessFile(f, encode, fromIso);
        if res.Some? {
          results := results + [res.value];
        }
      }
    }
    assert files[..|files|] == files;
  }

  /** When every `.json` file reads and encodes, the index has exactly one line per `.json` file. */
  lemma {:induction false} IndexComplete(files: seq<LogFile>, encode: string -> Option<seq<real>>,
                                         fromIso: string -> Option<DateTime>)
    requires EmbeddableFiles(files)
    requires forall k :: 0 <= k < |files| && Text.EndsWith(files[k].name, ".json") ==>
               ProcessFile(files[k], encode, fromIso).Some?
    ensures |Index(files, encode, fromIso)| == |JsonNames(files)|
  {
    if files != [] {
      var init := files[..|files| - 1];
      IndexComplete(init, encode, fromIso);
    }
  }

  /** The names of the listed `.json` files, in order. */
  function JsonNames(files: seq<LogFile>): seq<string>
  {
    if files == [] then []
    else
      var f := files[|files| - 1];
      JsonNames(files[..|files| - 1]) + if Text.EndsWith(f.name, ".json") then [f.name] else []
  }
}
