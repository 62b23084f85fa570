/**
 * Rule-based retrieval over the loaded log map: lookup by date, fuzzy keyword search
 * over a log's text, a mood threshold filter and a fuzzy tag search. Each search walks
 * the map in its iteration order and appends the matching `(date, log)` pairs.
 * The similarity ratio of `difflib.SequenceMatcher` and `float()` of a string are
 * parameters.
 */
module Retrieve {
  import opened Wrappers
  import opened Json
  import Text
  import Dicts
  import Seqs

  /** The log map as `load_logs` returns it, in iteration order. */
  type Logs = seq<(string, Json)>

  const THRESHOLD: real := 0.6

  /** `get_log_by_date`: the one pair stored under `date`, when its log is truthy. */
  function GetLogByDate(logs: Logs, date: string): (r: Logs)
    ensures |r| <= 1
    ensures r != [] <==> Dicts.HasKey(logs, date) && Truthy(Dicts.Get(logs, date).value)
    ensures r != [] ==> r[0].0 == date && r[0] in logs
  {
    match Dicts.Get(logs, date)
    case Some(data) => if Truthy(data) then [(date, data)] else []
    case None => []
  }

  /**
   * `_fuzzy_contains`: case-insensitive substring, else the similarity ratio of the
   * lowered strings reaching 0.6.
   */
  function FuzzyContains(needle: string, haystack: string, ratio: (string, string) -> real): (r: bool)
    ensures Text.Contains(Text.Lower(haystack), Text.Lower(needle)) ==> r
    ensures r && !Text.Contains(Text.Lower(haystack), Text.Lower(needle))
      ==> ratio(Text.Lower(needle), Text.Lower(haystack)) >= THRESHOLD
    ensures ratio(Text.Lower(needle), Text.Lower(haystack)) >= THRESHOLD ==> r
  {
    var h, n := Text.Lower(haystack), Text.Lower(needle);
    Text.Contains(h, n) || ratio(n, h) >= THRESHOLD
  }

  /** The strings a search adds for `d.get(key, [])`. */
  function Items(d: Json, key: string): seq<string>
    requires d.JObj? && JoinableOrAbsent(d, key)
  {
    IterStrings(GetOr(d, key, EMPTY_ARR)).value
  }

  /**
   * What `search_logs_by_keyword` needs of a log to go on: a dict with a string summary,
   * a dict of insights, and wins, losses, ideas and tags that extend the parts with
   * strings only (otherwise `.get`, `extend` or `join` raises).
   */
  predicate Searchable(log: Json)
  {
    && log.JObj? && GetOr(log, "summary", JStr("")).JStr?
    && ObjOrAbsent(log, "insights")
    && var insights := GetOr(log, "insights", EMPTY_OBJ);
       JoinableOrAbsent(insights, "wins") && JoinableOrAbsent(insights, "losses")
       && JoinableOrAbsent(insights, "ideas") && JoinableOrAbsent(log, "tags")
  }

  /** A string the keyword search looks at: the summary, an insight of the three kinds, or a tag. */
  predicate Searched(log: Json, s: string)
    requires Searchable(log)
  {
    var insights := GetOr(log, "insights", EMPTY_OBJ);
    || s == GetOr(log, "summary", JStr("")).s
    || s in Items(insights, "wins") || s in Items(insights, "losses") || s in Items(insights, "ideas")
    || s in Items(log, "tags")
  }

  /** The searched parts: summary, wins, losses, ideas, tags. */
  function KeywordParts(log: Json): (parts: seq<string>)
    requires Searchable(log)
    ensures |parts| >= 1 && parts[0] == GetOr(log, "summary", JStr("")).s
    ensures forall s :: s in parts <==> Searched(log, s)
  {
    var insights := GetOr(log, "insights", EMPTY_OBJ);
    [GetOr(log, "summary", JStr("")).s] + Items(insights, "wins") + Items(insights, "losses")
      + Items(insights, "ideas") + Items(log, "tags")
  }

  /** Whether the keyword search keeps this entry. */
  predicate KeywordMatch(keyword: string, ratio: (string, string) -> real, entry: (string, Json))
  {
    Searchable(entry.1) && FuzzyContains(keyword, Text.Join(" ", KeywordParts(entry.1)), ratio)
  }

  /** The entries the keyword search returns, in map order. */
  function KeywordResults(logs: Logs, keyword: string, ratio: (string, string) -> real): Logs
  {
    Seqs.Filter(logs, e => KeywordMatch(keyword, ratio, e))
  }

  predicate AllSearchable(logs: Logs)
  {
    forall k :: 0 <= k < |logs| ==> Searchable(logs[k].1)
  }

  /** The text of one log, built part by part as the loop body does. */
  method KeywordText(log: Json) returns (text: string)
    requires Searchable(log)
    ensures text == Text.Join(" ", KeywordParts(log))
  {
    var parts := [GetOr(log, "summary", JStr("")).s];
    var insights := GetOr(log, "insights", EMPTY_OBJ);
    parts := parts + Items(insights, "wins");
    parts := parts + Items(insights, "losses");
    parts := parts + Items(insights, "ideas");
    parts := parts + Items(log, "tags");
    text := Text.Join(" ", parts);
  }

  /** `search_logs_by_keyword`: the entries whose text fuzzily contains the keyword, in map order. */
  method SearchLogsByKeyword(logs: Logs, keyword: string, ratio: (string, string) -> real)
    returns (results: Logs)
    requires AllSearchable(logs)
    ensures results == KeywordResults(logs, keyword, ratio)
  {
    results := [];
    for i := 0 to |logs|
      invariant results == KeywordResults(logs[..i], keyword, ratio)
    {
      assert logs[..i + 1][..i] == logs[..i];
      var text := KeywordText(logs[i].1);
      if FuzzyContains(keyword, text, ratio) {
        results := results + [logs[i]];
      }
    }
    assert logs[..|logs|] == logs;
  }

  /** A log whose summary holds the keyword (ignoring ASCII case) is always found. */
  lemma SummaryHitFound(logs: Logs, keyword: string, ratio: (string, string) -> real, k: nat)
    requires AllSearchable(logs) && k < |logs|
    requires Text.Contains(Text.Lower(GetOr(logs[k].1, "summary", JStr("")).s), Text.Lower(keyword))
    ensures logs[k] in KeywordResults(logs, keyword, ratio)
  {
    var parts := KeywordParts(logs[k].1);
    var text := Text.Join(" ", parts);
    Text.JoinStartsWith(" ", parts);
    Text.LowerStartsWith(text, parts[0]);
    Text.ContainsPrefix(Text.Lower(text), Text.Lower(parts[0]), Text.Lower(keyword));
    Seqs.FilterKeeps(logs, e => KeywordMatch(keyword, ratio, e), logs[k]);
  }

  /**
   * A log with the keyword (ignoring ASCII case) in its summary, in any of its wins, losses
   * or ideas, or in any of its tags is always found.
   */
  lemma PartHitFound(logs: Logs, keyword: string, ratio: (string, string) -> real, k: nat, s: string)
    requires AllSearchable(logs) && k < |logs|
    requires Searched(logs[k].1, s) && Text.Contains(Text.Lower(s), Text.Lower(keyword))
    ensures logs[k] in KeywordResults(logs, keyword, ratio)
  {
    var parts := KeywordParts(logs[k].1);
    var j :| 0 <= j < |parts| && parts[j] == s;
    Text.JoinContainsLower(" ", parts, j, Text.Lower(keyword));
    Seqs.FilterKeeps(logs, e => KeywordMatch(keyword, ratio, e), logs[k]);
  }

  /** Python's `float(v)`; `None` stands for the `TypeError` or `ValueError` it raises. */
  function AsFloat(v: Json, parseFloat: string -> Option<real>): (r: Option<real>)
    ensures v.JInt? ==> r == Some(v.i as real)
    ensures v.JNull? || v.JArr? || v.JObj? ==> r.None?
  {
    match v
    case JInt(i) => Some(i as real)
    case JFloat(x, _) => Some(x)
    case JBool(b) => Some(if b then 1.0 else 0.0)
    case JStr(s) => parseFloat(s)
    case _ => None
  }

  /** `log.get("status", {}).get(...)` needs a dict log whose status is a dict. */
  predicate MoodReadable(log: Json)
  {
    log.JObj? && ObjOrAbsent(log, "status")
  }

  /** The mood as a float: `moodLevel` of the status, 0 when missing. */
  function Mood(log: Json, parseFloat: string -> Option<real>): Option<real>
    requires MoodReadable(log)
  {
    AsFloat(GetOr(GetOr(log, "status", EMPTY_OBJ), "moodLevel", JInt(0)), parseFloat)
  }

  /** Whether the mood filter keeps this entry: a mood that converts and is strictly below. */
  predicate MoodBelow(threshold: real, parseFloat: string -> Option<real>, entry: (string, Json))
  {
    MoodReadable(entry.1) && Mood(entry.1, parseFloat).Some? && Mood(entry.1, parseFloat).value < threshold
  }

  /** The entries the mood filter returns, in map order. */
  function MoodResults(logs: Logs, threshold: real, parseFloat: string -> Option<real>): Logs
  {
    Seqs.Filter(logs, e => MoodBelow(threshold, parseFloat, e))
  }

  predicate AllMoodReadable(logs: Logs)
  {
    forall k :: 0 <= k < |logs| ==> MoodReadable(logs[k].1)
  }

  /** `filter_logs_by_mood_below`: entries with a mood strictly below the threshold, in map order. */
  method FilterLogsByMoodBelow(logs: Logs, threshold: real, parseFloat: string -> Option<real>)
    returns (results: Logs)
    requires AllMoodReadable(logs)
    ensures results == MoodResults(logs, threshold, parseFloat)
  {
    results := [];
    for i := 0 to |logs|
      invariant results == MoodResults(logs[..i], threshold, parseFloat)
    {
      assert logs[..i + 1][..i] == logs[..i];
      var mood := Mood(logs[i].1, parseFloat);
      if mood.None? {
        continue;
      }
      if mood.value < threshold {
        results := results + [logs[i]];
      }
    }
    assert logs[..|logs|] == logs;
  }

  /** A log without `moodLevel` counts as mood 0. */
  lemma MissingMoodIsZero(threshold: real, parseFloat: string -> Option<real>, entry: (string, Json))
    requires MoodReadable(entry.1)
    requires !Has(GetOr(entry.1, "status", EMPTY_OBJ), "moodLevel")
    ensures MoodBelow(threshold, parseFloat, entry) <==> 0.0 < threshold
  {
  }

  /** A mood that does not convert (null, a list, a dict, an unparsable string) is skipped. */
  lemma UnconvertibleMoodSkipped(threshold: real, parseFloat: string -> Option<real>, entry: (string, Json))
    requires MoodReadable(entry.1)
    requires Mood(entry.1, parseFloat).None?
    ensures !MoodBelow(threshold, parseFloat, entry)
  {
  }

  /** What iterating `log.get("tags", [])` yields: list items, a string's characters, a dict's keys. */
  function TagItems(v: Json): Option<seq<Json>>
  {
    match v
    case JArr(items) => Some(items)
    case JStr(s) => Some(seq(|s|, k requires 0 <= k < |s| => JStr([s[k]])))
    case JObj(fields) => Some(seq(|fields|, k requires 0 <= k < |fields| => JStr(fields[k].0)))
    case _ => None
  }

  /**
   * The tag loop runs without raising: every tag it reaches is a string
   * (`haystack.lower()`); the scan stops at the first match.
   */
  predicate ScanOk(tag: string, items: seq<Json>, ratio: (string, string) -> real)
  {
    items == [] || (items[0].JStr? && (FuzzyContains(tag, items[0].s, ratio) || ScanOk(tag, items[1..], ratio)))
  }

  /** Some tag matches. */
  predicate AnyTagMatches(tag: string, items: seq<Json>, ratio: (string, string) -> real)
    requires ScanOk(tag, items, ratio)
  {
    items != [] && (FuzzyContains(tag, items[0].s, ratio) || AnyTagMatches(tag, items[1..], ratio))
  }

  predicate TagScannable(tag: string, ratio: (string, string) -> real, log: Json)
  {
    log.JObj? && TagItems(GetOr(log, "tags", EMPTY_ARR)).Some?
    && ScanOk(tag, TagItems(GetOr(log, "tags", EMPTY_ARR)).value, ratio)
  }

  /** Whether the tag search keeps this entry. */
  predicate TagMatch(tag: string, ratio: (string, string) -> real, entry: (string, Json))
  {
    TagScannable(tag, ratio, entry.1) && AnyTagMatches(tag, TagItems(GetOr(entry.1, "tags", EMPTY_ARR)).value, ratio)
  }

  /** The entries the tag search returns, in map order. */
  function TagResults(logs: Logs, tag: string, ratio: (string, string) -> real): Logs
  {
    Seqs.Filter(logs, e => TagMatch(tag, ratio, e))
  }

  /** The inner loop: scans the tags and stops at the first that matches. */
  method HasMatchingTag(tag: string, items: seq<Json>, ratio: (string, string) -> real) returns (found: bool)
    requires ScanOk(tag, items, ratio)
    ensures found == AnyTagMatches(tag, items, ratio)
  {
    var j := 0;
    while j < |items|
      invariant j <= |items| && ScanOk(tag, items[j..], ratio)
      invariant AnyTagMatches(tag, items, ratio) == AnyTagMatches(tag, items[j..], ratio)
    {
      assert items[j..][1..] == items[j + 1..];
      if FuzzyContains(tag, items[j].s, ratio) {
        return true;
      }
      j := j + 1;
    }
    return false;
  }

  /** `search_logs_by_tag`: entries with a fuzzily matching tag, each added once, in map order. */
  method SearchLogsByTag(logs: Logs, tag: string, ratio: (string, string) -> real) returns (results: Logs)
    requires forall k :: 0 <= k < |logs| ==> TagScannable(tag, ratio, logs[k].1)
    ensures results == TagResults(logs, tag, ratio)
  {
    results := [];
    for i := 0 to |logs|
      invariant results == TagResults(logs[..i], tag, ratio)
    {
      assert logs[..i + 1][..i] == logs[..i];
      var items := TagItems(GetOr(logs[i].1, "tags", EMPTY_ARR)).value;
      var found := HasMatchingTag(tag, items, ratio);
      if found {
        results := results + [logs[i]];
      }
    }
    assert logs[..|logs|] == logs;
  }

  /** A tag holding the searched tag (ignoring ASCII case) makes the log match. */
  lemma {:induction false} TagSubstringMatches(tag: string, items: seq<Json>, ratio: (string, string) -> real, k: nat)
    requires ScanOk(tag, items, ratio) && k < |items|
    requires forall j :: 0 <= j <= k ==> items[j].JStr?
    requires Text.Contains(Text.Lower(items[k].s), Text.Lower(tag))
    ensures AnyTagMatches(tag, items, ratio)
  {
    if k > 0 && !FuzzyContains(tag, items[0].s, ratio) {
      TagSubstringMatches(tag, items[1..], ratio, k - 1);
    }
  }

  /**
   * A search result is exactly the matching entries, drawn from the map in its order,
   * and no date (so no log) appears twice.
   */
  lemma {:induction false} FilterUniqueKeys(logs: Logs, p: ((string, Json)) -> bool)
    requires Dicts.UniqueKeys(logs)
    ensures forall e :: e in Seqs.Filter(logs, p) <==> e in logs && p(e)
    ensures Seqs.IsSubsequence(Seqs.Filter(logs, p), logs)
    ensures Dicts.UniqueKeys(Seqs.Filter(logs, p))
  {
    Seqs.FilterMembers(logs, p);
    Seqs.FilterIsSubsequence(logs, p);
    if logs != [] {
      var init, x := logs[..|logs| - 1], logs[|logs| - 1];
      FilterUniqueKeys(init, p);
      var r := Seqs.Filter(init, p);
      forall e | e in r
        ensures e.0 != x.0
      {
        var i :| 0 <= i < |init| && init[i] == e;
        assert logs[i] == e;
      }
    }
  }
}
