/**
 * The chat-format converter: every normalised log becomes one four-message exchange
 * (the log's numbers, its summary, a fixed follow-up request and the bracketed detail
 * lists), one JSON line per log file, files taken in sorted path order.
 */
module ConvertToChat {
  import opened Wrappers
  import opened Json
  import Text
  import Dicts
  import Sorting

  /** `_join_list(items)`: the `', '`-join of `str` of each element of a list, `''` for anything else. */
  function JoinList(items: Json): (r: string)
    ensures !items.JArr? ==> r == ""
    ensures items.JArr? && |items.items| == 1 ==> r == PyStr(items.items[0])
  {
    if items.JArr? then Text.Join(", ", Strs(items.items)) else ""
  }

  /** A list of plain strings joins to the strings themselves, separated by `, `. */
  lemma JoinListOfStrings(xs: seq<string>)
    ensures JoinList(JArr(seq(|xs|, k requires 0 <= k < |xs| => JStr(xs[k])))) == Text.Join(", ", xs)
  {
    var items := seq(|xs|, k requires 0 <= k < |xs| => JStr(xs[k]));
    assert Strs(items) == xs;
  }

  /** `_read_json`: the decoded file, or `{}` when it cannot be read or decoded. */
  function ReadJson(content: Option<Json>): (data: Json)
    ensures content.Some? ==> data == content.value
    ensures content.None? ==> data == EMPTY_OBJ
  {
    if content.Some? then content.value else EMPTY_OBJ
  }

  /** `convert_file` calls `.get` on the data, on `status` and on `insights`: all must be dicts. */
  predicate Convertible(data: Json)
  {
    data.JObj? && ObjOrAbsent(data, "status") && ObjOrAbsent(data, "insights")
  }

  /** `status.get(key, '')` as the f-string shows it. */
  function StatusText(status: Json, key: string): string
    requires status.JObj?
  {
    PyStr(GetOr(status, key, JStr("")))
  }

  const PROMPT_HEADER: string := "Here is today's mental log data:"

  /**
   * The first user message: a header line, then Mood, Energy, Sleep Duration (in hrs),
   * Sleep Quality and Stability Score, one per line.
   */
  function UserPrompt(status: Json): string
    requires status.JObj?
  {
    Text.Join("\n", PromptLines(status))
  }

  function PromptLines(status: Json): seq<string>
    requires status.JObj?
  {
    [PROMPT_HEADER,
     "Mood: " + StatusText(status, "moodLevel"),
     "Energy: " + StatusText(status, "energyLevel"),
     "Sleep Duration: " + StatusText(status, "sleepDuration") + " hrs",
     "Sleep Quality: " + StatusText(status, "sleepQuality"),
     "Stability Score: " + StatusText(status, "stabilityScore")]
  }

  predicate NoLineBreaks(lines: seq<string>)
  {
    forall k :: 0 <= k < |lines| ==> '\n' !in lines[k]
  }

  /** When no value holds a line break, the prompt reads back as exactly its six lines. */
  lemma UserPromptLines(status: Json)
    requires status.JObj? && NoLineBreaks(PromptLines(status))
    ensures Text.Split(UserPrompt(status), '\n') == PromptLines(status)
  {
    Text.SplitJoin(PromptLines(status), '\n');
  }

  const DETAIL_LABELS: seq<string> := ["Wins", "Losses", "Ideas", "Goals", "Tags", "Symptoms", "Triggers"]

  /** The seven `_join_list` values, in `DETAIL_LABELS` order. */
  function DetailValues(data: Json): (vs: seq<string>)
    requires Convertible(data)
    ensures |vs| == |DETAIL_LABELS|
  {
    var insights := GetOr(data, "insights", EMPTY_OBJ);
    [JoinList(GetOr(insights, "wins", EMPTY_ARR)),
     JoinList(GetOr(insights, "losses", EMPTY_ARR)),
     JoinList(GetOr(insights, "ideas", EMPTY_ARR)),
     JoinList(GetOr(data, "goals", EMPTY_ARR)),
     JoinList(GetOr(data, "tags", EMPTY_ARR)),
     JoinList(GetOr(data, "symptomChecklist", EMPTY_ARR)),
     JoinList(GetOr(data, "triggerEvents", EMPTY_ARR))]
  }

  /** Line `k` of the detailed response: the `k`-th label, then its list in brackets. */
  function DetailLine(data: Json, k: nat): string
    requires Convertible(data) && k < |DETAIL_LABELS|
  {
    DETAIL_LABELS[k] + ": [" + DetailValues(data)[k] + "]"
  }

  /** The last assistant message: `Wins: [..]` through `Triggers: [..]`, one per line. */
  function DetailedResponse(data: Json): string
    requires Convertible(data)
  {
    Text.Join("\n", seq(|DETAIL_LABELS|, k requires 0 <= k < |DETAIL_LABELS| => DetailLine(data, k)))
  }

  /** When no list holds a line break, the response reads back as its seven bracketed lines. */
  lemma DetailedResponseLines(data: Json)
    requires Convertible(data) && NoLineBreaks(DetailValues(data))
    ensures var lines := Text.Split(DetailedResponse(data), '\n');
      |lines| == 7 && forall k :: 0 <= k < 7 ==> lines[k] == DetailLine(data, k)
  {
    var ls := seq(|DETAIL_LABELS|, k requires 0 <= k < |DETAIL_LABELS| => DetailLine(data, k));
    forall k | 0 <= k < 7
      ensures '\n' !in ls[k]
    {
      LineHasNoBreak(DETAIL_LABELS[k], DetailValues(data)[k]);
    }
    Text.SplitJoin(ls, '\n');
  }

  lemma LineHasNoBreak(name: string, v: string)
    requires name in DETAIL_LABELS && '\n' !in v
    ensures '\n' !in name + ": [" + v + "]"
  {
  }

  const EXTRACT_REQUEST: string := "Now extract insights, goals, and tags."
  const ROLES: seq<string> := ["user", "assistant", "user", "assistant"]

  function Message(role: string, content: Json): Json
  {
    JObj([("role", JStr(role)), ("content", content)])
  }

  /** The messages of a converted record. */
  function Messages(record: Json): seq<Json>
  {
    if record.JObj? && |record.fields| == 1 && record.fields[0].1.JArr? then record.fields[0].1.items else []
  }

  function Content(message: Json): Json
  {
    if message.JObj? && |message.fields| == 2 then message.fields[1].1 else JNull
  }

  /**
   * `convert_file`: a record holding only `messages`: the log data prompt, the summary
   * (`''` when missing), the fixed request and the detailed response.
   */
  function ConvertFile(data: Json): (r: Json)
    requires Convertible(data)
    ensures r.JObj? && Dicts.Keys(r.fields) == ["messages"]
    ensures |Messages(r)| == 4
    ensures forall k :: 0 <= k < 4 ==> Messages(r)[k] == Message(ROLES[k], Content(Messages(r)[k]))
    ensures Content(Messages(r)[1]) == GetOr(data, "summary", JStr(""))
    ensures Content(Messages(r)[2]) == JStr(EXTRACT_REQUEST)
  {
    JObj([("messages", JArr([
      Message("user", JStr(UserPrompt(GetOr(data, "status", EMPTY_OBJ)))),
      Message("assistant", GetOr(data, "summary", JStr(""))),
      Message("user", JStr(EXTRACT_REQUEST)),
      Message("assistant", JStr(DetailedResponse(data)))]))])
  }

  /** An unreadable file still converts: every value in the prompt and the lists is empty. */
  lemma UnreadableFileConverts()
    ensures Convertible(ReadJson(None))
    ensures GetOr(ReadJson(None), "status", EMPTY_OBJ) == EMPTY_OBJ
    ensures PromptLines(EMPTY_OBJ) ==
      [PROMPT_HEADER, "Mood: ", "Energy: ", "Sleep Duration:  hrs", "Sleep Quality: ", "Stability Score: "]
    ensures DetailValues(ReadJson(None)) == ["", "", "", "", "", "", ""]
    ensures Content(Messages(ConvertFile(ReadJson(None)))[1]) == JStr("")
  {
    var data := ReadJson(None);
    assert data == EMPTY_OBJ;
    assert GetOr(data, "insights", EMPTY_OBJ) == EMPTY_OBJ;
    forall key | true
      ensures StatusText(EMPTY_OBJ, key) == ""
    {
      assert GetOr(EMPTY_OBJ, key, JStr("")) == JStr("");
    }
    var e := "";
    assert "Mood: " + e == "Mood: " && "Energy: " + e == "Energy: " && "Sleep Quality: " + e == "Sleep Quality: ";
    assert "Stability Score: " + e == "Stability Score: " && "Sleep Duration: " + e + " hrs" == "Sleep Duration:  hrs";
  }

  /** Python's `sorted` on path strings. */
  function SortedPaths(paths: seq<string>): (r: seq<string>)
    ensures multiset(r) == multiset(paths)
  {
    Sorting.Sort(paths, Text.StrLess)
  }

  lemma StrLessIsWeakOrder()
    ensures Sorting.StrictWeakOrder(Text.StrLess)
  {
    forall a: string, b: string | Text.StrLess(a, b)
      ensures !Text.StrLess(b, a)
    {
      Text.StrLessAsymmetric(a, b);
    }
    forall a: string, b: string, c: string | Text.StrLess(a, b) && Text.StrLess(b, c)
      ensures Text.StrLess(a, c)
    {
      Text.StrLessTransitive(a, b, c);
    }
    forall a: string, b: string, c: string | !Text.StrLess(a, b) && !Text.StrLess(b, c)
      ensures !Text.StrLess(a, c)
    {
      if Text.StrLess(a, c) {
        if a != b { Text.StrLessTotal(a, b); }
        if b != c { Text.StrLessTotal(b, c); }
        if a != b && b != c { Text.StrLessTransitive(c, b, a); }
        Text.StrLessAsymmetric(a, c);
      }
    }
  }

  /** The glob's paths, once sorted, are in strictly increasing order. */
  lemma SortedPathsAscending(paths: seq<string>)
    requires forall i, j :: 0 <= i < j < |paths| ==> paths[i] != paths[j]
    ensures var r := SortedPaths(paths);
      forall i, j :: 0 <= i < j < |r| ==> Text.StrLess(r[i], r[j])
  {
    StrLessIsWeakOrder();
    Sorting.SortSorted(paths, Text.StrLess);
    var r := SortedPaths(paths);
    forall i, j | 0 <= i < j < |r|
      ensures Text.StrLess(r[i], r[j])
    {
      assert r[i] in multiset(paths) && r[j] in multiset(paths);
      DistinctMultiset(paths, r, i, j);
      Text.StrLessTotal(r[i], r[j]);
    }
  }

  /** A permutation of a duplicate-free sequence is duplicate-free. */
  lemma DistinctMultiset(s: seq<string>, r: seq<string>, i: nat, j: nat)
    requires forall a, b :: 0 <= a < b < |s| ==> s[a] != s[b]
    requires multiset(r) == multiset(s) && i < j < |r|
    ensures r[i] != r[j]
  {
    if r[i] == r[j] {
      assert multiset(r)[r[i]] >= 2 by {
        assert r == r[..i] + [r[i]] + r[i + 1..j] + [r[j]] + r[j + 1..];
      }
      var x := r[i];
      assert multiset(s)[x] >= 2;
      SingleOccurrence(s, x);
      assert false;
    }
  }

  lemma {:induction false} SingleOccurrence(s: seq<string>, x: string)
    requires forall a, b :: 0 <= a < b < |s| ==> s[a] != s[b]
    ensures multiset(s)[x] <= 1
  {
    if s != [] {
      var init := s[..|s| - 1];
      assert s == init + [s[|s| - 1]];
      SingleOccurrence(init, x);
      if s[|s| - 1] == x {
        assert x !in init;
      }
    }
  }

  /** The files' readable content, `None` for a file that cannot be read or decoded. */
  predicate ConvertibleFiles(paths: seq<string>, read: string -> Option<Json>)
  {
    forall p :: p in paths ==> Convertible(ReadJson(read(p)))
  }

  /** `main`: one converted record per path, in sorted path order. */
  function ConvertAll(paths: seq<string>, read: string -> Option<Json>): (lines: seq<Json>)
    requires ConvertibleFiles(paths, read)
    ensures |lines| == |paths|
  {
    var sorted := SortedPaths(paths);
    SortedPathsConvertible(paths, read);
    ConvertEach(sorted, read)
  }

  /** The records of `paths`, line for line. */
  function ConvertEach(paths: seq<string>, read: string -> Option<Json>): (lines: seq<Json>)
    requires ConvertibleFiles(paths, read)
    ensures |lines| == |paths|
  {
    seq(|paths|, k requires 0 <= k < |paths| => ConvertFile(ReadJson(read(paths[k]))))
  }

  lemma SortedPathsConvertible(paths: seq<string>, read: string -> Option<Json>)
    requires ConvertibleFiles(paths, read)
    ensures ConvertibleFiles(SortedPaths(paths), read)
  {
    forall p | p in SortedPaths(paths)
      ensures Convertible(ReadJson(read(p)))
    {
      assert p in multiset(SortedPaths(paths));
    }
  }
}
