/**
 * The reflection prompt: the user's question, then one nine-line block per matching log
 * (date, summary, mood, energy, tags and the three insight lists), or a fixed
 * "no matching logs" sentence.
 */
module FormatPrompt {
  import opened Json
  import Text

  /**
   * `format_single_log` calls `.get` on the log, its `status` and its `insights`, and
   * `', '.join` on tags and the insight lists: those must be dicts and iterables of strings.
   */
  predicate Formattable(log: Json)
  {
    && log.JObj? && ObjOrAbsent(log, "status") && ObjOrAbsent(log, "insights")
    && JoinableOrAbsent(log, "tags")
    && var insights := GetOr(log, "insights", EMPTY_OBJ);
       JoinableOrAbsent(insights, "wins") && JoinableOrAbsent(insights, "losses")
       && JoinableOrAbsent(insights, "ideas")
  }

  /** `', '.join(d.get(key, []))`. */
  function JoinField(d: Json, key: string): string
    requires d.JObj? && JoinableOrAbsent(d, key)
  {
    JoinStrs(", ", GetOr(d, key, EMPTY_ARR))
  }

  /** The nine lines of one log's block, in order. */
  function LogLines(date: string, log: Json): (lines: seq<string>)
    requires Formattable(log)
    ensures |lines| == 9
  {
    var status := GetOr(log, "status", EMPTY_OBJ);
    var insights := GetOr(log, "insights", EMPTY_OBJ);
    ["Date: " + date,
     "Summary: " + PyStr(GetOr(log, "summary", JStr(""))),
     "Mood: " + PyStr(GetOr(status, "moodLevel", JStr(""))),
     "Energy: " + PyStr(GetOr(status, "energyLevel", JStr(""))),
     "Tags: " + JoinField(log, "tags"),
     "Insights:",
     "- Wins: " + JoinField(insights, "wins"),
     "- Losses: " + JoinField(insights, "losses"),
     "- Ideas: " + JoinField(insights, "ideas")]
  }

  /** `format_single_log`: every line followed by a line break. */
  function FormatSingleLog(date: string, log: Json): string
    requires Formattable(log)
  {
    Text.Join("\n", LogLines(date, log)) + "\n"
  }

  predicate NoLineBreaks(lines: seq<string>)
  {
    forall k :: 0 <= k < |lines| ==> '\n' !in lines[k]
  }

  /** A block reads back as its nine lines, each terminated by a line break. */
  lemma SingleLogLines(date: string, log: Json)
    requires Formattable(log) && NoLineBreaks(LogLines(date, log))
    ensures Text.Split(FormatSingleLog(date, log), '\n') == LogLines(date, log) + [""]
  {
    Text.SplitJoinTerminated(LogLines(date, log), '\n');
  }

  predicate AllFormattable(logs: seq<(string, Json)>)
  {
    forall k :: 0 <= k < |logs| ==> Formattable(logs[k].1)
  }

  /** The blocks of the matching logs, in input order. */
  function Blocks(logs: seq<(string, Json)>): (blocks: seq<string>)
    requires AllFormattable(logs)
    ensures |blocks| == |logs|
  {
    seq(|logs|, k requires 0 <= k < |logs| => FormatSingleLog(logs[k].0, logs[k].1))
  }

  const NO_LOGS: string := "No matching logs were found."
  const LOGS_HEADER: string := "Here are the matching logs:\n"

  /**
   * `format_prompt`: the question, a blank line, then either the fixed no-logs sentence or
   * the header and the blocks separated by line breaks.
   */
  function Prompt(question: string, logs: seq<(string, Json)>): (r: string)
    requires AllFormattable(logs)
    ensures Text.StartsWith(r, "User asked: " + question + "\n\n")
  {
    var opening := "User asked: " + question + "\n\n";
    if logs == [] then opening + NO_LOGS
    else opening + LOGS_HEADER + Text.Join("\n", Blocks(logs))
  }

  /** With no logs, the whole prompt is the question line and the fixed sentence. */
  lemma NoLogsPrompt(question: string)
    ensures Prompt(question, []) == "User asked: " + question + "\n\n" + "No matching logs were found."
  {
  }

  /** The line groups of the matching logs' blocks, in input order. */
  function AllLogLines(logs: seq<(string, Json)>): (groups: seq<seq<string>>)
    requires AllFormattable(logs)
    ensures |groups| == |logs|
  {
    seq(|logs|, k requires 0 <= k < |logs| => LogLines(logs[k].0, logs[k].1))
  }

  function Head(question: string): seq<string>
  {
    ["User asked: " + question, "", "Here are the matching logs:"]
  }

  /**
   * With logs, the prompt reads back line by line as the question, a blank line, the
   * header and then each log's nine lines followed by an empty line, in input order.
   */
  lemma PromptLines(question: string, logs: seq<(string, Json)>)
    requires logs != [] && AllFormattable(logs) && '\n' !in question
    requires forall k :: 0 <= k < |logs| ==> NoLineBreaks(LogLines(logs[k].0, logs[k].1))
    ensures Text.Split(Prompt(question, logs), '\n') == Head(question) + Text.Flatten(Text.Terminated(AllLogLines(logs)))
  {
    PromptIsJoin(question, logs);
    PromptLinesFree(question, logs);
    Text.SplitJoin(Head(question) + Text.Flatten(Text.Terminated(AllLogLines(logs))), '\n');
  }

  lemma PromptLinesFree(question: string, logs: seq<(string, Json)>)
    requires logs != [] && AllFormattable(logs) && '\n' !in question
    requires forall k :: 0 <= k < |logs| ==> NoLineBreaks(LogLines(logs[k].0, logs[k].1))
    ensures NoLineBreaks(Head(question) + Text.Flatten(Text.Terminated(AllLogLines(logs))))
  {
    var groups := AllLogLines(logs);
    var lines := Text.Flatten(Text.Terminated(groups));
    GroupsFree(logs);
    TerminatedFree('\n', groups);
    forall k | 0 <= k < |lines|
      ensures '\n' !in lines[k]
    {
      Text.FlattenFree('\n', Text.Terminated(groups), k);
    }
    HeadFree(question, lines);
  }

  lemma GroupsFree(logs: seq<(string, Json)>)
    requires AllFormattable(logs)
    requires forall k :: 0 <= k < |logs| ==> NoLineBreaks(LogLines(logs[k].0, logs[k].1))
    ensures forall i, j :: 0 <= i < |AllLogLines(logs)| && 0 <= j < |AllLogLines(logs)[i]| ==> '\n' !in AllLogLines(logs)[i][j]
  {
    var groups := AllLogLines(logs);
    forall i, j | 0 <= i < |groups| && 0 <= j < |groups[i]|
      ensures '\n' !in groups[i][j]
    {
      assert NoLineBreaks(LogLines(logs[i].0, logs[i].1));
    }
  }

  lemma HeadFree(question: string, lines: seq<string>)
    requires '\n' !in question && NoLineBreaks(lines)
    ensures NoLineBreaks(Head(question) + lines)
  {
    var head := Head(question);
    assert NoLineBreaks(head);
  }

  lemma TerminatedFree(c: char, groups: seq<seq<string>>)
    requires forall i, j :: 0 <= i < |groups| && 0 <= j < |groups[i]| ==> c !in groups[i][j]
    ensures forall i, j :: 0 <= i < |groups| && 0 <= j < |Text.Terminated(groups)[i]| ==> c !in Text.Terminated(groups)[i][j]
  {
  }

  /** The prompt with logs is the head lines and every block's lines, joined by line breaks. */
  lemma PromptIsJoin(question: string, logs: seq<(string, Json)>)
    requires logs != [] && AllFormattable(logs)
    ensures Prompt(question, logs) == Text.Join("\n", Head(question) + Text.Flatten(Text.Terminated(AllLogLines(logs))))
  {
    var lines := Text.Flatten(Text.Terminated(AllLogLines(logs)));
    HeadJoin(question);
    BlocksJoin(logs);
    Text.JoinAppend("\n", Head(question), lines);
  }

  lemma HeadJoin(question: string)
    ensures Text.Join("\n", Head(question)) + "\n" == "User asked: " + question + "\n\n" + LOGS_HEADER
  {
    var head := Head(question);
    assert head[1..][1..] == ["Here are the matching logs:"];
  }

  lemma BlocksJoin(logs: seq<(string, Json)>)
    requires logs != [] && AllFormattable(logs)
    ensures var lines := Text.Flatten(Text.Terminated(AllLogLines(logs)));
      |lines| >= 1 && Text.Join("\n", Blocks(logs)) == Text.Join("\n", lines)
  {
    var groups := AllLogLines(logs);
    var lines := Text.Flatten(Text.Terminated(groups));
    assert lines == Text.Terminated(groups)[0] + Text.Flatten(Text.Terminated(groups)[1..]);
    Text.JoinTerminated('\n', groups, Blocks(logs));
  }
}
