# Personal reflection retrieval scripts — a Dafny model

This project models the deterministic core of a set of scripts that help someone reflect on their daily logs. Each module follows one source file. The similarity model, the language models, the clock, the file system and the network are passed in as parameters.

- **Log normaliser** (`CleanDailyLogs`, from `processing/clean_daily_logs.py`).
  - Raw daily logs use camelCase or snake_case field names. Each becomes a record with the standard template's eight top-level fields.
  - The timestamp year is pinned to 2025.
  - Records are written under `D-M-YY` names. An in-place per-name counter adds a `_n` suffix to collisions.
  - The source's template has eight top-level keys, five of them inside `status` and three inside `insights`; the model follows the code.
- **Embedding index** (`GenerateEmbeddings`, from `processing/generate_embeddings_parallel.py`). Covers the `D-M-YY` identifier with its file-name fallback, the fixed-order embedding text and the collection of index lines.
- **Chat conversion** (`ConvertToChat`, from `processing/convert_to_chat.py`). Each log becomes a four-message exchange; files are taken in sorted order.
- **Top-k ranking** (`Ranking`, `Sorting`). This is `find_similar_logs` as copied into the LM Studio bridge, the context formatter and the web front end:
  - records without an embedding are skipped;
  - both vectors are cut to the shorter length;
  - Python's stable sort by descending score is applied;
  - the first `top_k` are kept.

  `RagQuery.FindSimilarLogs` is the untruncated copy. It is shown to agree with the same specification on vectors of equal length.
- **Prompt and context assemblers**. Each one's layout, placeholders and ordering:
  - `FormatPrompt`;
  - `RagContext` for the numbered context, with `used_logs`;
  - `RagFrontEnds` for the three front ends' `process_query`/`format_context`;
  - `RagQuery` for the OpenAI prompt;
  - `SemanticSearch` for `load_embeddings`, `pretty_print` and the top-five loop.
- **Rule-based retrieval and routing**:
  - `LoadLogs`: key derivation and overwrite;
  - `Retrieve`: date, keyword, mood and tag searches over the log map;
  - `RagReflect`: the date-detecting regular expressions and the routing priority of `handle_question`.
- **Sheet row cleaning**:
  - `GoogleSheets`: `clean_text`, the per-tab keep/drop rules, column-key normalisation, the " | "-joined embedding text and the tab order;
  - `SimpleSheets`: the CSV variant and the merge with the existing index.

The logs themselves are JSON values (`Json`). A Python dict is a sequence of key/value pairs in insertion order (`Dicts`). The file system is represented by functions from names to optional contents. A loop that builds a list or a string is a method. Its postcondition ties the result to a specification function, and lemmas state what the source promises about that function.

## Model

| member | source | states |
|---|---|---|
| CleanDailyLogs.ParseTimestamp | processing/clean_daily_logs.py:30-38 | the text is stripped and loses one trailing `Z` before parsing; a result is the parsed date and time with the year set to 2025 and every other field unchanged; a parsed date that cannot be pinned is 29 February |
| CleanDailyLogs.PinFailsOnlyOnLeapDay | processing/clean_daily_logs.py:36-37 | once the text parses, pinning fails exactly for 29 February of a year other than 2025 |
| CleanDailyLogs.Alias | processing/clean_daily_logs.py:44-48 | the camelCase value when truthy, else the snake_case value when present, else the default |
| CleanDailyLogs.ListOrEmpty | processing/clean_daily_logs.py:55-57 | the stored value when truthy, else `[]` |
| CleanDailyLogs.AliasList | processing/clean_daily_logs.py:101-102 | the camelCase value when truthy, else the snake_case value when truthy, else `[]` |
| CleanDailyLogs.StatusFields | processing/clean_daily_logs.py:41-49 | `_get_status` yields exactly the five status keys, in order, each resolved through its alias |
| CleanDailyLogs.StatusKeys | processing/clean_daily_logs.py:41-49 | the status keys are those of the template's `status` |
| CleanDailyLogs.InsightFields | processing/clean_daily_logs.py:52-58 | `_get_insights` yields exactly `wins`, `losses`, `ideas`, each the stored list when truthy, else `[]` |
| CleanDailyLogs.InsightKeys | processing/clean_daily_logs.py:52-58 | the insight keys are those of the template's `insights` |
| CleanDailyLogs.RenderReadsBack | processing/clean_daily_logs.py:95 | the rendered timestamp has fixed positions from which year, month, day, hour, minute and second read back unchanged; microseconds and offset are absent |
| CleanDailyLogs.RenderLength | processing/clean_daily_logs.py:95 | for a valid four-digit year the rendered timestamp has twenty characters and ends in `Z` |
| CleanDailyLogs.RecordHasTemplateShape | processing/clean_daily_logs.py:8-27 | a written record has exactly the template's eight top-level keys in order, a 20-character timestamp, `status` and `insights` as `_get_status` and `_get_insights` build them with the template's nested keys, and `goals`, `tags`, `triggerEvents` and `symptomChecklist` each either `[]` or a truthy value |
| CleanDailyLogs.RecordListFields | processing/clean_daily_logs.py:99-102 | no list field of a written record is falsy unless it is `[]`: each trailing `or []` replaces `None`, `""`, `0`, `false` and `{}` |
| CleanDailyLogs.TopKeys | processing/clean_daily_logs.py:94-102 | the record's top-level keys are the template's keys |
| CleanDailyLogs.Classify | processing/clean_daily_logs.py:64-98 | a non-`.json` name is ignored and `daily_now.json` is deleted whatever it holds; only other `.json` files are read; decoded content that is not a dict, or a parsed log whose `status` or `insights` is not a dict, stops the script; a kept file carries a valid date pinned to 2025 and its dict-shaped data |
| CleanDailyLogs.ParsedLogs | processing/clean_daily_logs.py:64-86 | every kept log has a valid date in 2025 and dict-shaped `status` and `insights` |
| CleanDailyLogs.Bases | processing/clean_daily_logs.py:87 | one `{day}-{month}-{year%100}` base per kept log, position by position |
| CleanDailyLogs.WrittenNames | processing/clean_daily_logs.py:87-93 | one output name per kept log |
| CleanDailyLogs.WrittenNameAt | processing/clean_daily_logs.py:87-93 | the `j`-th name is its base suffixed by how many earlier kept logs share that base |
| CleanDailyLogs.WritesOf | processing/clean_daily_logs.py:87-106 | one write per kept log, pairing its name with the cleaned record |
| CleanDailyLogs.CleanLogs | processing/clean_daily_logs.py:61-107 | the loop with its per-base counter writes exactly the specified names and records, in listing order, and deletes exactly the `daily_now.json` entries; it gets through the whole listing exactly when no file raises, and otherwise stops at the first file that does, with the writes and deletions of the files before it |
| CleanDailyLogs.RemoveStep | processing/clean_daily_logs.py:65-70 | a listed name is deleted exactly when it is `daily_now.json`, whatever the file holds, and the deletions keep listing order |
| CleanDailyLogs.NextName | processing/clean_daily_logs.py:88-93 | the name uses the base's count so far; that count goes up by one and no other count changes |
| CleanDailyLogs.CountsSnoc | processing/clean_daily_logs.py:88-93 | after each kept log, the counter holds for every base the number of kept logs with that base |
| CleanDailyLogs.SkipStep | processing/clean_daily_logs.py:65-86 | a skipped file leaves the writes and the counts unchanged |
| CleanDailyLogs.WriteStep | processing/clean_daily_logs.py:87-106 | a kept file adds exactly one write, named from its base and that base's count |
| CleanDailyLogs.BaseNameIsBase | processing/clean_daily_logs.py:87 | a base name is made of digits and dashes |
| CleanDailyLogs.OutputNameInjective | processing/clean_daily_logs.py:87-92 | different (base, count) pairs give different file names |
| CleanDailyLogs.OutputNameParts | processing/clean_daily_logs.py:89-92 | an output name is its base, then `.` for the first log of that base or `_` and the count plus one, then `.json` |
| CleanDailyLogs.WrittenNamesDistinct | processing/clean_daily_logs.py:87-93 | no two kept logs are written under the same name, so none overwrites another |
| CleanDailyLogs.DistinctPair | processing/clean_daily_logs.py:87-93 | two positions of a list of bases get different names |
| CleanDailyLogs.WrittenNamesEndIn25 | processing/clean_daily_logs.py:87 | every written name starts with its base, and every base ends in `-25` |
| CleanDailyLogs.BaseEndsIn25 | processing/clean_daily_logs.py:87 | a pinned date's base ends in `-25` |
| CleanDailyLogs.OutputNameExtendsBase | processing/clean_daily_logs.py:89-92 | an output name starts with its base |
| CleanDailyLogs.NewYearExample | processing/clean_daily_logs.py:30-38 | a log stamped `2024-01-01T08:00:00Z` is re-dated to 2025, rendered `2025-01-01T08:00:00Z`, and named `1-1-25.json`, then `1-1-25_2.json` |
| CleanDailyLogs.ExampleDropZ | processing/clean_daily_logs.py:32-34 | the trailing `Z` is dropped |
| CleanDailyLogs.DropZTrimmed | processing/clean_daily_logs.py:32-34 | a timestamp with no leading whitespace followed by `Z` comes back without its `Z` |
| CleanDailyLogs.ExampleNames | processing/clean_daily_logs.py:87-92 | the first and second names for base `1-1-25` |
| CleanDailyLogs.ExampleRender | processing/clean_daily_logs.py:95 | the rendering of 1 January 2025, 08:00:00 |
| ConvertToChat.JoinList | processing/convert_to_chat.py:18-21 | `''` for a non-list; a one-element list gives `str` of that element |
| ConvertToChat.JoinListOfStrings | processing/convert_to_chat.py:18-21 | a list of strings joins to those strings separated by `, ` |
| ConvertToChat.ReadJson | processing/convert_to_chat.py:9-15 | the decoded content, or `{}` when the file cannot be read |
| ConvertToChat.UserPromptLines | processing/convert_to_chat.py:34-41 | the prompt splits into the header and the Mood, Energy, Sleep Duration (with ` hrs`), Sleep Quality and Stability Score lines, in order |
| ConvertToChat.DetailValues | processing/convert_to_chat.py:46-52 | seven joined lists, in label order |
| ConvertToChat.DetailedResponseLines | processing/convert_to_chat.py:54-62 | the response splits into exactly seven lines: Wins, Losses, Ideas, Goals, Tags, Symptoms, Triggers, each bracketed |
| ConvertToChat.LineHasNoBreak | processing/convert_to_chat.py:54-62 | a detail line holds no line break when its value holds none |
| ConvertToChat.ConvertFile | processing/convert_to_chat.py:64-71 | a record with only `messages`: four messages with roles user, assistant, user, assistant; the second is the summary (`''` when missing) and the third the fixed request |
| ConvertToChat.UnreadableFileConverts | processing/convert_to_chat.py:24-25 | an unreadable file still converts, with empty values in the prompt, the summary and all seven lists |
| ConvertToChat.SortedPaths | processing/convert_to_chat.py:75 | the sorted paths are a permutation of the paths |
| ConvertToChat.SortedPathsAscending | processing/convert_to_chat.py:75 | the sorted paths are in strictly increasing order |
| ConvertToChat.StrLessIsWeakOrder | processing/convert_to_chat.py:75 | string comparison is a strict weak order |
| ConvertToChat.ConvertAll | processing/convert_to_chat.py:74-81 | exactly one output line per path |
| ConvertToChat.ConvertEach | processing/convert_to_chat.py:77-80 | one record per path, line for line |
| ConvertToChat.SortedPathsConvertible | processing/convert_to_chat.py:75 | sorting keeps every path's file convertible |
| FormatPrompt.LogLines | RAGScripts/format_prompt.py:4-17 | nine lines: Date, Summary, Mood, Energy, Tags, `Insights:`, `- Wins`, `- Losses`, `- Ideas` |
| FormatPrompt.SingleLogLines | RAGScripts/format_prompt.py:7-17 | a block reads back as its nine lines, each ended by a line break |
| FormatPrompt.Blocks | RAGScripts/format_prompt.py:24 | one block per matching log, in input order |
| FormatPrompt.Prompt | RAGScripts/format_prompt.py:20-29 | the prompt always begins `User asked: {question}` and a blank line |
| FormatPrompt.NoLogsPrompt | RAGScripts/format_prompt.py:21-22 | without logs the prompt is exactly the question line and the no-logs sentence |
| FormatPrompt.AllLogLines | RAGScripts/format_prompt.py:24 | one group of lines per log, in input order |
| FormatPrompt.PromptLines | RAGScripts/format_prompt.py:24-29 | with logs, the prompt reads back as the question, a blank line, the header, then each log's nine lines followed by an empty line, in input order |
| FormatPrompt.PromptLinesFree | RAGScripts/format_prompt.py:24-29 | no line of the prompt holds a line break when the question and the values hold none |
| FormatPrompt.GroupsFree | RAGScripts/format_prompt.py:24 | no line of a group holds a line break |
| FormatPrompt.HeadFree | RAGScripts/format_prompt.py:25-27 | the head lines hold no line break |
| FormatPrompt.TerminatedFree | RAGScripts/format_prompt.py:24 | terminating groups adds no line break inside a line |
| FormatPrompt.PromptIsJoin | RAGScripts/format_prompt.py:24-29 | the prompt with logs is its head lines and every block's lines joined by line breaks |
| FormatPrompt.HeadJoin | RAGScripts/format_prompt.py:25-27 | the head lines join to `User asked: {question}`, a blank line and the header |
| FormatPrompt.BlocksJoin | RAGScripts/format_prompt.py:24 | the blocks joined by line breaks are the flattened, terminated line groups joined by line breaks |
| GenerateEmbeddings.TrimZ | processing/generate_embeddings_parallel.py:18-19 | exactly one trailing `Z` is removed, and a text without one is unchanged |
| GenerateEmbeddings.DateOfNormalisedLog | processing/generate_embeddings_parallel.py:15-21 | a normalised log's timestamp gives back the `D-M-YY` base it was filed under, whatever suffix its file name carries |
| GenerateEmbeddings.FallbackIsStem | processing/generate_embeddings_parallel.py:24 | the fallback id of `stem.json` (no `.` in the stem) is the stem |
| GenerateEmbeddings.BuildText | processing/generate_embeddings_parallel.py:26-48 | the text is the parts joined by single spaces: the truthy summary, then tags, wins, losses, ideas and trigger events |
| GenerateEmbeddings.AddField | processing/generate_embeddings_parallel.py:39-47 | a list adds `str` of every element (empty strings included), another truthy value adds `str(value)`, anything else nothing |
| GenerateEmbeddings.CollectInsights | processing/generate_embeddings_parallel.py:36-42 | the loop over `wins`, `losses`, `ideas` adds each key's parts in that order |
| GenerateEmbeddings.InsightPartsSnoc | processing/generate_embeddings_parallel.py:37-42 | one more insight key adds exactly that key's parts |
| GenerateEmbeddings.OrEmptyList | processing/generate_embeddings_parallel.py:31-35 | `v or []` adds the same parts as `v`, and a non-list result is truthy |
| GenerateEmbeddings.TextIgnoresOtherFields | processing/generate_embeddings_parallel.py:26-48 | setting any field other than summary, tags, insights and triggerEvents (goals, status, symptomChecklist, timestamp) leaves the text unchanged |
| GenerateEmbeddings.SummaryAndTagExample | processing/generate_embeddings_parallel.py:28-33 | a summary with one string tag is embedded as the two joined by a space |
| GenerateEmbeddings.ProcessFile | processing/generate_embeddings_parallel.py:50-65 | `None` exactly when the file cannot be read or the encoder fails; otherwise exactly `date` (from the timestamp or the file name) and the embedding of the text |
| GenerateEmbeddings.Index | processing/generate_embeddings_parallel.py:67-75 | at most one line per listed file |
| GenerateEmbeddings.BuildIndex | processing/generate_embeddings_parallel.py:67-79 | the loop keeps exactly the non-`None` results of the `.json` files, in listing order |
| GenerateEmbeddings.IndexComplete | processing/generate_embeddings_parallel.py:68-75 | when every `.json` file reads and encodes, there is exactly one line per `.json` file |
| LoadLogs.LastDot | RAGScripts/load_logs.py:27 | the position of the last `.`, with no `.` after it, or `None` exactly when there is no `.` |
| LoadLogs.JsonStem | RAGScripts/load_logs.py:26-27 | `x.json` has the key `x` whenever `x` is not made of dots only |
| LoadLogs.DotJsonStem | RAGScripts/load_logs.py:26-27 | `.json` alone has no extension, so its key is the whole name |
| LoadLogs.Load | RAGScripts/load_logs.py:5-32 | a missing directory raises `FileNotFoundError` with its message; a `.json` file that is not UTF-8 (`UnicodeDecodeError`) or decodes to a non-dict or a non-string truthy timestamp (`AttributeError`) ends the load with that exception, the first such file in listing order; otherwise the map built by assigning each stored file under its key, in listing order |
| LoadLogs.LoadedUnique | RAGScripts/load_logs.py:28 | the map never holds a key twice |
| LoadLogs.LastWins | RAGScripts/load_logs.py:15-31 | looking a key up gives the last stored file with that key, and a key no stored file has is absent |
| LoadLogs.SameKeyCollapses | RAGScripts/load_logs.py:28 | two stored files with one key leave one entry, holding the later file |
| LoadLogs.TimestampKey | RAGScripts/load_logs.py:22-24 | a timestamp `<date>T<time>` is keyed by its date |
| Retrieve.GetLogByDate | RAGScripts/retrieve.py:11-14 | at most one pair; non-empty exactly when the date is stored with a truthy log, and then it is that date's entry of the map |
| Retrieve.FuzzyContains | RAGScripts/retrieve.py:17-23 | a case-insensitive substring always matches, and so does a similarity ratio of the lowered strings of at least 0.6; a match without a substring needs that ratio |
| Retrieve.KeywordParts | RAGScripts/retrieve.py:30-34 | the searched parts start with the summary, and a string is a part exactly when it is the summary, one of the wins, losses or ideas, or one of the tags |
| Retrieve.KeywordText | RAGScripts/retrieve.py:30-35 | the text of a log is its searched parts joined by single spaces |
| Retrieve.SearchLogsByKeyword | RAGScripts/retrieve.py:26-38 | the entries whose text fuzzily contains the keyword, in map order |
| Retrieve.SummaryHitFound | RAGScripts/retrieve.py:20-21 | a log whose summary holds the keyword, ignoring case, is always returned |
| Retrieve.PartHitFound | RAGScripts/retrieve.py:17-37 | a log whose summary, any win, loss or idea, or any tag holds the keyword, ignoring case, is always returned |
| Retrieve.AsFloat | RAGScripts/retrieve.py:46 | an integer converts to itself; null, a list or a dict raise and are skipped |
| Retrieve.FilterLogsByMoodBelow | RAGScripts/retrieve.py:41-51 | the entries whose mood converts and is strictly below the threshold, in map order |
| Retrieve.MissingMoodIsZero | RAGScripts/retrieve.py:46-47 | a log without `moodLevel` counts as mood 0, so it is kept exactly when the threshold is positive |
| Retrieve.UnconvertibleMoodSkipped | RAGScripts/retrieve.py:49-50 | a mood that does not convert is skipped, never kept |
| Retrieve.HasMatchingTag | RAGScripts/retrieve.py:58-61 | the inner loop reports whether some tag fuzzily matches, stopping at the first |
| Retrieve.SearchLogsByTag | RAGScripts/retrieve.py:54-62 | the entries with a fuzzily matching tag, each added once, in map order |
| Retrieve.TagSubstringMatches | RAGScripts/retrieve.py:58-61 | a tag that holds the searched tag, ignoring case, makes its log match |
| Retrieve.FilterUniqueKeys | RAGScripts/retrieve.py:29-38 | a search result is exactly the matching entries, drawn from the map in its order, with no date twice |
| RagQuery.LoadEmbeddings | RAGScripts/rag_query.py:23-35 | a missing index file ends the program with exit status 1; otherwise the decoded non-blank lines |
| RagQuery.FindSimilarLogs | RAGScripts/rag_query.py:41-57 | on embeddings of the query's length, the untruncated ranking returns the same top-k selection as the truncating copy |
| RagQuery.BlockLines | RAGScripts/rag_query.py:74-99 | every ranked record contributes seven lines, found or not |
| RagQuery.BlocksSnoc | RAGScripts/rag_query.py:74-99 | one more ranked record appends its block after those before it |
| RagQuery.FormatPrompt | RAGScripts/rag_query.py:69-101 | the prompt is the header, then one block per ranked record in rank order |
| RagQuery.NoLogsPrompt | RAGScripts/rag_query.py:71-72 | with no ranked records the prompt is the `User asked` and `Matching logs` header alone |
| RagQuery.BlockShape | RAGScripts/rag_query.py:78-99 | every block reads back as the Date, Summary, Mood, Tags, Wins and Losses lines and a blank line; a missing log says `[Log file not found]` on its summary line |
| RagQuery.Reply | RAGScripts/rag_query.py:103-123 | the model's text when the call succeeds; otherwise `Error querying OpenAI: ` followed by the error |
| RagQuery.RunQuery | RAGScripts/rag_query.py:125-142 | a missing index ends with status 1; otherwise the reply to the prompt built from the top three records |
| RagReflect.DigitRun | RAGScripts/rag_reflect.py:35 | the run of digits starting at a position, ending before a non-digit or at the end |
| RagReflect.SpaceRun | RAGScripts/rag_reflect.py:43 | the run of whitespace starting at a position stays within the text |
| RagReflect.LetterRun | RAGScripts/rag_reflect.py:43 | the run of letters starting at a position stays within the text |
| RagReflect.Value | RAGScripts/rag_reflect.py:38 | `int()` of at most two digits is below 100, of at most four below 10000 |
| RagReflect.NumericAt | RAGScripts/rag_reflect.py:35 | a numeric match has day and month below 100 and a year below 10000 |
| RagReflect.YearAt | RAGScripts/rag_reflect.py:35-40 | a year group of two to four digits, read as a number below 10000; fewer than two digits is no match |
| RagReflect.MonthNumber | RAGScripts/rag_reflect.py:17-30 | a recognised month abbreviation maps to the number 1 to 12 whose abbreviation is its lower-cased form |
| RagReflect.MonthFrom | RAGScripts/rag_reflect.py:17-30 | the month table is searched in order and a hit names that month |
| RagReflect.MonthNameAt | RAGScripts/rag_reflect.py:43-44 | a month-name match has a day below 100, a month from 1 to 12 and, when present, a year below 10000 |
| RagReflect.NumericSearch | RAGScripts/rag_reflect.py:35 | a numeric hit has day and month below 100 and a year below 10000 |
| RagReflect.NumericSearchLeftmost | RAGScripts/rag_reflect.py:35 | `re.search` for the numeric form: a hit is the match at the leftmost matching position, and no hit means no position matches |
| RagReflect.MonthNameSearchLeftmost | RAGScripts/rag_reflect.py:43-44 | `re.search` for the month-name form: a hit is the match at the leftmost matching position, and no hit means no position matches |
| RagReflect.MonthNameSearchBounds | RAGScripts/rag_reflect.py:43-47 | a month-name hit has a day below 100, a month from 1 to 12 and, when present, a year below 10000 |
| RagReflect.Widen | RAGScripts/rag_reflect.py:39-40 | a year below 100 is moved into the 2000s; other years are kept |
| RagReflect.Detect | RAGScripts/rag_reflect.py:33-55 | a detected date has a year below 10000 and a month and day below 100 |
| RagReflect.IsoDateReadsBack | RAGScripts/rag_reflect.py:41 | the rendered date is ten characters with dashes at positions 4 and 7, and each field reads back as its number |
| RagReflect.NumericDecides | RAGScripts/rag_reflect.py:35-41 | whenever the numeric form matches anywhere, the date is read from its leftmost match, with a two-digit year moved into the 2000s |
| RagReflect.MonthNameDecides | RAGScripts/rag_reflect.py:43-54 | with no numeric match, the date is read from the leftmost month-name match, and a missing year means 2025 |
| RagReflect.NoDateIffNoMatch | RAGScripts/rag_reflect.py:33-55 | the result is `""` exactly when neither pattern matches at any position |
| RagReflect.DetectDateShape | RAGScripts/rag_reflect.py:33-55 | the result is empty exactly when neither pattern matches, and a well-formed `YYYY-MM-DD` date otherwise |
| RagReflect.NoSeparatorNoNumeric | RAGScripts/rag_reflect.py:35 | a question without `-` or `/` never matches the numeric form |
| RagReflect.NumericFirst | RAGScripts/rag_reflect.py:35-41 | the numeric form wins even when a month name comes earlier in the question, and a two-digit year is read as 20YY |
| RagReflect.MonthNameDefaultYear | RAGScripts/rag_reflect.py:43-54 | a month name matches in any case, and a date without a year falls in 2025 |
| RagReflect.NoRangeCheck | RAGScripts/rag_reflect.py:36-41 | day and month are not range-checked: the digits that matched are emitted as they are |
| RagReflect.BelowSearchLeftmost | RAGScripts/rag_reflect.py:65-66 | the threshold is the number of the leftmost `below N` in the lowered question, and there is none exactly when no position matches |
| RagReflect.RouteOf | RAGScripts/rag_reflect.py:62-74 | a date route exactly when a date is detected; a mood route carries the number of `below N` in a lowered question that holds `mood`; a keyword other than the question is an alarm word the lowered question holds |
| RagReflect.RoutePriority | RAGScripts/rag_reflect.py:62-74 | the full priority: a detected date; else `mood` with a `below N` routes by that N; else `suicidal` if present; else `burnout` if present; else the whole question as the keyword |
| RagReflect.Reply | RAGScripts/rag_reflect.py:77-80 | a successful call gives the model's text unchanged; a failed one gives `Error querying language model: ` followed by the error text |
| RagReflect.HandleQuestion | RAGScripts/rag_reflect.py:58-80 | the answer is the model's reply to the prompt built from the logs the question's route selects |
| RagReflect.FirstAlarm | RAGScripts/rag_reflect.py:68-72 | the loop stops at the first of `suicidal`, `burnout` that the lowered question contains |
| RagReflect.SelectedFromMap | RAGScripts/rag_reflect.py:62-74 | whatever the route, the selected logs are entries of the log map with no date twice; a date route brings at most the log stored under that date |
| Ranking.ParsedNonBlank | RAGScripts/rag_to_lmstudio.py:27-29 | the loaded records are the non-blank lines, one decoded record per line, in file order |
| Ranking.ParseIndex | RAGScripts/rag_to_lmstudio.py:24-31 | the loop yields exactly the decoded non-blank lines of the index file |
| Ranking.LoadEmbeddings | RAGScripts/rag_to_lmstudio.py:22-34 | a missing index file loads as no records; otherwise the decoded non-blank lines; the loaders at RAGScripts/format_context.py:20-30 and RAGScripts/rag_ui.py:23-33 are the same |
| Ranking.BlankIndexIsEmpty | RAGScripts/rag_to_lmstudio.py:28 | a file of whitespace-only lines holds no records (so the front ends report that no embeddings were found) |
| Ranking.Vector | RAGScripts/rag_to_lmstudio.py:48 | the vector has one component per item of the stored embedding list |
| Ranking.ScoreIsTruncated | RAGScripts/rag_to_lmstudio.py:51-61 | the query and the embedding are both cut to the shorter length before comparing; equal lengths compare unchanged |
| Ranking.Candidates | RAGScripts/rag_to_lmstudio.py:42-62 | at most one scored candidate per record |
| Ranking.Records | RAGScripts/rag_to_lmstudio.py:65 | the records of the candidates, position for position |
| Ranking.ScoreRecord | RAGScripts/rag_to_lmstudio.py:48-61 | the similarity of one record's embedding to the query, after truncation to the shorter length |
| Ranking.FindSimilarLogs | RAGScripts/rag_to_lmstudio.py:40-65 | the loop, sort and slice return the top-k selection of the ranking; the copies at RAGScripts/format_context.py:36-60 and RAGScripts/rag_ui.py:39-63 are the same |
| Ranking.CandidatesFromIndex | RAGScripts/rag_to_lmstudio.py:44-46 | records without an `embedding` are skipped; each candidate is the record at its index position, positions increase, and the candidates' records are exactly the records with an embedding in index order |
| Ranking.ByScoreIsWeakOrder | RAGScripts/rag_to_lmstudio.py:64 | sorting by score in reverse is a strict weak order, whatever the scores |
| Ranking.RankedOrder | RAGScripts/rag_to_lmstudio.py:64 | the sorted list is a permutation of the candidates, in descending score, with equal scores kept in index order (stable sort) |
| Ranking.TopKSelection | RAGScripts/rag_to_lmstudio.py:65 | for `top_k >= 0` the result holds `min(top_k, records with an embedding)` records, each a record of the index with an embedding, and no kept record scores below one left out |
| Json.EscapeChar | RAGScripts/rag_to_lmstudio.py:98 | inside a list's `repr`, a non-printable character is written as a backslash escape, and a printable one other than the quote and backslash is copied |
| Json.EscapeByte | RAGScripts/rag_to_lmstudio.py:98 | a non-printable character below U+0100 that has no named escape is written `\xhh` in lower-case hexadecimal |
| Json.EscapeWide | RAGScripts/rag_to_lmstudio.py:98 | a non-printable character from U+0100 to U+FFFF is written `\uhhhh` |
| Json.EscapeLatin1Examples | RAGScripts/rag_to_lmstudio.py:98 | a no-break space is written `\xa0` and a next-line control `\x85` |
| Json.EscapeWideExamples | RAGScripts/rag_to_lmstudio.py:98 | a zero-width space is written `\u200b` and a line separator `\u2028` |
| SemanticSearch.PrettyPrint | semantic_search.py:34-47 | seven lines per log, the last one the rule of forty dashes |
| SemanticSearch.DateLine | semantic_search.py:35-36 | the date line shows the first ten characters of a non-empty string timestamp, the list of the first ten items of a non-empty list timestamp, else the index date |
| SemanticSearch.NormalisedDateLine | semantic_search.py:35-36 | a normalised log is printed under the `YYYY-MM-DD` part of its rendered timestamp |
| SemanticSearch.LineDate | semantic_search.py:16-17 | a line gives a date exactly when it is not blank, decodes, is a dict and has a `date` key, and the date is that field |
| SemanticSearch.IndexDatesLines | semantic_search.py:14-17 | the index loads exactly when every line gives a date, and then the k-th date is the k-th line's |
| SemanticSearch.LoadEmbeddings | semantic_search.py:11-22 | the loop over the lines fails at a line that raises, and the empty index fails at `np.vstack`; otherwise the dates of the lines in file order |
| SemanticSearch.Search | semantic_search.py:50-82 | no embeddings file ends the run; an index that fails to load raises before the query is asked; an empty query ends the run; otherwise the found logs among the top five indices are printed and collected, and saved exactly when the answer is `y` |
| SemanticSearch.PrintHits | semantic_search.py:69-76 | the loop prints and collects, in candidate order, every candidate whose log file exists |
| SemanticSearch.HitsTopFive | semantic_search.py:66-76 | at most five hits, each the found log of a top-five index line, in descending score, none scoring below an index line outside the top five |
| SemanticSearch.HitsOrigin | semantic_search.py:70-76 | every hit is the found log of one of the candidate lines, and there are no more hits than candidates |
| SemanticSearch.HitsDescending | semantic_search.py:67-76 | the hits of a prefix of the descending order have non-increasing scores |
| SemanticSearch.HitsFrom | semantic_search.py:67-76 | the hits of any prefix of the descending order come from that prefix, in descending score, none below a line after the prefix |
| Sorting.Insert | RAGScripts/rag_to_lmstudio.py:64 | insertion adds exactly the one element |
| Sorting.Sort | RAGScripts/rag_to_lmstudio.py:64 | the sorted list is a permutation of its input |
| Sorting.InsertAt | RAGScripts/rag_to_lmstudio.py:64 | an element is inserted after every element it need not precede and before the first it must |
| Sorting.InsertSorted | RAGScripts/rag_to_lmstudio.py:64 | inserting into a sorted list keeps it sorted |
| Sorting.SortSorted | RAGScripts/rag_to_lmstudio.py:64 | the result is in order for any strict weak order |
| Sorting.SortStable | RAGScripts/rag_to_lmstudio.py:64 | elements the order does not separate keep their input order (a stable sort) |
| RagContext.FormatRagContext | RAGScripts/rag_to_lmstudio.py:76-103 | the context is the opening that quotes the question, one entry per ranked record in rank order, and the closing line; RAGScripts/format_context.py:87-111 builds the same layout inline |
| RagContext.EntriesSnoc | RAGScripts/rag_to_lmstudio.py:81-100 | one more ranked record appends its entry, numbered one past the records before it |
| RagContext.ContextFrame | RAGScripts/rag_to_lmstudio.py:78-102 | the context starts with the quoted question and the "Relevant log entries" header, and ends with the line that repeats the question |
| RagContext.EntryList | RAGScripts/rag_to_lmstudio.py:81 | one entry per ranked record |
| RagContext.EntryNumbered | RAGScripts/rag_to_lmstudio.py:81-87 | numbering counts every ranked record from 1, found or not: record `k` is entry `k + 1` |
| RagContext.EntriesJoined | RAGScripts/rag_to_lmstudio.py:81-100 | the entries, run together in rank order, make up the middle of the context |
| RagContext.FoundEntryLines | RAGScripts/rag_to_lmstudio.py:95-100 | a found log's entry reads back as the date, summary, mood, tags, wins and losses lines and a blank line |
| RagContext.MissingEntryLine | RAGScripts/rag_to_lmstudio.py:85-87 | a missing log's entry is one line with its number, its date and `[Log file not found]` |
| RagContext.NormalisedLogUnavailable | RAGScripts/rag_to_lmstudio.py:89-93 | a log in the normaliser's eight-field template has no top-level mood, wins or losses, so its entry shows `[Not available]` for all three |
| RagContext.UsedLogsAreFoundEntries | RAGScripts/rag_ui.py:117-146 | `used_logs` lists exactly the ranked records whose log was found, in rank order, each with the values its context entry shows |
| RagFrontEnds.BridgeQuery | RAGScripts/rag_to_lmstudio.py:134-154 | an empty index gives the fixed "No embeddings found" message and nothing is sent; otherwise the reply is the model's answer to the context of the top three records |
| RagFrontEnds.FormatContext | RAGScripts/format_context.py:71-113 | an empty index gives the short fixed message; otherwise the context of the top three records |
| RagFrontEnds.EngineQuery | RAGScripts/rag_ui.py:103-151 | an empty index gives the fixed message and no logs; otherwise the model's answer to the context of the top three records, and the used logs of those records |
| RagFrontEnds.ContextAndUsedLogs | RAGScripts/rag_ui.py:113-148 | the one loop builds both the context and the used logs of the ranked records |
| RagFrontEnds.UsedLogsSnoc | RAGScripts/rag_ui.py:139-146 | one more ranked record adds a used log exactly when its log was found |
| GoogleSheets.IndexOf | RAGScripts/google_sheets_integration.py:93-100 | the index of a column with that name, or `None` exactly when no column has it |
| GoogleSheets.CollapseShape | RAGScripts/google_sheets_integration.py:80 | every whitespace run becomes one space: no whitespace but plain spaces, never two spaces in a row, empty exactly for empty input, and a final space exactly when the input ends in whitespace |
| GoogleSheets.CollapseKeepsText | RAGScripts/google_sheets_integration.py:80 | the collapse keeps every non-whitespace character, in order |
| GoogleSheets.StripKeepsText | RAGScripts/google_sheets_integration.py:80 | stripping keeps every non-whitespace character, in order |
| GoogleSheets.StripChars | RAGScripts/google_sheets_integration.py:80 | stripping adds no character |
| GoogleSheets.Clean | RAGScripts/google_sheets_integration.py:71-85 | a missing value or `""` gives `""`; RAGScripts/simple_sheets_integration.py:19-33 is the same cleaning |
| GoogleSheets.CleanChars | RAGScripts/google_sheets_integration.py:71-85 | every character of the cleaned text is allowed, and its only whitespace is the plain space |
| GoogleSheets.CleanKeepsText | RAGScripts/google_sheets_integration.py:80-83 | the visible characters of the result are exactly the allowed visible characters of the input, in order; also for the copy at RAGScripts/simple_sheets_integration.py:28-31 |
| GoogleSheets.CollapseFixed | RAGScripts/google_sheets_integration.py:80 | text with no whitespace run and no whitespace but spaces is left unchanged by the collapse |
| GoogleSheets.CollapseExample | RAGScripts/google_sheets_integration.py:80 | `"a # b"` has nothing to collapse or strip |
| GoogleSheets.FilterExampleStart | RAGScripts/google_sheets_integration.py:83 | the filter turns `"a #"` into `"a "` |
| GoogleSheets.FilterExample | RAGScripts/google_sheets_integration.py:83 | the filter turns `"a # b"` into `"a  b"` |
| GoogleSheets.SymbolBetweenSpaces | RAGScripts/google_sheets_integration.py:80-83 | deleting happens after collapsing, so `"a # b"` cleans to `"a  b"`, with a double space |
| GoogleSheets.TypedEntry | RAGScripts/google_sheets_integration.py:93-103 | the entry has the layout's keys in order, then `source`; each value is the cleaned cell of its column, and the last pair is the tab's source tag |
| GoogleSheets.RowEntries | RAGScripts/google_sheets_integration.py:91-103 | one entry per row, position by position |
| GoogleSheets.RowEntriesSnoc | RAGScripts/google_sheets_integration.py:91-107 | one more row adds its entry at the end |
| GoogleSheets.FormatTyped | RAGScripts/google_sheets_integration.py:87-146 | the loop keeps exactly the meaningful entries, in row order |
| GoogleSheets.RowEntriesMembers | RAGScripts/google_sheets_integration.py:91-103 | an entry is listed exactly when some row yields it |
| GoogleSheets.TypedRows | RAGScripts/google_sheets_integration.py:87-146 | an entry is formatted exactly when some row yields it and one of the two required fields is non-empty; the result is a subsequence of the rows' entries |
| GoogleSheets.TypedKept | RAGScripts/google_sheets_integration.py:106-107 | a row is kept exactly when the cleaned cell behind one of the two required keys is non-empty |
| GoogleSheets.KeptByFields | RAGScripts/google_sheets_integration.py:105-107 | for an entry keyed like its layout, the keep rule reads the two required fields where they stand |
| GoogleSheets.SamdailyKept | RAGScripts/google_sheets_integration.py:87-109 | the samdaily keys, in order, and a row is kept exactly when its cleaned Summary or Notes is non-empty |
| GoogleSheets.EnergyModeKept | RAGScripts/google_sheets_integration.py:111-128 | the energy-mode keys, in order, and a row is kept exactly when its cleaned Energy Mode or Description is non-empty |
| GoogleSheets.PromptKept | RAGScripts/google_sheets_integration.py:130-146 | the prompt keys, in order, and a row is kept exactly when its cleaned Prompt Text or Response is non-empty |
| GoogleSheets.Normalise | RAGScripts/google_sheets_integration.py:153-160 | same length, no space and no upper-case letter |
| GoogleSheets.NormaliseFixes | RAGScripts/google_sheets_integration.py:153-160 | a name already lower-case and without spaces is its own key, so normalising twice changes nothing |
| GoogleSheets.CleanedRow | RAGScripts/google_sheets_integration.py:158-159 | one cleaned value per column |
| GoogleSheets.ColumnKeys | RAGScripts/google_sheets_integration.py:160 | one key per column |
| GoogleSheets.GenericRowEntries | RAGScripts/google_sheets_integration.py:151-160 | one entry per row |
| GoogleSheets.BuildGenericEntry | RAGScripts/google_sheets_integration.py:152-160 | the entry built in place, column by column, is the specified generic entry |
| GoogleSheets.AssignColumn | RAGScripts/google_sheets_integration.py:159-162 | visiting a column stores its cleaned cell under its normalised key when the cell is non-empty, and otherwise leaves the entry alone |
| GoogleSheets.FormatGeneric | RAGScripts/google_sheets_integration.py:148-167 | the loop keeps exactly the entries with more than two keys, in row order |
| GoogleSheets.GenericRows | RAGScripts/google_sheets_integration.py:148-167 | an entry is formatted exactly when the row at some position `i` yields it, numbered `i + 1`, and it has more than two keys; likewise for the CSV rows of RAGScripts/simple_sheets_integration.py:43-57 |
| GoogleSheets.AssignKeys | RAGScripts/google_sheets_integration.py:157-160 | assignment never duplicates a key, and the start keys keep their places |
| GoogleSheets.AssignStores | RAGScripts/google_sheets_integration.py:157-160 | every non-empty value is stored under its key |
| GoogleSheets.AssignPairs | RAGScripts/google_sheets_integration.py:157-160 | every pair comes from the start entry or is a non-empty value under its key |
| GoogleSheets.SetPair | RAGScripts/google_sheets_integration.py:160 | after `d[k] = v`, each pair is `(k, v)` or a pair of `d` |
| GoogleSheets.AssignGrows | RAGScripts/google_sheets_integration.py:157-163 | without key collisions, the start pairs stay, and the entry grows exactly when some value is non-empty |
| GoogleSheets.GenericEntryShape | RAGScripts/google_sheets_integration.py:152-160 | unique keys; every non-empty cleaned cell is stored under its column's normalised name; every pair is the source tag, the row number, or such a cell; the CSV rows of RAGScripts/simple_sheets_integration.py:44-53 follow the same rules |
| GoogleSheets.AssignKeepsBase | RAGScripts/google_sheets_integration.py:152-160 | without key collisions, a start key still looks up its start value |
| GoogleSheets.ReservedKeys | RAGScripts/google_sheets_integration.py:152-160 | no column key collides with `source` or `row_id` when no column is named so |
| GoogleSheets.GenericTagged | RAGScripts/google_sheets_integration.py:152-155 | without a column named `source` or `row_id`, the entry keeps `source` = `google_sheets_<tab>` and `row_id` = `idx + 1` |
| GoogleSheets.GenericContent | RAGScripts/google_sheets_integration.py:162-163 | without a column named `source` or `row_id`, a row is kept exactly when some cleaned cell is non-empty |
| GoogleSheets.ProcessAllTabs | RAGScripts/google_sheets_integration.py:169-195 | the loop concatenates the tabs' entries in the fixed tab order, and empty frames add nothing |
| GoogleSheets.ProcessTab | RAGScripts/google_sheets_integration.py:184-192 | an empty frame adds nothing; any other goes to its tab's formatter |
| GoogleSheets.NoColumnsTyped | RAGScripts/google_sheets_integration.py:186 | a fixed layout keeps no row of a frame without columns |
| GoogleSheets.NoColumnsGeneric | RAGScripts/google_sheets_integration.py:186 | a generic tab keeps no row of a frame without columns |
| GoogleSheets.EmptyTabAddsNothing | RAGScripts/google_sheets_integration.py:186-192 | for an empty frame every tab's formatter yields nothing, so skipping it changes nothing |
| GoogleSheets.BuildText | RAGScripts/google_sheets_integration.py:217-235 | the text built by appending parts is the labelled parts, then the other non-metadata keys, joined by a vertical bar between spaces |
| GoogleSheets.KeyPartsMember | RAGScripts/google_sheets_integration.py:231-233 | a `key: value` part is present exactly for a pair whose key is not excluded |
| GoogleSheets.LabelledMember | RAGScripts/google_sheets_integration.py:219-228 | a labelled part is present exactly for a labelled key the entry has |
| GoogleSheets.TextPartsCover | RAGScripts/google_sheets_integration.py:217-233 | every part is a labelled part of a present labelled key, or the part of a key that is neither labelled nor metadata, and each of those is present |
| GoogleSheets.PartHasColon | RAGScripts/google_sheets_integration.py:219-233 | every part holds a `:` |
| GoogleSheets.BlankTextIffNoParts | RAGScripts/google_sheets_integration.py:235-237 | `text.strip()` is empty exactly when there is no part |
| GoogleSheets.OtherKeyGivesText | RAGScripts/google_sheets_integration.py:217-233 | an entry with a key other than `source` and `row_id` has a part |
| GoogleSheets.ThreeKeysGiveText | RAGScripts/google_sheets_integration.py:162-163 | three distinct keys cannot all be metadata, so the entry has a part |
| GoogleSheets.GenericUnique | RAGScripts/google_sheets_integration.py:152-160 | a generic entry has unique keys |
| GoogleSheets.GenericHasText | RAGScripts/google_sheets_integration.py:148-167 | every generic entry has a text part |
| GoogleSheets.TypedHasText | RAGScripts/google_sheets_integration.py:87-146 | every entry of a fixed layout whose first key is not metadata has a text part |
| GoogleSheets.FormattedEntriesHaveParts | RAGScripts/google_sheets_integration.py:182-192 | every formatted entry has a text part |
| GoogleSheets.FormattedEntriesHaveText | RAGScripts/google_sheets_integration.py:237 | every formatted entry has a non-blank text, so each gets its embedding record |
| GoogleSheets.TabsHaveText | RAGScripts/google_sheets_integration.py:174-180 | every tab's layout starts with a key that is not metadata |
| GoogleSheets.Candidates | RAGScripts/google_sheets_integration.py:215 | one candidate record per entry |
| GoogleSheets.CreateEmbeddings | RAGScripts/google_sheets_integration.py:208-255 | the loop writes one record per entry with a non-blank text, in entry order, each with the id `gs_{i}` of its position, until the encoder fails on a non-blank text; it returns the file name exactly when no such failure occurs, and `None` otherwise, leaving the records of the entries before the failure; RAGScripts/simple_sheets_integration.py:114-152 runs the same loop with the text of `SimpleText` |
| GoogleSheets.EmbeddedRecords | RAGScripts/google_sheets_integration.py:237-246 | a record is written exactly for an entry with a non-blank text, under that entry's position, text, embedding and metadata |
| GoogleSheets.RecordIdsUnique | RAGScripts/google_sheets_integration.py:243 | no two written records share an id, also for RAGScripts/simple_sheets_integration.py:140 |
| GoogleSheets.AllEmbedded | RAGScripts/google_sheets_integration.py:215-249 | when every entry's text is non-blank, the file holds one record per entry, in order, with id `gs_{i}`, the entry's text, the entry as metadata and the encoder's embedding |
| GoogleSheets.CandidateFields | RAGScripts/google_sheets_integration.py:239-247 | the record built for entry `i` has id `gs_{i}`, the entry's text, the entry as metadata and the encoder's embedding of that text |
| GoogleSheets.AllTabsHaveText | RAGScripts/google_sheets_integration.py:169-195 | every entry `process_all_tabs` yields has a non-blank embedding text |
| GoogleSheets.SheetRecordsOneForOne | RAGScripts/google_sheets_integration.py:215-249 | for the entries of `process_all_tabs`, the embeddings file has one record per entry, in order, whose text is built from that entry by lines 217-235; the loop fails exactly at an entry whose text the encoder fails on |
| SimpleSheets.ProcessCsvFile | RAGScripts/simple_sheets_integration.py:35-63 | a file that cannot be read gives `[]`; otherwise the generic row rules applied to every row |
| SimpleSheets.ProcessAllCsvFiles | RAGScripts/simple_sheets_integration.py:65-100 | a missing data directory gives `[]`; otherwise the entries of every present file, in the fixed file order, and a missing file adds nothing |
| SimpleSheets.CsvMembers | RAGScripts/simple_sheets_integration.py:65-100 | an entry is produced exactly when the directory exists and some listed file is present, reads, and formats to it |
| SimpleSheets.CsvSourceTags | RAGScripts/simple_sheets_integration.py:45 | the CSV tab names are already keys, so each file's entries carry `google_sheets_<tab>` |
| SimpleSheets.BuildSimpleText | RAGScripts/simple_sheets_integration.py:125-132 | the text built by appending parts is `key: value` for every key except `source` and `row_id`, in entry order, joined by a vertical bar between spaces |
| SimpleSheets.KeyPartsSameExclusion | RAGScripts/simple_sheets_integration.py:128-130 | the parts depend only on which of the entry's keys are excluded |
| SimpleSheets.SimpleTextWithoutLabels | RAGScripts/simple_sheets_integration.py:125-132 | for an entry without a labelled key, this text equals the labelled text of the sheet integration |
| SimpleSheets.SimpleBlankIff | RAGScripts/simple_sheets_integration.py:132-134 | `text.strip()` is empty exactly when every key is `source` or `row_id` |
| SimpleSheets.ThreeKeysGiveSimpleText | RAGScripts/simple_sheets_integration.py:56-57 | an entry with more than two distinct keys has a non-blank text |
| SimpleSheets.GenericSimpleText | RAGScripts/simple_sheets_integration.py:43-57 | every entry a CSV file formats to has a non-blank text |
| SimpleSheets.CsvEntriesHaveText | RAGScripts/simple_sheets_integration.py:134 | every processed entry gets an embedding record |
| SimpleSheets.CsvRecordsOneForOne | RAGScripts/simple_sheets_integration.py:122-146 | for the entries of `process_all_csv_files`, the embeddings file has one record per entry, in order, whose text is `key: value` of its non-metadata fields; the loop fails exactly at an entry whose text the encoder fails on |
| SimpleSheets.LoadJsonLines | RAGScripts/simple_sheets_integration.py:163-176 | the non-blank lines decoded in order, or `None` exactly when some non-blank line does not decode |
| Ranking.ParsedSnoc | RAGScripts/simple_sheets_integration.py:165-167 | one more line extends the records by its decoding when it is non-blank |
| SimpleSheets.MergeEmbeddings | RAGScripts/simple_sheets_integration.py:154-190 | the existing records first, then the new ones, each missing file contributing nothing; `None` exactly when a present file has a non-blank line that does not decode |
| SimpleSheets.LoadedLines | RAGScripts/simple_sheets_integration.py:163-176 | one loaded record per non-blank line, decoded from that line |
| SimpleSheets.MergeOrder | RAGScripts/simple_sheets_integration.py:160-184 | the merged count is the sum of both files' non-blank lines; the first part is the existing file's records and the rest the new file's |

## Left out

- File writes (`json.dump`, the JSONL writers, `os.remove`, `os.makedirs`) are not modelled as effects. The model computes the values that would be written, and which files would be deleted.
- Printing, progress messages and the interactive `input` loops of every `main` are left out. The answers that decide behaviour are parameters, for example `SemanticSearch.Search`'s `answer`.
- The sentence-transformer encoder is the parameter `encode`. Cosine similarity is the parameter `sim`, so there is no float arithmetic, norm or zero-norm behaviour. The `np.clip` normalisation in `semantic_search.py` is left out.
- SemanticSearch.Search: `np.argsort` is the parameter `order`, which only has to be a descending order of the scores. Tie order among equal scores is not modelled.
- The thread pool of `generate_embeddings_parallel.py` is taken to complete in submission order. The real line order of the index depends on scheduling.
- Library functions are parameters:
  - `datetime.fromisoformat`, with `None` when it raises;
  - `float()` of a string;
  - `difflib.SequenceMatcher.ratio`;
  - `json.loads` of one line.
- Whitespace (`\s` and `str.strip`) is Python's full `str.isspace` set. The classes `\w` and `\d` and `str.lower` are modelled over ASCII only: Unicode letters and digits and non-ASCII case folding are not captured.
- JSON floats carry their Python `repr` text as given by the decoder. Float formatting is not modelled.
- LLM transport (`send_to_lmstudio`, `query_lmstudio`, `query_openai` and `openai_client.py`) is a parameter returning the reply or an error text. `test_lmstudio.py` is not part of this model.
- The Streamlit UI of `rag_ui.py` is left out.
- The sheet sources are parameters:
  - gspread credentials and sheet reads: `read`, which gives an empty frame on failure, as `read_sheet_tab` does;
  - pandas CSV reading: `read`, with `None` for a failed read.

  A pandas `NaN` cell is a `Missing` cell. A repeated column name reads as its first occurrence.
- Exceptions in `create_embeddings_file` other than the encoder's (model loading, opening or writing the output file) are not modelled. Nor are exceptions in `process_csv_file` other than a failed read, and a failed write in the merge.
- The log normaliser and the log loader model their uncaught exceptions: `CleanDailyLogs.CleanLogs` stops at the first file that raises, and `LoadLogs.Load` returns the exception as an error. `SemanticSearch.Search` ends in `IndexError` when `load_embeddings` raises. Elsewhere, inputs on which the source would raise an uncaught exception (a log that is not a dict, a non-string tag) are excluded by the shape predicates in the `requires` clauses. Caught exceptions are error paths.
- GoogleSheets.GenericTagged: stated only for tabs that have no column named `source` or `row_id`. Such a column would overwrite the tag the source adds.
- GoogleSheets.GenericContent: stated under the same assumption, for the same reason.
- SemanticSearch.LoadEmbeddings: the `embedding` field is not read, because the vectors and their scores are the parameter `sims`. A record whose `embedding` is missing or not numeric, or whose vectors differ in length, raises in the source but loads here.
- Json.EscapeChar: `repr` escaping covers the C0 and C1 controls, the non-ASCII spaces, the line and paragraph separators, the common format characters and the private-use area of the first plane. Other characters that `str.isprintable` rejects are copied unchanged. These are unassigned code points, format characters outside those ranges, and non-printable characters beyond the first plane.
- SemanticSearch.PrettyPrint: the contract states the line count and the closing rule. The separators of tags, wins and losses are given by the definition only.
- RagReflect.HandleQuestion: the model call is the parameter `llm`. Its errors come back as text, so any exception is represented by `Err`.
