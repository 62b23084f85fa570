/**
 * The stand-alone semantic search: the five index lines that score highest against the
 * query, each printed from its full log when that log exists, and the hits saved on a
 * "y". The scores and their descending order come from the embedding model and `argsort`,
 * and are parameters.
 */
module SemanticSearch {
  import opened Wrappers
  import opened Json
  import Text
  import Seqs
  import CleanDailyLogs

  const RULE: string := "----------------------------------------"

  /** What `pretty_print` needs of a log: a dict whose fields it reads can be sliced and joined. */
  predicate Printable(entry: Json)
  {
    && entry.JObj? && (GetOr(entry, "timestamp", JStr("")).JStr? || GetOr(entry, "timestamp", JStr("")).JArr?)
    && ObjOrAbsent(entry, "status") && ObjOrAbsent(entry, "insights")
    && JoinableOrAbsent(entry, "tags")
    && var insights := GetOr(entry, "insights", EMPTY_OBJ);
       JoinableOrAbsent(insights, "wins") && JoinableOrAbsent(insights, "losses")
  }

  /** `timestamp[:10] or date`, for a string or a list timestamp; slicing anything else raises. */
  function DateShown(date: Json, timestamp: Json): string
    requires timestamp.JStr? || timestamp.JArr?
  {
    if timestamp.JStr? then
      var head := Seqs.SliceTo(timestamp.s, 10);
      if head != "" then head else PyStr(date)
    else
      var head := Seqs.SliceTo(timestamp.items, 10);
      if head != [] then PyStr(JArr(head)) else PyStr(date)
  }

  /** The seven lines `pretty_print` prints for one log. */
  function PrettyPrint(date: Json, entry: Json): (lines: seq<string>)
    requires Printable(entry)
    ensures |lines| == 7 && lines[6] == RULE
  {
    var status := GetOr(entry, "status", EMPTY_OBJ);
    var insights := GetOr(entry, "insights", EMPTY_OBJ);
    ["Date: " + DateShown(date, GetOr(entry, "timestamp", JStr(""))),
     "Summary: " + PyStr(GetOr(entry, "summary", JStr(""))),
     "Mood: " + PyStr(GetNone(status, "moodLevel")),
     "Tags: " + JoinStrs(", ", GetOr(entry, "tags", EMPTY_ARR)),
     "Wins: " + JoinStrs("; ", GetOr(insights, "wins", EMPTY_ARR)),
     "Losses: " + JoinStrs("; ", GetOr(insights, "losses", EMPTY_ARR)),
     RULE]
  }

  /**
   * The date line shows the first ten characters of a non-empty string timestamp, the list
   * of the first ten items of a non-empty list timestamp, and otherwise the index date.
   */
  lemma DateLine(date: Json, entry: Json)
    requires Printable(entry)
    ensures var ts := GetOr(entry, "timestamp", JStr(""));
      && (ts.JStr? && ts.s != "" ==> PrettyPrint(date, entry)[0] == "Date: " + ts.s[..if |ts.s| < 10 then |ts.s| else 10])
      && (ts.JArr? && ts.items != [] ==>
          PrettyPrint(date, entry)[0] == "Date: " + PyStr(JArr(ts.items[..if |ts.items| < 10 then |ts.items| else 10])))
      && (ts == JStr("") || ts == EMPTY_ARR ==> PrettyPrint(date, entry)[0] == "Date: " + PyStr(date))
  {
    assert PrettyPrint(date, entry)[0] == "Date: " + DateShown(date, GetOr(entry, "timestamp", JStr("")));
  }

  /** A normalised log is printed under the `YYYY-MM-DD` part of its rendered timestamp. */
  lemma NormalisedDateLine(date: Json, dt: CleanDailyLogs.DateTime, data: Json)
    requires CleanDailyLogs.WellShaped(data) && CleanDailyLogs.ValidDateTime(dt) && dt.year >= 1000
    requires Printable(CleanDailyLogs.CleanRecord(dt, data))
    ensures PrettyPrint(date, CleanDailyLogs.CleanRecord(dt, data))[0]
      == "Date: " + CleanDailyLogs.Render(dt)[..10]
  {
    CleanDailyLogs.RenderLength(dt);
    var r := CleanDailyLogs.CleanRecord(dt, data);
    assert r.fields[0] == ("timestamp", JStr(CleanDailyLogs.Render(dt)));
    assert GetOr(r, "timestamp", JStr("")) == JStr(CleanDailyLogs.Render(dt));
    DateLine(date, r);
  }

  /**
   * `np.argsort(-sims)`: every index exactly once, by descending score. Ties may come in
   * any order.
   */
  predicate DescendingOrder(order: seq<nat>, sims: seq<real>)
  {
    && |order| == |sims|
    && (forall p :: 0 <= p < |order| ==> order[p] < |sims|)
    && (forall p, q :: 0 <= p < q < |order| ==> order[p] != order[q])
    && (forall p, q :: 0 <= p < q < |order| ==> sims[order[p]] >= sims[order[q]])
  }

  /** One saved result: the index date, its score and the full log. */
  datatype Hit = Hit(date: Json, score: real, entry: Json)

  /** The full log for an index date: `load_log`, with a missing file as `None`. */
  type Lookup = string -> Option<Json>

  predicate Found(full: Option<Json>)
  {
    full.Some? && !full.value.JNull?
  }

  /** The found logs among the candidates can be printed. */
  predicate PrintableHits(dates: seq<Json>, candidates: seq<nat>, lookup: Lookup)
  {
    forall p :: 0 <= p < |candidates| && candidates[p] < |dates| && Found(lookup(PyStr(dates[candidates[p]])))
      ==> Printable(lookup(PyStr(dates[candidates[p]])).value)
  }

  /** The hit for index line `idx`, if its log file exists. */
  function HitAt(dates: seq<Json>, sims: seq<real>, idx: nat, lookup: Lookup): Option<Hit>
    requires |dates| == |sims| && idx < |dates|
  {
    var full := lookup(PyStr(dates[idx]));
    if Found(full) then Some(Hit(dates[idx], sims[idx], full.value)) else None
  }

  /** The hits of the candidates, in candidate order, those without a log file skipped. */
  function Hits(dates: seq<Json>, sims: seq<real>, candidates: seq<nat>, lookup: Lookup): seq<Hit>
    requires |dates| == |sims| && forall p :: 0 <= p < |candidates| ==> candidates[p] < |dates|
  {
    if candidates == [] then []
    else
      var init, hit := candidates[..|candidates| - 1], HitAt(dates, sims, candidates[|candidates| - 1], lookup);
      Hits(dates, sims, init, lookup) + (if hit.Some? then [hit.value] else [])
  }

  /** The lines printed for the hits, one block after another. */
  function Printed(hits: seq<Hit>): seq<string>
    requires forall h :: h in hits ==> Printable(h.entry)
  {
    if hits == [] then []
    else Printed(hits[..|hits| - 1]) + PrettyPrint(hits[|hits| - 1].date, hits[|hits| - 1].entry)
  }

  /** A line of nothing but whitespace, which `json.loads` rejects whatever the decoder. */
  predicate Blank(line: string) {
    forall i :: 0 <= i < |line| ==> Text.IsSpace(line[i])
  }

  /**
   * `json.loads(line)['date']` for one index line: a blank or malformed line, a record that
   * is not a dict and a record without `date` each raise, shown as `None`.
   */
  function LineDate(line: string, decode: string -> Option<Json>): (d: Option<Json>)
    ensures d.Some? <==>
              !Blank(line) && decode(line).Some? && decode(line).value.JObj?
              && Get(decode(line).value, "date").Some?
    ensures d.Some? ==> d == Get(decode(line).value, "date")
  {
    if Blank(line) then None
    else
      match decode(line)
      case Some(data) => if data.JObj? then Get(data, "date") else None
      case None => None
  }

  /** The dates of the index lines in file order, or `None` once a line raises. */
  function IndexDates(lines: seq<string>, decode: string -> Option<Json>): (r: Option<seq<Json>>)
    ensures r.Some? ==> |r.value| == |lines|
  {
    if lines == [] then Some([])
    else
      match IndexDates(lines[..|lines| - 1], decode)
      case None => None
      case Some(dates) =>
        match LineDate(lines[|lines| - 1], decode)
        case Some(d) => Some(dates + [d])
        case None => None
  }

  /** The index loads exactly when every line gives a date, and then date `k` is line `k`'s. */
  lemma {:induction false} IndexDatesLines(lines: seq<string>, decode: string -> Option<Json>)
    ensures IndexDates(lines, decode).Some? <==> forall k :: 0 <= k < |lines| ==> LineDate(lines[k], decode).Some?
    ensures IndexDates(lines, decode).Some? ==>
      forall k :: 0 <= k < |lines| ==> IndexDates(lines, decode).value[k] == LineDate(lines[k], decode).value
  {
    if lines != [] {
      var init := lines[..|lines| - 1];
      IndexDatesLines(init, decode);
      assert forall k :: 0 <= k < |init| ==> init[k] == lines[k];
    }
  }

  /**
   * `load_embeddings` as far as the dates go: the loop over the lines, each of which must give
   * a date, then `np.vstack`, which raises on an empty index.
   */
  method LoadEmbeddings(lines: seq<string>, decode: string -> Option<Json>) returns (dates: Option<seq<Json>>)
    ensures dates.Some? <==> lines != [] && IndexDates(lines, decode).Some?
    ensures dates.Some? ==> dates.value == IndexDates(lines, decode).value
  {
    var loaded: seq<Json> := [];
    for i := 0 to |lines|
      invariant IndexDates(lines[..i], decode) == Some(loaded)
    {
      assert lines[..i + 1][..i] == lines[..i];
      var d := LineDate(lines[i], decode);
      if d.None? {
        IndexDatesLines(lines, decode);
        return None;
      }
      loaded := loaded + [d.value];
    }
    assert lines[..|lines|] == lines;
    if loaded == [] {
      return None;
    }
    return Some(loaded);
  }

  datatype Outcome =
    | NoIndex                // the embeddings file does not exist: nothing is asked
    | IndexError             // `load_embeddings` raises before the query is asked
    | EmptyQuery             // the stripped query is empty
    | Searched(printed: seq<string>, hits: seq<Hit>, saved: bool)

  /** The answer to "Save results?" is yes. */
  predicate SaysYes(answer: string)
  {
    Text.Lower(Text.Strip(answer)) == "y"
  }

  /**
   * `main`: the index is loaded from its `lines` before anything is asked; then the top five
   * candidates, the found ones printed and collected. The scores `sims` and their order come
   * from the embedding model and are parameters.
   */
  method Search(indexExists: bool, lines: seq<string>, decode: string -> Option<Json>, query: string,
                sims: seq<real>, order: seq<nat>, lookup: Lookup, answer: string)
    returns (outcome: Outcome)
    requires IndexDates(lines, decode).Some? ==>
               && |sims| == |lines| && DescendingOrder(order, sims)
               && PrintableHits(IndexDates(lines, decode).value, Seqs.SliceTo(order, 5), lookup)
    ensures !indexExists ==> outcome == NoIndex
    ensures indexExists && (lines == [] || IndexDates(lines, decode).None?) ==> outcome == IndexError
    ensures indexExists && lines != [] && IndexDates(lines, decode).Some? && Text.Strip(query) == ""
            ==> outcome == EmptyQuery
    ensures indexExists && lines != [] && IndexDates(lines, decode).Some? && Text.Strip(query) != ""
            ==> var dates := IndexDates(lines, decode).value;
                && outcome.Searched? && outcome.hits == Hits(dates, sims, Seqs.SliceTo(order, 5), lookup)
                && (forall h :: h in outcome.hits ==> Printable(h.entry))
                && outcome.printed == Printed(outcome.hits) && (outcome.saved <==> SaysYes(answer))
  {
    if !indexExists {
      return NoIndex;
    }
    var loaded := LoadEmbeddings(lines, decode);
    if loaded.None? {
      return IndexError;
    }
    var dates := loaded.value;
    if Text.Strip(query) == "" {
      return EmptyQuery;
    }
    var results, printed := PrintHits(dates, sims, Seqs.SliceTo(order, 5), lookup);
    var save := Text.Lower(Text.Strip(answer));
    outcome := Searched(printed, results, save == "y");
  }

  /** The loop of `main` over the top indices: print and collect each found log. */
  method PrintHits(dates: seq<Json>, sims: seq<real>, topIdx: seq<nat>, lookup: Lookup)
    returns (results: seq<Hit>, printed: seq<string>)
    requires |dates| == |sims| && forall p :: 0 <= p < |topIdx| ==> topIdx[p] < |dates|
    requires PrintableHits(dates, topIdx, lookup)
    ensures results == Hits(dates, sims, topIdx, lookup)
    ensures forall h :: h in results ==> Printable(h.entry)
    ensures printed == Printed(results)
  {
    results := [];
    printed := [];
    for i := 0 to |topIdx|
      invariant results == Hits(dates, sims, topIdx[..i], lookup)
      invariant forall h :: h in results ==> Printable(h.entry)
      invariant printed == Printed(results)
    {
      HitsSnoc(dates, sims, topIdx, lookup, i);
      var idx := topIdx[i];
      var date := dates[idx];
      var entry := lookup(PyStr(date));
      if !Found(entry) {
        continue;
      }
      var hit := Hit(date, sims[idx], entry.value);
      PrintedSnoc(results, hit);
      printed := printed + PrettyPrint(date, entry.value);
      results := results + [hit];
    }
    assert topIdx[..|topIdx|] == topIdx;
  }

  lemma HitsSnoc(dates: seq<Json>, sims: seq<real>, topIdx: seq<nat>, lookup: Lookup, i: nat)
    requires |dates| == |sims| && i < |topIdx| && forall p :: 0 <= p < |topIdx| ==> topIdx[p] < |dates|
    ensures var hit := HitAt(dates, sims, topIdx[i], lookup);
      Hits(dates, sims, topIdx[..i + 1], lookup)
        == Hits(dates, sims, topIdx[..i], lookup) + (if hit.Some? then [hit.value] else [])
  {
    assert topIdx[..i + 1][..i] == topIdx[..i];
  }

  lemma PrintedSnoc(hits: seq<Hit>, h: Hit)
    requires forall x :: x in hits + [h] ==> Printable(x.entry)
    ensures Printed(hits + [h]) == Printed(hits) + PrettyPrint(h.date, h.entry)
  {
    assert (hits + [h])[..|hits|] == hits;
  }

  /**
   * At most five hits, each the found log of a top-five line, in descending score order,
   * and none scores below an index line outside the top five.
   */
  lemma HitsTopFive(dates: seq<Json>, sims: seq<real>, order: seq<nat>, lookup: Lookup)
    requires |dates| == |sims| && DescendingOrder(order, sims)
    ensures var top := Seqs.SliceTo(order, 5);
      var hits := Hits(dates, sims, top, lookup);
      && |hits| <= 5
      && (forall h :: h in hits ==> exists p :: 0 <= p < |top| && HitAt(dates, sims, top[p], lookup) == Some(h))
      && (forall i, j :: 0 <= i < j < |hits| ==> hits[i].score >= hits[j].score)
      && (forall h, q :: h in hits && 5 <= q < |order| ==> h.score >= sims[order[q]])
  {
    var top := Seqs.SliceTo(order, 5);
    HitsFrom(dates, sims, top, lookup, order);
  }

  lemma {:induction false} HitsFrom(dates: seq<Json>, sims: seq<real>, top: seq<nat>, lookup: Lookup, order: seq<nat>)
    requires |dates| == |sims| && DescendingOrder(order, sims) && |top| <= |order| && top == order[..|top|]
    ensures forall p :: 0 <= p < |top| ==> top[p] < |dates|
    ensures var hits := Hits(dates, sims, top, lookup);
      && |hits| <= |top|
      && (forall h :: h in hits ==> exists p :: 0 <= p < |top| && HitAt(dates, sims, top[p], lookup) == Some(h))
      && (forall i, j :: 0 <= i < j < |hits| ==> hits[i].score >= hits[j].score)
      && (forall h, q :: h in hits && |top| <= q < |order| ==> h.score >= sims[order[q]])
  {
    assert forall p :: 0 <= p < |top| ==> top[p] == order[p];
    HitsOrigin(dates, sims, top, lookup);
    HitsDescending(dates, sims, top, lookup, order);
    var hits := Hits(dates, sims, top, lookup);
    forall h, q | h in hits && |top| <= q < |order|
      ensures h.score >= sims[order[q]]
    {
      var p :| 0 <= p < |top| && HitAt(dates, sims, top[p], lookup) == Some(h);
      assert top[p] == order[p];
    }
  }

  /** Every hit is the found log of one of the candidates, and there are no more hits than candidates. */
  lemma {:induction false} HitsOrigin(dates: seq<Json>, sims: seq<real>, top: seq<nat>, lookup: Lookup)
    requires |dates| == |sims| && forall p :: 0 <= p < |top| ==> top[p] < |dates|
    ensures |Hits(dates, sims, top, lookup)| <= |top|
    ensures forall h :: h in Hits(dates, sims, top, lookup) ==>
      exists p :: 0 <= p < |top| && HitAt(dates, sims, top[p], lookup) == Some(h)
  {
    if top != [] {
      var n := |top| - 1;
      var init := top[..n];
      HitsOrigin(dates, sims, init, lookup);
      forall h | h in Hits(dates, sims, init, lookup)
        ensures exists p :: 0 <= p < |top| && HitAt(dates, sims, top[p], lookup) == Some(h)
      {
        var p :| 0 <= p < |init| && HitAt(dates, sims, init[p], lookup) == Some(h);
        assert init[p] == top[p];
      }
    }
  }

  /** The hits of a prefix of the descending order come in descending score. */
  lemma {:induction false} HitsDescending(dates: seq<Json>, sims: seq<real>, top: seq<nat>, lookup: Lookup, order: seq<nat>)
    requires |dates| == |sims| && DescendingOrder(order, sims) && |top| <= |order| && top == order[..|top|]
    ensures forall p :: 0 <= p < |top| ==> top[p] < |dates|
    ensures var hits := Hits(dates, sims, top, lookup);
      forall i, j :: 0 <= i < j < |hits| ==> hits[i].score >= hits[j].score
  {
    assert forall p :: 0 <= p < |top| ==> top[p] == order[p];
    if top != [] {
      var n := |top| - 1;
      var init := top[..n];
      HitsDescending(dates, sims, init, lookup, order);
      HitsOrigin(dates, sims, init, lookup);
      var prev := Hits(dates, sims, init, lookup);
      var hit := HitAt(dates, sims, top[n], lookup);
      assert Hits(dates, sims, top, lookup) == prev + (if hit.Some? then [hit.value] else []);
      if hit.Some? {
        assert hit.value.score == sims[order[n]];
        forall h | h in prev
          ensures h.score >= hit.value.score
        {
          var p :| 0 <= p < |init| && HitAt(dates, sims, init[p], lookup) == Some(h);
          assert init[p] == order[p];
        }
      }
    }
  }
}
