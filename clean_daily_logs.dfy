/**
 * The log normaliser: every raw daily log (camelCase or snake_case field names) becomes
 * a record of the standard eight-field shape, with its timestamp's year pinned to 2025,
 * written under a `D-M-YY` file name with a `_n` suffix for the n-th log of a day.
 */
module CleanDailyLogs {
  import opened Wrappers
  import opened Json
  import Text
  import Dicts
  import Seqs

  /** The fields of a Python `datetime` (the UTC offset in seconds, if the text had one). */
  datatype DateTime = DateTime(
    year: nat, month: nat, day: nat,
    hour: nat, minute: nat, second: nat, microsecond: nat,
    utcOffset: Option<int>)

  const PINNED_YEAR: nat := 2025

  predicate IsLeapYear(y: nat)
  {
    y % 4 == 0 && (y % 100 != 0 || y % 400 == 0)
  }

  function DaysInMonth(y: nat, m: nat): nat
    requires 1 <= m <= 12
  {
    if m == 2 then (if IsLeapYear(y) then 29 else 28)
    else if m == 4 || m == 6 || m == 9 || m == 11 then 30
    else 31
  }

  /** What a `datetime` object can hold. */
  predicate ValidDateTime(dt: DateTime)
  {
    1 <= dt.year <= 9999 && 1 <= dt.month <= 12 && 1 <= dt.day <= DaysInMonth(dt.year, dt.month)
    && dt.hour < 24 && dt.minute < 60 && dt.second < 60 && dt.microsecond < 1000000
  }

  /**
   * `datetime.fromisoformat`, supplied by the caller (`None` when it raises):
   * whatever it returns is a valid date and time.
   */
  ghost predicate ValidParser(fromIso: string -> Option<DateTime>)
  {
    forall s :: fromIso(s).Some? ==> ValidDateTime(fromIso(s).value)
  }

  /** `dt.replace(year=y)`: `None` when it raises because the day does not exist in year `y`. */
  function ReplaceYear(dt: DateTime, y: nat): (r: Option<DateTime>)
    requires 1 <= dt.month <= 12
  {
    if dt.day > DaysInMonth(y, dt.month) then None else Some(dt.(year := y))
  }

  /** The text handed to `fromisoformat`: stripped, then one trailing `Z` removed. */
  function DropZ(raw: string): (ts: string)
  {
    var s := Text.Strip(raw);
    if Text.EndsWith(s, "Z") then s[..|s| - 1] else s
  }

  /** `_parse_timestamp`: `None` when it raises. */
  function ParseTimestamp(raw: string, fromIso: string -> Option<DateTime>): (r: Option<DateTime>)
    requires ValidParser(fromIso)
    ensures r.Some? ==> fromIso(DropZ(raw)).Some?
    ensures r.Some? ==> r.value == fromIso(DropZ(raw)).value.(year := PINNED_YEAR)
    ensures r.Some? ==> ValidDateTime(r.value)
    ensures fromIso(DropZ(raw)).Some? && r.None? ==> var dt := fromIso(DropZ(raw)).value; dt.month == 2 && dt.day == 29
  {
    match fromIso(DropZ(raw))
    case None => None
    case Some(dt) => if dt.year != PINNED_YEAR then ReplaceYear(dt, PINNED_YEAR) else Some(dt)
  }

  /** Pinning fails exactly for 29 February of a year other than 2025. */
  lemma PinFailsOnlyOnLeapDay(raw: string, fromIso: string -> Option<DateTime>)
    requires ValidParser(fromIso) && fromIso(DropZ(raw)).Some?
    ensures ParseTimestamp(raw, fromIso).None? <==>
              (var dt := fromIso(DropZ(raw)).value; dt.year != PINNED_YEAR && dt.month == 2 && dt.day == 29)
  {
  }

  /** The five status fields, each with its snake_case alias. */
  const STATUS_ALIASES: seq<(string, string)> := [
    ("moodLevel", "mood_level"),
    ("sleepQuality", "sleep_quality"),
    ("sleepDuration", "sleep_duration"),
    ("energyLevel", "energy_level"),
    ("stabilityScore", "stability_score")
  ]

  const INSIGHT_KEYS: seq<string> := ["wins", "losses", "ideas"]

  /** `d.get(camel) or d.get(snake, default)`. */
  function Alias(d: Json, camel: string, snake: string, default: Json): (r: Json)
    requires d.JObj?
    ensures Truthy(GetNone(d, camel)) ==> r == GetNone(d, camel)
    ensures !Truthy(GetNone(d, camel)) && Has(d, snake) ==> r == Get(d, snake).value
    ensures !Truthy(GetNone(d, camel)) && !Has(d, snake) ==> r == default
  {
    Or(GetNone(d, camel), GetOr(d, snake, default))
  }

  predicate WellShaped(data: Json)
  {
    data.JObj? && ObjOrAbsent(data, "status") && ObjOrAbsent(data, "insights")
  }

  /** `_get_status`. */
  function GetStatus(data: Json): (r: Json)
    requires WellShaped(data)
    ensures r.JObj?
  {
    var status := GetOr(data, "status", EMPTY_OBJ);
    JObj(seq(|STATUS_ALIASES|, k requires 0 <= k < |STATUS_ALIASES| =>
      (STATUS_ALIASES[k].0, Alias(status, STATUS_ALIASES[k].0, STATUS_ALIASES[k].1, JStr("")))))
  }

  /** `d.get(key, []) or []`. */
  function ListOrEmpty(d: Json, key: string): (r: Json)
    requires d.JObj?
    ensures Truthy(GetNone(d, key)) ==> r == GetNone(d, key)
    ensures !Truthy(GetNone(d, key)) ==> r == EMPTY_ARR
  {
    Or(GetOr(d, key, EMPTY_ARR), EMPTY_ARR)
  }

  /** `d.get(camel) or d.get(snake, []) or []`. */
  function AliasList(d: Json, camel: string, snake: string): (r: Json)
    requires d.JObj?
    ensures Truthy(GetNone(d, camel)) ==> r == GetNone(d, camel)
    ensures !Truthy(GetNone(d, camel)) && Truthy(GetNone(d, snake)) ==> r == GetNone(d, snake)
    ensures !Truthy(GetNone(d, camel)) && !Truthy(GetNone(d, snake)) ==> r == EMPTY_ARR
  {
    Or(Alias(d, camel, snake, EMPTY_ARR), EMPTY_ARR)
  }

  /** `_get_insights`. */
  function GetInsights(data: Json): (r: Json)
    requires WellShaped(data)
    ensures r.JObj?
  {
    var insights := GetOr(data, "insights", EMPTY_OBJ);
    JObj(seq(|INSIGHT_KEYS|, k requires 0 <= k < |INSIGHT_KEYS| => (INSIGHT_KEYS[k], ListOrEmpty(insights, INSIGHT_KEYS[k]))))
  }

  /** The template's `status` and `insights`. */
  const TEMPLATE_STATUS: Json := JObj(seq(|STATUS_ALIASES|, k requires 0 <= k < |STATUS_ALIASES| => (STATUS_ALIASES[k].0, JStr(""))))
  const TEMPLATE_INSIGHTS: Json := JObj(seq(|INSIGHT_KEYS|, k requires 0 <= k < |INSIGHT_KEYS| => (INSIGHT_KEYS[k], EMPTY_ARR)))

  /** `STANDARD_TEMPLATE`, in its key order. */
  const TEMPLATE: seq<(string, Json)> := [
    ("timestamp", JStr("")),
    ("summary", JStr("")),
    ("status", TEMPLATE_STATUS),
    ("insights", TEMPLATE_INSIGHTS),
    ("goals", EMPTY_ARR),
    ("tags", EMPTY_ARR),
    ("triggerEvents", EMPTY_ARR),
    ("symptomChecklist", EMPTY_ARR)
  ]

  const TEMPLATE_KEYS: seq<string> :=
    ["timestamp", "summary", "status", "insights", "goals", "tags", "triggerEvents", "symptomChecklist"]

  /** Two decimal digits, as `%m`, `%d`, `%H`, `%M` and `%S` print them. */
  function Two(n: nat): string
  {
    Text.ZeroPad(n, 2)
  }

  /** `dt.strftime('%Y-%m-%dT%H:%M:%SZ')`. */
  function Render(dt: DateTime): string
  {
    Text.ZeroPad(dt.year, 4) + "-" + Two(dt.month) + "-" + Two(dt.day)
    + "T" + Two(dt.hour) + ":" + Two(dt.minute) + ":" + Two(dt.second) + "Z"
  }

  /**
   * The rendered timestamp has a fixed layout from which year, month, day and time
   * read back unchanged; the microseconds and the UTC offset are not in it.
   */
  lemma {:induction false} RenderReadsBack(dt: DateTime)
    requires ValidDateTime(dt) && dt.year >= 1000
    ensures var r := Render(dt);
      |r| == 20 && r[4] == '-' && r[7] == '-' && r[10] == 'T' && r[13] == ':' && r[16] == ':' && r[19] == 'Z'
      && Text.AllDigits(r[..4]) && Text.DigitsValue(r[..4]) == dt.year
      && Text.AllDigits(r[5..7]) && Text.DigitsValue(r[5..7]) == dt.month
      && Text.AllDigits(r[8..10]) && Text.DigitsValue(r[8..10]) == dt.day
      && Text.AllDigits(r[11..13]) && Text.DigitsValue(r[11..13]) == dt.hour
      && Text.AllDigits(r[14..16]) && Text.DigitsValue(r[14..16]) == dt.minute
      && Text.AllDigits(r[17..19]) && Text.DigitsValue(r[17..19]) == dt.second
  {
    var y, mo, d, h, mi, s := Text.ZeroPad(dt.year, 4), Two(dt.month), Two(dt.day), Two(dt.hour), Two(dt.minute), Two(dt.second);
    TwoDigits(dt.year, 4, 10000);
    TwoDigits(dt.month, 2, 100);
    TwoDigits(dt.day, 2, 100);
    TwoDigits(dt.hour, 2, 100);
    TwoDigits(dt.minute, 2, 100);
    TwoDigits(dt.second, 2, 100);
    StampLayout(y, mo, d, h, mi, s);
    Text.ZeroPadValue(dt.year, 4);
    Text.ZeroPadValue(dt.month, 2);
    Text.ZeroPadValue(dt.day, 2);
    Text.ZeroPadValue(dt.hour, 2);
    Text.ZeroPadValue(dt.minute, 2);
    Text.ZeroPadValue(dt.second, 2);
  }

  /** The rendered timestamp is twenty characters long and ends in `Z`. */
  lemma RenderLength(dt: DateTime)
    requires ValidDateTime(dt) && dt.year >= 1000
    ensures |Render(dt)| == 20 && Render(dt)[19] == 'Z'
  {
    TwoDigits(dt.year, 4, 10000);
    TwoDigits(dt.month, 2, 100);
    TwoDigits(dt.day, 2, 100);
    TwoDigits(dt.hour, 2, 100);
    TwoDigits(dt.minute, 2, 100);
    TwoDigits(dt.second, 2, 100);
  }

  /** Where each field and separator sits in a rendered timestamp. */
  lemma StampLayout(y: string, mo: string, d: string, h: string, mi: string, s: string)
    requires |y| == 4 && |mo| == 2 && |d| == 2 && |h| == 2 && |mi| == 2 && |s| == 2
    ensures var r := y + "-" + mo + "-" + d + "T" + h + ":" + mi + ":" + s + "Z";
      |r| == 20 && r[4] == '-' && r[7] == '-' && r[10] == 'T' && r[13] == ':' && r[16] == ':' && r[19] == 'Z'
      && r[..4] == y && r[5..7] == mo && r[8..10] == d && r[11..13] == h && r[14..16] == mi && r[17..19] == s
  {
    var p2 := y + "-" + mo;
    var p4 := p2 + "-" + d;
    var p6 := p4 + "T" + h;
    var p8 := p6 + ":" + mi;
    var p10 := p8 + ":" + s;
    var r := p10 + "Z";
    assert r[..19] == p10 && p10[..16] == p8 && p8[..13] == p6 && p6[..10] == p4 && p4[..7] == p2;
    assert p2[..4] == y && p2[5..] == mo && p4[8..] == d && p6[11..] == h && p8[14..] == mi && p10[17..] == s;
  }

  /** A number below `bound` = 10^width renders in exactly `width` digits once padded. */
  lemma TwoDigits(n: nat, width: nat, bound: nat)
    requires (width == 2 && bound == 100) || (width == 4 && bound == 10000)
    requires n < bound
    ensures |Text.ZeroPad(n, width)| == width
  {
    DigitCount(n, bound, width);
  }

  lemma {:induction false} DigitCount(n: nat, bound: nat, width: nat)
    requires (width == 2 && bound == 100) || (width == 4 && bound == 10000) || (width == 3 && bound == 1000) || (width == 1 && bound == 10)
    requires n < bound
    ensures |Text.NatToString(n)| <= width
  {
    if n >= 10 {
      var w', b' := width - 1, bound / 10;
      DigitCount(n / 10, b', w');
    }
  }

  /** The record written for a log: the template with every field filled. */
  function CleanRecord(dt: DateTime, data: Json): (r: Json)
    requires WellShaped(data)
    ensures r.JObj? && |r.fields| == 8
  {
    JObj([
      ("timestamp", JStr(Render(dt))),
      ("summary", GetOr(data, "summary", JStr(""))),
      ("status", GetStatus(data)),
      ("insights", GetInsights(data)),
      ("goals", ListOrEmpty(data, "goals")),
      ("tags", ListOrEmpty(data, "tags")),
      ("triggerEvents", AliasList(data, "triggerEvents", "trigger_events")),
      ("symptomChecklist", AliasList(data, "symptomChecklist", "symptom_checklist"))
    ])
  }

  /** A list field as written: the template's `[]`, or a truthy value taken from the log. */
  predicate ListField(v: Json)
  {
    v == EMPTY_ARR || Truthy(v)
  }

  /**
   * Every written record has exactly the template's fields, in its order, a twenty-character
   * timestamp, the template's keys inside `status` and `insights`, and no falsy list field.
   */
  lemma RecordHasTemplateShape(dt: DateTime, data: Json)
    requires WellShaped(data) && ValidDateTime(dt) && dt.year == PINNED_YEAR
    ensures var r := CleanRecord(dt, data);
      && Dicts.Keys(r.fields) == Dicts.Keys(TEMPLATE)
      && r.fields[0].1.JStr? && |r.fields[0].1.s| == 20
      && r.fields[2].1 == GetStatus(data) && Dicts.Keys(r.fields[2].1.fields) == Dicts.Keys(TEMPLATE_STATUS.fields)
      && r.fields[3].1 == GetInsights(data) && Dicts.Keys(r.fields[3].1.fields) == Dicts.Keys(TEMPLATE_INSIGHTS.fields)
      && ListField(r.fields[4].1) && ListField(r.fields[5].1)
      && ListField(r.fields[6].1) && ListField(r.fields[7].1)
  {
    RenderLength(dt);
    TopKeys(dt, data);
    StatusKeys(data);
    InsightKeys(data);
    RecordListFields(dt, data);
  }

  lemma RecordListFields(dt: DateTime, data: Json)
    requires WellShaped(data)
    ensures var r := CleanRecord(dt, data);
      ListField(r.fields[4].1) && ListField(r.fields[5].1) && ListField(r.fields[6].1) && ListField(r.fields[7].1)
  {
  }

  lemma TopKeys(dt: DateTime, data: Json)
    requires WellShaped(data)
    ensures Dicts.Keys(CleanRecord(dt, data).fields) == TEMPLATE_KEYS == Dicts.Keys(TEMPLATE)
  {
    RecordKeys(dt, data);
    TemplateKeys();
  }

  lemma RecordKeys(dt: DateTime, data: Json)
    requires WellShaped(data)
    ensures Dicts.Keys(CleanRecord(dt, data).fields) == TEMPLATE_KEYS
  {
    TemplateFieldKeys(JStr(Render(dt)), GetOr(data, "summary", JStr("")), GetStatus(data), GetInsights(data),
      ListOrEmpty(data, "goals"), ListOrEmpty(data, "tags"),
      AliasList(data, "triggerEvents", "trigger_events"),
      AliasList(data, "symptomChecklist", "symptom_checklist"));
  }

  /** The template's keys, in order, whatever the values. */
  lemma TemplateFieldKeys(v0: Json, v1: Json, v2: Json, v3: Json, v4: Json, v5: Json, v6: Json, v7: Json)
    ensures Dicts.Keys([("timestamp", v0), ("summary", v1), ("status", v2), ("insights", v3),
                        ("goals", v4), ("tags", v5), ("triggerEvents", v6), ("symptomChecklist", v7)])
      == TEMPLATE_KEYS
  {
    var ks := Dicts.Keys([("timestamp", v0), ("summary", v1), ("status", v2), ("insights", v3),
                          ("goals", v4), ("tags", v5), ("triggerEvents", v6), ("symptomChecklist", v7)]);
    assert |ks| == |TEMPLATE_KEYS|;
    assert forall k :: 0 <= k < |ks| ==> ks[k] == TEMPLATE_KEYS[k];
  }

  lemma TemplateKeys()
    ensures Dicts.Keys(TEMPLATE) == TEMPLATE_KEYS
  {
    var ks := Dicts.Keys(TEMPLATE);
    assert |ks| == |TEMPLATE_KEYS|;
    assert forall k :: 0 <= k < |ks| ==> ks[k] == TEMPLATE_KEYS[k];
  }

  /** Each status field reads its camelCase key first, then its snake_case alias, then `""`. */
  lemma StatusFields(data: Json)
    requires WellShaped(data)
    ensures var r := GetStatus(data);
      && r.JObj? && |r.fields| == |STATUS_ALIASES|
      && forall k :: 0 <= k < |STATUS_ALIASES| ==>
           r.fields[k] == (STATUS_ALIASES[k].0,
                           Alias(GetOr(data, "status", EMPTY_OBJ), STATUS_ALIASES[k].0, STATUS_ALIASES[k].1, JStr("")))
  {
  }

  /** Each insight list is the source's list when truthy and `[]` otherwise. */
  lemma InsightFields(data: Json)
    requires WellShaped(data)
    ensures var r := GetInsights(data);
      && r.JObj? && |r.fields| == |INSIGHT_KEYS|
      && forall k :: 0 <= k < |INSIGHT_KEYS| ==>
           r.fields[k] == (INSIGHT_KEYS[k], ListOrEmpty(GetOr(data, "insights", EMPTY_OBJ), INSIGHT_KEYS[k]))
  {
  }

  lemma StatusKeys(data: Json)
    requires WellShaped(data)
    ensures Dicts.Keys(GetStatus(data).fields) == Dicts.Keys(TEMPLATE_STATUS.fields)
  {
    StatusFields(data);
    var st := GetStatus(data);
    assert forall k :: 0 <= k < 5 ==> st.fields[k].0 == STATUS_ALIASES[k].0 == TEMPLATE_STATUS.fields[k].0;
  }

  lemma InsightKeys(data: Json)
    requires WellShaped(data)
    ensures Dicts.Keys(GetInsights(data).fields) == Dicts.Keys(TEMPLATE_INSIGHTS.fields)
  {
    InsightFields(data);
    var ins := GetInsights(data);
    assert forall k :: 0 <= k < 3 ==> ins.fields[k].0 == INSIGHT_KEYS[k] == TEMPLATE_INSIGHTS.fields[k].0;
  }

  /** `f"{dt.day}-{dt.month}-{dt.year % 100}"`. */
  function BaseName(dt: DateTime): string
  {
    Text.NatToString(dt.day) + "-" + Text.NatToString(dt.month) + "-" + Text.NatToString(dt.year % 100)
  }

  /** The file name of the log that is number `seen + 1` for its base name. */
  function OutputName(base: string, seen: nat): string
  {
    if seen == 0 then base + ".json" else base + "_" + Text.NatToString(seen + 1) + ".json"
  }

  /** A raw file as listed: its name and its decoded content (`None` when it cannot be read or decoded). */
  datatype RawFile = RawFile(name: string, content: Option<Json>)

  const NOW_FILE := "daily_now.json"

  /**
   * What the loop does with one listed file. `Raises` is a file the script stops on with an
   * uncaught exception: its content is not a dict (`data.get`), or its timestamp parses but
   * its `status` or `insights` is not a dict (`_get_status`, `_get_insights`).
   */
  datatype Step =
    | NotJson
    | RemoveNow
    | Unreadable
    | MissingTimestamp
    | InvalidTimestamp
    | Raises
    | Parsed(dt: DateTime, data: Json)

  /**
   * Only `.json` files are looked at, `daily_now.json` is deleted whatever it holds, and
   * a file is read only when it is neither.
   */
  function Classify(f: RawFile, fromIso: string -> Option<DateTime>): (s: Step)
    requires ValidParser(fromIso)
    ensures s.NotJson? <==> !Text.EndsWith(f.name, ".json")
    ensures s.RemoveNow? <==> f.name == NOW_FILE
    ensures s.Unreadable? <==> Text.EndsWith(f.name, ".json") && f.name != NOW_FILE && f.content.None?
    ensures s.Raises? || s.Parsed? || s.MissingTimestamp? || s.InvalidTimestamp? ==>
      Text.EndsWith(f.name, ".json") && f.name != NOW_FILE && f.content.Some?
    ensures f.content.Some? && !f.content.value.JObj? && Text.EndsWith(f.name, ".json") && f.name != NOW_FILE ==> s.Raises?
    ensures s.Parsed? ==> s.dt.year == PINNED_YEAR && ValidDateTime(s.dt) && WellShaped(s.data) && s.data == f.content.value
  {
    if !Text.EndsWith(f.name, ".json") then NotJson
    else if f.name == NOW_FILE then RemoveNow
    else if f.content.None? then Unreadable
    else
      var data := f.content.value;
      if !data.JObj? then Raises
      else
        var ts := Or(GetNone(data, "timestamp"), GetNone(data, "timeStamp"));
        if !Truthy(ts) then MissingTimestamp
        else if !ts.JStr? then InvalidTimestamp
        else match ParseTimestamp(ts.s, fromIso)
          case None => InvalidTimestamp
          case Some(dt) => if WellShaped(data) then Parsed(dt, data) else Raises
  }

  /** No listed file stops the script. */
  predicate NoneRaise(files: seq<RawFile>, fromIso: string -> Option<DateTime>)
    requires ValidParser(fromIso)
  {
    forall k :: 0 <= k < |files| ==> !Classify(files[k], fromIso).Raises?
  }

  /** The successfully parsed logs, in listing order. */
  function ParsedLogs(files: seq<RawFile>, fromIso: string -> Option<DateTime>): (ps: seq<(DateTime, Json)>)
    requires ValidParser(fromIso)
    ensures forall p :: p in ps ==> WellShaped(p.1) && p.0.year == PINNED_YEAR && ValidDateTime(p.0)
  {
    if files == [] then []
    else
      var init := files[..|files| - 1];
      ParsedLogs(init, fromIso) +
      match Classify(files[|files| - 1], fromIso)
      case Parsed(dt, data) => [(dt, data)]
      case _ => []
  }

  function Bases(ps: seq<(DateTime, Json)>): (bs: seq<string>)
    ensures |bs| == |ps| && forall j :: 0 <= j < |ps| ==> bs[j] == BaseName(ps[j].0)
  {
    seq(|ps|, j requires 0 <= j < |ps| => BaseName(ps[j].0))
  }

  /** How often `x` occurs in `s`. */
  function Occurrences(s: seq<string>, x: string): nat
  {
    if s == [] then 0 else Occurrences(s[..|s| - 1], x) + (if s[|s| - 1] == x then 1 else 0)
  }

  /**
   * The file names the normaliser gives a sequence of parsed logs: each log goes under
   * its base name, suffixed by how many earlier logs share that base.
   */
  function WrittenNames(ps: seq<(DateTime, Json)>): (ns: seq<string>)
    ensures |ns| == |ps|
  {
    if ps == [] then []
    else
      var init := ps[..|ps| - 1];
      var base := BaseName(ps[|ps| - 1].0);
      WrittenNames(init) + [OutputName(base, Occurrences(Bases(init), base))]
  }

  /** Each parsed log's name with its record. */
  function WritesOf(ps: seq<(DateTime, Json)>): (ws: seq<(string, Json)>)
    requires forall p :: p in ps ==> WellShaped(p.1)
    ensures |ws| == |ps|
  {
    var ns := WrittenNames(ps);
    seq(|ps|, j requires 0 <= j < |ps| => (ns[j], CleanRecord(ps[j].0, ps[j].1)))
  }

  /** What the normaliser writes, in order. */
  function Writes(files: seq<RawFile>, fromIso: string -> Option<DateTime>): (ws: seq<(string, Json)>)
    requires ValidParser(fromIso)
  {
    WritesOf(ParsedLogs(files, fromIso))
  }

  lemma OccurrencesSnoc(s: seq<string>, b: string, x: string)
    ensures Occurrences(s + [b], x) == Occurrences(s, x) + (if b == x then 1 else 0)
  {
    assert (s + [b])[..|s|] == s;
  }

  lemma WritesOfSnoc(ps: seq<(DateTime, Json)>, p: (DateTime, Json))
    requires forall q :: q in ps + [p] ==> WellShaped(q.1)
    ensures WritesOf(ps + [p]) ==
              WritesOf(ps) + [(OutputName(BaseName(p.0), Occurrences(Bases(ps), BaseName(p.0))), CleanRecord(p.0, p.1))]
  {
    var ps' := ps + [p];
    assert ps'[..|ps|] == ps;
    var ns, ns' := WrittenNames(ps), WrittenNames(ps');
    assert ns' == ns + [OutputName(BaseName(p.0), Occurrences(Bases(ps), BaseName(p.0)))];
    var ws, ws' := WritesOf(ps), WritesOf(ps');
    forall j | 0 <= j < |ps|
      ensures ws'[j] == ws[j]
    {
      assert ps'[j] == ps[j] && ns'[j] == ns[j];
    }
    assert ws'[|ps|] == (ns'[|ps|], CleanRecord(p.0, p.1));
  }

  /** The j-th written name, read off the parsed logs. */
  lemma {:induction false} WrittenNameAt(ps: seq<(DateTime, Json)>, j: nat)
    requires j < |ps|
    ensures WrittenNames(ps)[j] == OutputName(Bases(ps)[j], Occurrences(Bases(ps)[..j], Bases(ps)[j]))
  {
    var init := ps[..|ps| - 1];
    BasesPrefix(ps, j);
    if j < |ps| - 1 {
      WrittenNameAt(init, j);
      BasesPrefix(init, j);
      assert init[..j] == ps[..j];
    } else {
      assert init == ps[..j];
    }
  }

  /** The base names of a prefix are the prefix of the base names. */
  lemma BasesPrefix(ps: seq<(DateTime, Json)>, j: nat)
    requires j < |ps|
    ensures Bases(ps)[..j] == Bases(ps[..j]) && Bases(ps)[j] == BaseName(ps[j].0)
  {
  }

  lemma ParsedLogsSnoc(files: seq<RawFile>, i: nat, fromIso: string -> Option<DateTime>)
    requires ValidParser(fromIso) && i < |files|
    ensures var s := Classify(files[i], fromIso);
      ParsedLogs(files[..i + 1], fromIso) ==
        ParsedLogs(files[..i], fromIso) + if s.Parsed? then [(s.dt, s.data)] else []
  {
    assert files[..i + 1][..i] == files[..i];
  }

  /** `name_counts.get(base, 0)`. */
  function Count(nameCounts: map<string, nat>, base: string): nat
  {
    if base in nameCounts then nameCounts[base] else 0
  }

  /**
   * `clean_logs`: one pass over the listing that deletes `daily_now.json`, skips what it
   * cannot use and writes every parsed log; `nameCounts` counts the parsed logs per base name.
   * `handled` is how many listed files the pass got through: all of them, unless a file
   * raises, which stops the script there with what it has done so far.
   */
  method CleanLogs(files: seq<RawFile>, fromIso: string -> Option<DateTime>)
    returns (writes: seq<(string, Json)>, removed: seq<string>, handled: nat)
    requires ValidParser(fromIso)
    ensures handled <= |files| && NoneRaise(files[..handled], fromIso)
    ensures handled < |files| ==> Classify(files[handled], fromIso).Raises?
    ensures handled == |files| <==> NoneRaise(files, fromIso)
    ensures writes == Writes(files[..handled], fromIso)
    ensures removed == NowFiles(files[..handled])
  {
    var nameCounts: map<string, nat> := map[];
    writes, removed, handled := [], [], |files|;
    for i := 0 to |files|
      invariant NoneRaise(files[..i], fromIso)
      invariant writes == Writes(files[..i], fromIso)
      invariant removed == NowFiles(files[..i])
      invariant Counted(nameCounts, ParsedLogs(files[..i], fromIso))
    {
      var f := files[i];
      var step := Classify(f, fromIso);
      if step.Raises? {
        handled := i;
        return;
      }
      NoneRaiseSnoc(files, i, fromIso);
      RemoveStep(files, i, fromIso);
      if step.RemoveNow? {
        removed := removed + [f.name];
      }
      if step.Parsed? {
        var dt, data := step.dt, step.data;
        var newFilename, nameCounts' := NextName(dt, nameCounts);
        WriteStep(files, i, fromIso, dt, data, nameCounts, nameCounts', writes, newFilename);
        nameCounts := nameCounts';
        writes := writes + [(newFilename, CleanRecord(dt, data))];
      } else {
        SkipStep(files, i, fromIso);
      }
    }
    assert files[..|files|] == files;
  }

  /** The name a parsed log is written under, and the counts once it is taken. */
  method NextName(dt: DateTime, nameCounts: map<string, nat>) returns (name: string, nameCounts': map<string, nat>)
    ensures name == OutputName(BaseName(dt), Count(nameCounts, BaseName(dt)))
    ensures Count(nameCounts', BaseName(dt)) == Count(nameCounts, BaseName(dt)) + 1
    ensures forall b :: b != BaseName(dt) ==> Count(nameCounts', b) == Count(nameCounts, b)
  {
    var baseName := BaseName(dt);
    var count := Count(nameCounts, baseName);
    if count != 0 {
      name := baseName + "_" + Text.NatToString(count + 1) + ".json";
    } else {
      name := baseName + ".json";
    }
    nameCounts' := nameCounts[baseName := count + 1];
  }

  /** `name_counts` holds, for every base name, how many of the parsed logs have it. */
  ghost predicate Counted(nameCounts: map<string, nat>, ps: seq<(DateTime, Json)>)
  {
    forall b :: Count(nameCounts, b) == Occurrences(Bases(ps), b)
  }

  /** One more parsed log bumps its base name's count and no other. */
  lemma CountsSnoc(ps: seq<(DateTime, Json)>, p: (DateTime, Json), nameCounts: map<string, nat>, nameCounts': map<string, nat>)
    requires Counted(nameCounts, ps)
    requires Count(nameCounts', BaseName(p.0)) == Count(nameCounts, BaseName(p.0)) + 1
    requires forall b :: b != BaseName(p.0) ==> Count(nameCounts', b) == Count(nameCounts, b)
    ensures Counted(nameCounts', ps + [p])
  {
    assert Bases(ps + [p]) == Bases(ps) + [BaseName(p.0)];
    forall b ensures Count(nameCounts', b) == Occurrences(Bases(ps + [p]), b) {
      OccurrencesSnoc(Bases(ps), BaseName(p.0), b);
    }
  }

  lemma NowFilesSnoc(files: seq<RawFile>, i: nat)
    requires i < |files|
    ensures NowFiles(files[..i + 1]) == NowFiles(files[..i]) + if files[i].name == NOW_FILE then [files[i].name] else []
  {
    assert Names(files[..i + 1]) == Names(files[..i]) + [files[i].name];
  }

  /** A file that does not raise extends a prefix on which none does. */
  lemma NoneRaiseSnoc(files: seq<RawFile>, i: nat, fromIso: string -> Option<DateTime>)
    requires ValidParser(fromIso) && i < |files|
    requires NoneRaise(files[..i], fromIso) && !Classify(files[i], fromIso).Raises?
    ensures NoneRaise(files[..i + 1], fromIso)
  {
    assert forall k :: 0 <= k < i ==> files[..i + 1][k] == files[..i][k];
  }

  /** Only `daily_now.json` is deleted, whatever it holds. */
  lemma RemoveStep(files: seq<RawFile>, i: nat, fromIso: string -> Option<DateTime>)
    requires ValidParser(fromIso) && i < |files|
    ensures var removedNow := Classify(files[i], fromIso).RemoveNow?;
      NowFiles(files[..i + 1]) == NowFiles(files[..i]) + if removedNow then [files[i].name] else []
  {
    NowFilesSnoc(files, i);
  }

  /** A file the loop skips leaves the writes and the counts as they were. */
  lemma SkipStep(files: seq<RawFile>, i: nat, fromIso: string -> Option<DateTime>)
    requires ValidParser(fromIso) && i < |files|
    requires !Classify(files[i], fromIso).Parsed?
    ensures ParsedLogs(files[..i + 1], fromIso) == ParsedLogs(files[..i], fromIso)
    ensures Writes(files[..i + 1], fromIso) == Writes(files[..i], fromIso)
  {
    ParsedLogsSnoc(files, i, fromIso);
  }

  /** A parsed file adds one write, named after its base and that base's count so far. */
  lemma WriteStep(files: seq<RawFile>, i: nat, fromIso: string -> Option<DateTime>, dt: DateTime, data: Json,
                  nameCounts: map<string, nat>, nameCounts': map<string, nat>, writes: seq<(string, Json)>, name: string)
    requires ValidParser(fromIso) && i < |files|
    requires Classify(files[i], fromIso) == Parsed(dt, data)
    requires writes == Writes(files[..i], fromIso)
    requires Counted(nameCounts, ParsedLogs(files[..i], fromIso))
    requires Count(nameCounts', BaseName(dt)) == Count(nameCounts, BaseName(dt)) + 1
    requires forall b :: b != BaseName(dt) ==> Count(nameCounts', b) == Count(nameCounts, b)
    requires name == OutputName(BaseName(dt), Count(nameCounts, BaseName(dt)))
    ensures writes + [(name, CleanRecord(dt, data))] == Writes(files[..i + 1], fromIso)
    ensures Counted(nameCounts', ParsedLogs(files[..i + 1], fromIso))
  {
    ParsedLogsSnoc(files, i, fromIso);
    var ps := ParsedLogs(files[..i], fromIso);
    WritesOfSnoc(ps, (dt, data));
    CountsSnoc(ps, (dt, data), nameCounts, nameCounts');
  }

  function Names(files: seq<RawFile>): (ns: seq<string>)
    ensures |ns| == |files| && forall k :: 0 <= k < |files| ==> ns[k] == files[k].name
  {
    seq(|files|, k requires 0 <= k < |files| => files[k].name)
  }

  /** The listed names the loop deletes. */
  function NowFiles(files: seq<RawFile>): seq<string>
  {
    Seqs.Filter(Names(files), (n: string) => n == NOW_FILE)
  }

  /** Base names consist of digits and dashes only. */
  predicate IsBase(b: string)
  {
    forall k :: 0 <= k < |b| ==> Text.IsDigit(b[k]) || b[k] == '-'
  }

  lemma BaseNameIsBase(dt: DateTime)
    ensures IsBase(BaseName(dt))
  {
    var d, m, y := Text.NatToString(dt.day), Text.NatToString(dt.month), Text.NatToString(dt.year % 100);
    assert BaseName(dt) == d + "-" + m + "-" + y;
  }

  /**
   * Different (base, count) pairs never produce the same file name: the suffix starts
   * with `.` or `_`, which no base contains, and the counter is read back from the digits.
   */
  lemma OutputNameInjective(b1: string, o1: nat, b2: string, o2: nat)
    requires IsBase(b1) && IsBase(b2) && OutputName(b1, o1) == OutputName(b2, o2)
    ensures b1 == b2 && o1 == o2
  {
    var s := OutputName(b1, o1);
    OutputNameParts(b1, o1);
    OutputNameParts(b2, o2);
    if |b1| != |b2| {
      assert false;
    }
    assert b1 == s[..|b1|] == b2;
    if o1 != 0 && o2 != 0 {
      var n1, n2 := Text.NatToString(o1 + 1), Text.NatToString(o2 + 1);
      DropJson(n1, n2);
      Text.NatToStringInjective(o1 + 1, o2 + 1);
    }
  }

  /** The base, then `.` for the first log or `_` and the counter, then `.json`. */
  lemma OutputNameParts(b: string, o: nat)
    ensures var s := OutputName(b, o);
      && |s| > |b| && s[..|b|] == b && s[|b|] == (if o == 0 then '.' else '_')
      && (o != 0 ==> s[|b| + 1..] == Text.NatToString(o + 1) + ".json")
  {
    var s := OutputName(b, o);
    var tail := if o == 0 then ".json" else "_" + Text.NatToString(o + 1) + ".json";
    assert s == b + tail;
    assert s[..|b|] == b && s[|b|] == tail[0];
    if o != 0 {
      assert s[|b| + 1..] == tail[1..];
    }
  }

  lemma DropJson(a: string, b: string)
    requires a + ".json" == b + ".json"
    ensures a == b
  {
    assert a == (a + ".json")[..|a|];
    assert b == (b + ".json")[..|b|];
  }

  lemma {:induction false} OccurrencesMonotone(s: seq<string>, i: nat, j: nat, x: string)
    requires i <= j <= |s|
    ensures Occurrences(s[..i], x) <= Occurrences(s[..j], x)
  {
    if i < j {
      OccurrencesMonotone(s, i, j - 1, x);
      assert s[..j][..j - 1] == s[..j - 1];
    }
  }

  /** No two writes share a file name, so no parsed log overwrites another. */
  lemma WrittenNamesDistinct(ps: seq<(DateTime, Json)>)
    ensures var ws := WrittenNames(ps);
      forall j1, j2 :: 0 <= j1 < j2 < |ws| ==> ws[j1] != ws[j2]
  {
    var ws, bs := WrittenNames(ps), Bases(ps);
    forall k | 0 <= k < |bs| ensures IsBase(bs[k]) {
      BaseNameIsBase(ps[k].0);
    }
    forall j1, j2 | 0 <= j1 < j2 < |ws|
      ensures ws[j1] != ws[j2]
    {
      WrittenNameAt(ps, j1);
      WrittenNameAt(ps, j2);
      DistinctPair(bs, j1, j2);
    }
  }

  /** The names given to two different positions of a list of base names differ. */
  lemma DistinctPair(bs: seq<string>, j1: nat, j2: nat)
    requires j1 < j2 < |bs| && IsBase(bs[j1]) && IsBase(bs[j2])
    ensures OutputName(bs[j1], Occurrences(bs[..j1], bs[j1])) != OutputName(bs[j2], Occurrences(bs[..j2], bs[j2]))
  {
    var o1, o2 := Occurrences(bs[..j1], bs[j1]), Occurrences(bs[..j2], bs[j2]);
    if OutputName(bs[j1], o1) == OutputName(bs[j2], o2) {
      OutputNameInjective(bs[j1], o1, bs[j2], o2);
      OccurrencesMonotone(bs, j1 + 1, j2, bs[j1]);
      assert bs[..j1 + 1] == bs[..j1] + [bs[j1]];
      OccurrencesSnoc(bs[..j1], bs[j1], bs[j1]);
    }
  }

  /** Every written name is a base ending in `-25`, the pinned year's last two digits. */
  lemma WrittenNamesEndIn25(ps: seq<(DateTime, Json)>)
    requires forall p :: p in ps ==> p.0.year == PINNED_YEAR
    ensures var ws := WrittenNames(ps);
      forall j :: 0 <= j < |ws| ==>
        Text.StartsWith(ws[j], BaseName(ps[j].0)) && Text.EndsWith(BaseName(ps[j].0), "-25")
  {
    forall j | 0 <= j < |ps|
      ensures Text.StartsWith(WrittenNames(ps)[j], BaseName(ps[j].0)) && Text.EndsWith(BaseName(ps[j].0), "-25")
    {
      WrittenNameAt(ps, j);
      assert ps[j] in ps;
      BaseEndsIn25(ps[j].0);
      OutputNameExtendsBase(BaseName(ps[j].0), Occurrences(Bases(ps)[..j], Bases(ps)[j]));
    }
  }

  lemma BaseEndsIn25(dt: DateTime)
    requires dt.year == PINNED_YEAR
    ensures Text.EndsWith(BaseName(dt), "-25")
  {
    var b := BaseName(dt);
    assert Text.NatToString(25) == "25";
    assert b == Text.NatToString(dt.day) + "-" + Text.NatToString(dt.month) + "-" + "25";
  }

  lemma OutputNameExtendsBase(base: string, seen: nat)
    ensures Text.StartsWith(OutputName(base, seen), base)
  {
    assert OutputName(base, seen)[..|base|] == base;
  }

  /** A log stamped 2024-01-01T08:00:00Z is re-dated to 2025 and written as `1-1-25.json`. */
  lemma NewYearExample(fromIso: string -> Option<DateTime>)
    requires ValidParser(fromIso)
    requires fromIso("2024-01-01T08:00:00") == Some(DateTime(2024, 1, 1, 8, 0, 0, 0, None))
    ensures var dt := DateTime(2025, 1, 1, 8, 0, 0, 0, None);
      && ParseTimestamp("2024-01-01T08:00:00Z", fromIso) == Some(dt)
      && OutputName(BaseName(dt), 0) == "1-1-25.json"
      && OutputName(BaseName(dt), 1) == "1-1-25_2.json"
      && Render(dt) == "2025-01-01T08:00:00Z"
  {
    ExampleDropZ();
    ExampleNames();
    ExampleRender();
  }

  lemma ExampleDropZ()
    ensures DropZ("2024-01-01T08:00:00Z") == "2024-01-01T08:00:00"
  {
    var body := "2024-01-01T08:00:00";
    assert body[0] == '2';
    DropZTrimmed(body);
    assert body + "Z" == "2024-01-01T08:00:00Z";
  }

  /** A timestamp with no surrounding whitespace loses exactly its trailing `Z`. */
  lemma DropZTrimmed(body: string)
    requires body != [] && !Text.IsSpace(body[0])
    ensures DropZ(body + "Z") == body
  {
    var s := body + "Z";
    assert s[0] == body[0] && s[|s| - 1] == 'Z';
    Text.StripTrimmed(s);
    assert s[|s| - 1..] == "Z";
    assert s[..|s| - 1] == body;
  }

  lemma ExampleNames()
    ensures var dt := DateTime(2025, 1, 1, 8, 0, 0, 0, None);
      OutputName(BaseName(dt), 0) == "1-1-25.json" && OutputName(BaseName(dt), 1) == "1-1-25_2.json"
  {
    assert Text.NatToString(25) == "25";
  }

  lemma ExampleRender()
    ensures Render(DateTime(2025, 1, 1, 8, 0, 0, 0, None)) == "2025-01-01T08:00:00Z"
  {
    Year2025();
    OneDigit(1);
    OneDigit(8);
    OneDigit(0);
    ExampleRenderPieces();
  }

  lemma Year2025()
    ensures Text.ZeroPad(2025, 4) == "2025"
  {
    assert Text.NatToString(2025) == "2025";
  }

  lemma ExampleRenderPieces()
    ensures "2025" + "-" + "01" + "-" + "01" + "T" + "08" + ":" + "00" + ":" + "00" + "Z" == "2025-01-01T08:00:00Z"
  {
  }

  lemma OneDigit(n: nat)
    requires n < 10
    ensures Two(n) == ['0', Text.DigitChar(n)]
  {
    assert Text.NatToString(n) == [Text.DigitChar(n)];
    assert Text.Zeros(1) == "0";
  }
}
