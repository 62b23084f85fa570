/**
 * The Google Sheets importer: each tab's rows are cleaned cell by cell, shaped into
 * entries (a fixed layout for the three known tabs, every non-empty column for the
 * others), and each entry's text is joined with " | " for the embedding file.
 */
module GoogleSheets {
  import opened Wrappers
  import opened Json
  import Text
  import Seqs
  import Dicts

  // ---------------------------------------------------------------------------------
  // Cells and frames
  // ---------------------------------------------------------------------------------

  /** A cell as `row.get(col, '')` yields it: pandas' missing value, or a value whose `str()` is `text`. */
  datatype Cell = Missing | Value(text: string)

  /** A data frame: its column names and, per row, the cells in column order. */
  datatype Frame = Frame(columns: seq<string>, rows: seq<seq<Cell>>)

  /** An entry as the importer builds it: a dict of column keys to values, in insertion order. */
  type Entry = seq<(string, Json)>

  /** `df.empty`: no rows or no columns. */
  predicate Empty(df: Frame)
  {
    |df.rows| == 0 || |df.columns| == 0
  }

  /** The first column called `name`. */
  function IndexOf(columns: seq<string>, name: string): (r: Option<nat>)
    ensures r.Some? ==> r.value < |columns| && columns[r.value] == name
    ensures r.None? ==> name !in columns
  {
    if columns == [] then None
    else if columns[0] == name then Some(0)
    else
      var r := IndexOf(columns[1..], name);
      if r.Some? then Some(r.value + 1) else None
  }

  /** `row.get(name, '')`: the row's cell under `name`, or `''` when the frame has no such column. */
  function CellOf(columns: seq<string>, row: seq<Cell>, name: string): Cell
  {
    match IndexOf(columns, name)
    case None => Value("")
    case Some(k) => if k < |row| then row[k] else Missing
  }

  // ---------------------------------------------------------------------------------
  // clean_text
  // ---------------------------------------------------------------------------------

  /** The class `\w`, over ASCII: letters, digits and `_`. */
  predicate IsWordChar(c: char)
  {
    'a' <= c <= 'z' || 'A' <= c <= 'Z' || '0' <= c <= '9' || c == '_'
  }

  /** What the character filter keeps: `\w`, `\s` and `. , ! ? ; : - ( )`. */
  predicate Allowed(c: char)
  {
    IsWordChar(c) || Text.IsSpace(c)
    || c == '.' || c == ',' || c == '!' || c == '?' || c == ';' || c == ':' || c == '-' || c == '(' || c == ')'
  }

  predicate NotSpace(c: char)
  {
    !Text.IsSpace(c)
  }

  /** A character that survives the filter and is not whitespace. */
  predicate Visible(c: char)
  {
    Allowed(c) && NotSpace(c)
  }

  /** `re.sub(r'\s+', ' ', s)`: every maximal run of whitespace becomes one space. */
  function CollapseSpaces(s: string): (r: string)
    ensures |r| <= |s|
  {
    if s == [] then []
    else
      var init, c := s[..|s| - 1], s[|s| - 1];
      if !Text.IsSpace(c) then CollapseSpaces(init) + [c]
      else if init != [] && Text.IsSpace(init[|init| - 1]) then CollapseSpaces(init)
      else CollapseSpaces(init) + [' ']
  }

  /** The result of the collapse. */
  predicate Collapsed(s: string, r: string)
  {
    (forall k :: 0 <= k < |r| && Text.IsSpace(r[k]) ==> r[k] == ' ')
    && (forall k :: 0 <= k < |r| - 1 ==> !(r[k] == ' ' && r[k + 1] == ' '))
    && (r == [] <==> s == [])
    && (r != [] ==> (r[|r| - 1] == ' ' <==> Text.IsSpace(s[|s| - 1])))
  }

  /**
   * The collapse holds no whitespace but plain spaces, never two spaces in a row, is
   * empty only for empty input, and ends in a space exactly when `s` ends in whitespace.
   */
  lemma {:induction false} CollapseShape(s: string)
    ensures Collapsed(s, CollapseSpaces(s))
  {
    if s != [] {
      var init, c := s[..|s| - 1], s[|s| - 1];
      CollapseShape(init);
      var r := CollapseSpaces(init);
      if !Text.IsSpace(c) {
        assert CollapseSpaces(s) == r + [c];
      } else if !(init != [] && Text.IsSpace(init[|init| - 1])) {
        assert CollapseSpaces(s) == r + [' '];
      } else {
        assert CollapseSpaces(s) == r;
      }
    }
  }

  /** The collapse only rewrites whitespace: the other characters stay, in order. */
  lemma {:induction false} CollapseKeepsText(s: string)
    ensures Seqs.Filter(CollapseSpaces(s), NotSpace) == Seqs.Filter(s, NotSpace)
  {
    if s != [] {
      var init, c := s[..|s| - 1], s[|s| - 1];
      assert s == init + [c];
      CollapseKeepsText(init);
      var tail := CollapseSnoc(init, c);
      Seqs.FilterAppend(CollapseSpaces(init), tail, NotSpace);
      Seqs.FilterSnoc(init, c, NotSpace);
    }
  }

  /** Appending `c` appends to the collapse a piece that keeps exactly what `[c]` keeps. */
  lemma CollapseSnoc(init: string, c: char) returns (tail: string)
    ensures CollapseSpaces(init + [c]) == CollapseSpaces(init) + tail
    ensures Seqs.Filter(tail, NotSpace) == if NotSpace(c) then [c] else []
  {
    var s := init + [c];
    assert s[..|s| - 1] == init && s[|s| - 1] == c;
    if !Text.IsSpace(c) {
      tail := [c];
    } else if init != [] && Text.IsSpace(init[|init| - 1]) {
      tail := [];
    } else {
      tail := [' '];
    }
    assert tail == [] || tail[..|tail| - 1] == [];
  }

  /** `strip` only cuts whitespace: the other characters stay, in order. */
  lemma StripKeepsText(s: string)
    ensures Seqs.Filter(Text.Strip(s), NotSpace) == Seqs.Filter(s, NotSpace)
  {
    var i := Text.StripSlice(s);
    Seqs.FilterTrimmed(s, Text.Strip(s), i, i + |Text.Strip(s)|, NotSpace);
  }

  /** Every character of `Strip(s)` is a character of `s`. */
  lemma StripChars(s: string)
    ensures forall c :: c in Text.Strip(s) ==> c in s
  {
    var i := Text.StripSlice(s);
    forall c | c in Text.Strip(s)
      ensures c in s
    {
      var k :| 0 <= k < |Text.Strip(s)| && Text.Strip(s)[k] == c;
      assert s[i + k] == c;
    }
  }

  /**
   * `clean_text(value)`: a missing value or `""` gives `""`; otherwise whitespace runs
   * collapse to one space, the ends are stripped, and then every character outside the
   * allowed set is deleted.
   */
  function Clean(cell: Cell): (r: string)
    ensures cell.Missing? || cell.text == "" ==> r == ""
  {
    match cell
    case Missing => ""
    case Value(s) => if s == "" then "" else Seqs.Filter(Text.Strip(CollapseSpaces(s)), Allowed)
  }

  /** Only allowed characters remain after cleaning, and the only whitespace is the plain space. */
  lemma CleanChars(cell: Cell)
    ensures forall k :: 0 <= k < |Clean(cell)| ==>
      Allowed(Clean(cell)[k]) && (Text.IsSpace(Clean(cell)[k]) ==> Clean(cell)[k] == ' ')
  {
    if cell.Value? && cell.text != "" {
      var collapsed := CollapseSpaces(cell.text);
      CollapseShape(cell.text);
      StripChars(collapsed);
      forall k | 0 <= k < |Clean(cell)|
        ensures Allowed(Clean(cell)[k]) && (Text.IsSpace(Clean(cell)[k]) ==> Clean(cell)[k] == ' ')
      {
        var c := Clean(cell)[k];
        assert c in Clean(cell);
        assert c in collapsed;
        var i :| 0 <= i < |collapsed| && collapsed[i] == c;
      }
    }
  }

  /**
   * The visible characters of the cleaned text are exactly the allowed visible characters
   * of the input, in order: cleaning deletes symbols and rewrites whitespace, nothing else.
   */
  lemma CleanKeepsText(s: string)
    ensures Seqs.Filter(Clean(Value(s)), NotSpace) == Seqs.Filter(s, Visible)
  {
    if s != "" {
      var c := CollapseSpaces(s);
      var t := Text.Strip(c);
      VisibleBoth();
      Seqs.FilterFilter(t, Allowed, NotSpace, Visible);
      Seqs.FilterFilter(t, NotSpace, Allowed, Visible);
      StripKeepsText(c);
      CollapseKeepsText(s);
      Seqs.FilterFilter(s, NotSpace, Allowed, Visible);
      assert Seqs.Filter(t, Visible) == Seqs.Filter(Seqs.Filter(s, NotSpace), Allowed);
    }
  }

  lemma VisibleBoth()
    ensures forall x :: Visible(x) == (Allowed(x) && NotSpace(x))
    ensures forall x :: Visible(x) == (NotSpace(x) && Allowed(x))
  {
  }

  /** A string already free of whitespace runs and of whitespace other than spaces is left alone. */
  lemma {:induction false} CollapseFixed(s: string)
    requires forall k :: 0 <= k < |s| && Text.IsSpace(s[k]) ==> s[k] == ' '
    requires forall k :: 0 <= k < |s| - 1 ==> !(s[k] == ' ' && s[k + 1] == ' ')
    ensures CollapseSpaces(s) == s
  {
    if s != [] {
      var init := s[..|s| - 1];
      assert forall k :: 0 <= k < |init| ==> init[k] == s[k];
      CollapseFixed(init);
    }
  }

  /** `"a # b"` has no whitespace run to collapse and nothing to strip. */
  lemma CollapseExample()
    ensures Text.Strip(CollapseSpaces("a # b")) == "a # b"
  {
    var s := "a # b";
    assert s[0] == 'a' && s[1] == ' ' && s[2] == '#' && s[3] == ' ' && s[4] == 'b';
    CollapseFixed(s);
  }

  lemma FilterExampleStart()
    ensures Seqs.Filter("a #", Allowed) == ['a', ' ']
  {
    assert Allowed('a') && Allowed(' ') && !Allowed('#');
    assert "a #" == "a " + ['#'] && "a " == "a" + [' '] && "a" == [] + ['a'];
    Seqs.FilterSnoc([], 'a', Allowed);
    Seqs.FilterSnoc("a", ' ', Allowed);
    Seqs.FilterSnoc("a ", '#', Allowed);
  }

  lemma FilterExample()
    ensures Seqs.Filter("a # b", Allowed) == ['a', ' ', ' ', 'b']
  {
    assert "a # b" == "a #" + " b";
    Seqs.FilterAppend("a #", " b", Allowed);
    FilterExampleStart();
    assert Allowed(' ') && Allowed('b');
    Seqs.FilterAll(" b", Allowed);
  }

  /**
   * The filter runs after the collapse, so a symbol standing between two spaces
   * leaves a double space behind: `"a # b"` cleans to `"a  b"`.
   */
  lemma SymbolBetweenSpaces()
    ensures Clean(Value("a # b")) == ['a', ' ', ' ', 'b']
  {
    CollapseExample();
    FilterExample();
  }

  // ---------------------------------------------------------------------------------
  // The three known tabs: format_samdaily_data, format_energy_modes_data, format_prompts_data
  // ---------------------------------------------------------------------------------

  /**
   * A fixed tab layout: each entry key with the column it is read from, the source tag,
   * and the two keys of which at least one must be non-empty for the row to be kept.
   */
  datatype Layout = Layout(fields: seq<(string, string)>, source: string, required: (string, string))

  const SAMDAILY := Layout(
    [("date", "Date"), ("summary", "Summary"), ("mood", "Mood"), ("energy", "Energy"),
     ("tags", "Tags"), ("wins", "Wins"), ("losses", "Losses"), ("notes", "Notes")],
    "google_sheets_samdaily", ("summary", "notes"))

  const ENERGY_MODES := Layout(
    [("date", "Date"), ("energy_mode", "Energy Mode"), ("description", "Description"),
     ("triggers", "Triggers"), ("coping_strategies", "Coping Strategies")],
    "google_sheets_energy_modes", ("energy_mode", "description"))

  const PROMPTS := Layout(
    [("prompt_type", "Prompt Type"), ("prompt_text", "Prompt Text"), ("response", "Response"), ("date", "Date")],
    "google_sheets_prompts", ("prompt_text", "response"))

  /** The row's entry: every layout key with its cleaned cell, in layout order, then the source tag. */
  function TypedEntry(layout: Layout, columns: seq<string>, row: seq<Cell>): (e: Entry)
    ensures Dicts.Keys(e) == Dicts.Keys(layout.fields) + ["source"]
    ensures e[|e| - 1] == ("source", JStr(layout.source))
    ensures forall k :: 0 <= k < |layout.fields| ==> e[k].1 == JStr(Clean(CellOf(columns, row, layout.fields[k].1)))
  {
    seq(|layout.fields|, k requires 0 <= k < |layout.fields| =>
      (layout.fields[k].0, JStr(Clean(CellOf(columns, row, layout.fields[k].1)))))
    + [("source", JStr(layout.source))]
  }

  /** `entry[key]` is truthy. */
  predicate FieldSet(e: Entry, key: string)
  {
    match Dicts.Get(e, key)
    case Some(v) => Truthy(v)
    case None => false
  }

  /** `entry[a] or entry[b]` for the layout's two required keys. */
  predicate Meaningful(layout: Layout, e: Entry)
  {
    FieldSet(e, layout.required.0) || FieldSet(e, layout.required.1)
  }

  function KeepRule(layout: Layout): Entry -> bool
  {
    e => Meaningful(layout, e)
  }

  /** The entry of every row, kept or not, in row order. */
  function RowEntries(layout: Layout, columns: seq<string>, rows: seq<seq<Cell>>): (r: seq<Entry>)
    ensures |r| == |rows| && forall k :: 0 <= k < |rows| ==> r[k] == TypedEntry(layout, columns, rows[k])
  {
    if rows == [] then []
    else RowEntries(layout, columns, rows[..|rows| - 1]) + [TypedEntry(layout, columns, rows[|rows| - 1])]
  }

  lemma RowEntriesSnoc(layout: Layout, columns: seq<string>, rows: seq<seq<Cell>>, i: nat)
    requires i < |rows|
    ensures RowEntries(layout, columns, rows[..i + 1])
      == RowEntries(layout, columns, rows[..i]) + [TypedEntry(layout, columns, rows[i])]
  {
    assert rows[..i + 1][..i] == rows[..i];
  }

  /** The entries a known tab yields: the meaningful ones, in row order. */
  function Typed(layout: Layout, df: Frame): seq<Entry>
  {
    Seqs.Filter(RowEntries(layout, df.columns, df.rows), KeepRule(layout))
  }

  /** `format_samdaily_data`, `format_energy_modes_data` and `format_prompts_data`, each with its layout. */
  method FormatTyped(layout: Layout, df: Frame) returns (entries: seq<Entry>)
    ensures entries == Typed(layout, df)
  {
    ghost var all := EntriesOfRows(layout, df.columns, df.rows);
    entries := [];
    for i := 0 to |df.rows|
      invariant entries == Seqs.Filter(all[..i], KeepRule(layout))
    {
      var entry := TypedEntry(layout, df.columns, df.rows[i]);
      assert entry == all[i];
      Seqs.TakeSnoc(all, i);
      Seqs.FilterSnoc(all[..i], entry, KeepRule(layout));
      if Meaningful(layout, entry) {
        entries := entries + [entry];
      }
    }
    assert all[..|df.rows|] == all;
    RowEntriesAre(layout, df.columns, df.rows, all);
  }

  /** The row entries as a plain sequence, one per row. */
  lemma EntriesOfRows(layout: Layout, columns: seq<string>, rows: seq<seq<Cell>>) returns (all: seq<Entry>)
    ensures |all| == |rows| && forall k :: 0 <= k < |rows| ==> all[k] == TypedEntry(layout, columns, rows[k])
  {
    all := RowEntries(layout, columns, rows);
  }

  lemma RowEntriesAre(layout: Layout, columns: seq<string>, rows: seq<seq<Cell>>, all: seq<Entry>)
    requires |all| == |rows| && forall k :: 0 <= k < |rows| ==> all[k] == TypedEntry(layout, columns, rows[k])
    ensures all == RowEntries(layout, columns, rows)
  {
  }

  lemma RowEntriesMembers(layout: Layout, columns: seq<string>, rows: seq<seq<Cell>>, e: Entry)
    ensures e in RowEntries(layout, columns, rows) <==>
      exists i :: 0 <= i < |rows| && e == TypedEntry(layout, columns, rows[i])
  {
    var all := RowEntries(layout, columns, rows);
    if e in all {
      var i :| 0 <= i < |all| && all[i] == e;
      assert e == TypedEntry(layout, columns, rows[i]);
    }
    if exists i :: 0 <= i < |rows| && e == TypedEntry(layout, columns, rows[i]) {
      var i :| 0 <= i < |rows| && e == TypedEntry(layout, columns, rows[i]);
      assert all[i] == e;
    }
  }

  /** An entry is formatted exactly when some row yields it and it is meaningful; the order is the rows' order. */
  lemma TypedRows(layout: Layout, df: Frame)
    ensures forall e :: e in Typed(layout, df) <==>
      (exists i :: 0 <= i < |df.rows| && e == TypedEntry(layout, df.columns, df.rows[i])) && Meaningful(layout, e)
    ensures Seqs.IsSubsequence(Typed(layout, df), RowEntries(layout, df.columns, df.rows))
  {
    var all := RowEntries(layout, df.columns, df.rows);
    Seqs.FilterIsSubsequence(all, KeepRule(layout));
    forall e
      ensures e in Typed(layout, df) <==>
        (exists i :: 0 <= i < |df.rows| && e == TypedEntry(layout, df.columns, df.rows[i])) && Meaningful(layout, e)
    {
      Seqs.FilterMember(all, KeepRule(layout), e);
      RowEntriesMembers(layout, df.columns, df.rows, e);
    }
  }

  /** The layout's keys, the source tag included, are pairwise different. */
  predicate WellLaid(layout: Layout)
  {
    Seqs.Distinct(Dicts.Keys(layout.fields) + ["source"])
  }

  /** A row is kept exactly when the cleaned cell behind one of the two required keys is non-empty. */
  lemma TypedKept(layout: Layout, columns: seq<string>, row: seq<Cell>, i: nat, j: nat)
    requires WellLaid(layout)
    requires i < |layout.fields| && layout.fields[i].0 == layout.required.0
    requires j < |layout.fields| && layout.fields[j].0 == layout.required.1
    ensures Meaningful(layout, TypedEntry(layout, columns, row)) <==>
      (Clean(CellOf(columns, row, layout.fields[i].1)) != "" || Clean(CellOf(columns, row, layout.fields[j].1)) != "")
  {
    var e := TypedEntry(layout, columns, row);
    var a, b := Clean(CellOf(columns, row, layout.fields[i].1)), Clean(CellOf(columns, row, layout.fields[j].1));
    KeptByFields(layout, e, i, j);
    KeptByText(layout, e, i, j, a, b);
  }

  lemma KeptByText(layout: Layout, e: Entry, i: nat, j: nat, a: string, b: string)
    requires i < |e| && j < |e| && e[i].1 == JStr(a) && e[j].1 == JStr(b)
    requires Meaningful(layout, e) <==> Truthy(e[i].1) || Truthy(e[j].1)
    ensures Meaningful(layout, e) <==> a != "" || b != ""
  {
  }

  /** For an entry keyed like the layout, the keep rule reads the two required fields where they stand. */
  lemma KeptByFields(layout: Layout, e: Entry, i: nat, j: nat)
    requires WellLaid(layout) && Dicts.Keys(e) == Dicts.Keys(layout.fields) + ["source"]
    requires i < |layout.fields| && layout.fields[i].0 == layout.required.0
    requires j < |layout.fields| && layout.fields[j].0 == layout.required.1
    ensures Meaningful(layout, e) <==> Truthy(e[i].1) || Truthy(e[j].1)
  {
    assert Dicts.UniqueKeys(e) by {
      forall a, b | 0 <= a < b < |e|
        ensures e[a].0 != e[b].0
      {
        assert Dicts.Keys(e)[a] == e[a].0 && Dicts.Keys(e)[b] == e[b].0;
      }
    }
    assert e[i].0 == Dicts.Keys(e)[i] == layout.fields[i].0;
    assert e[j].0 == Dicts.Keys(e)[j] == layout.fields[j].0;
    Dicts.GetUnique(e, i);
    Dicts.GetUnique(e, j);
  }

  /** A samdaily row is kept exactly when its cleaned Summary or Notes is non-empty. */
  lemma SamdailyKept(columns: seq<string>, row: seq<Cell>)
    ensures Dicts.Keys(TypedEntry(SAMDAILY, columns, row))
      == ["date", "summary", "mood", "energy", "tags", "wins", "losses", "notes", "source"]
    ensures Meaningful(SAMDAILY, TypedEntry(SAMDAILY, columns, row)) <==>
      (Clean(CellOf(columns, row, "Summary")) != "" || Clean(CellOf(columns, row, "Notes")) != "")
  {
    SamdailyLaid();
    TypedKept(SAMDAILY, columns, row, 1, 7);
  }

  /** The samdaily keys, the source tag included, in order and pairwise different. */
  lemma SamdailyLaid()
    ensures Dicts.Keys(SAMDAILY.fields) == ["date", "summary", "mood", "energy", "tags", "wins", "losses", "notes"]
    ensures WellLaid(SAMDAILY)
  {
    assert Dicts.Keys(SAMDAILY.fields) == ["date", "summary", "mood", "energy", "tags", "wins", "losses", "notes"];
  }

  /** An energy-mode row is kept exactly when its cleaned Energy Mode or Description is non-empty. */
  lemma EnergyModeKept(columns: seq<string>, row: seq<Cell>)
    ensures Dicts.Keys(TypedEntry(ENERGY_MODES, columns, row))
      == ["date", "energy_mode", "description", "triggers", "coping_strategies", "source"]
    ensures Meaningful(ENERGY_MODES, TypedEntry(ENERGY_MODES, columns, row)) <==>
      (Clean(CellOf(columns, row, "Energy Mode")) != "" || Clean(CellOf(columns, row, "Description")) != "")
  {
    assert Dicts.Keys(ENERGY_MODES.fields) == ["date", "energy_mode", "description", "triggers", "coping_strategies"];
    TypedKept(ENERGY_MODES, columns, row, 1, 2);
  }

  /** A prompt row is kept exactly when its cleaned Prompt Text or Response is non-empty. */
  lemma PromptKept(columns: seq<string>, row: seq<Cell>)
    ensures Dicts.Keys(TypedEntry(PROMPTS, columns, row)) == ["prompt_type", "prompt_text", "response", "date", "source"]
    ensures Meaningful(PROMPTS, TypedEntry(PROMPTS, columns, row)) <==>
      (Clean(CellOf(columns, row, "Prompt Text")) != "" || Clean(CellOf(columns, row, "Response")) != "")
  {
    assert Dicts.Keys(PROMPTS.fields) == ["prompt_type", "prompt_text", "response", "date"];
    TypedKept(PROMPTS, columns, row, 1, 2);
  }

  // ---------------------------------------------------------------------------------
  // Any other tab: format_generic_data
  // ---------------------------------------------------------------------------------

  /** `name.lower().replace(' ', '_')`: a column or tab name as a key. */
  function Normalise(name: string): (r: string)
    ensures |r| == |name| && ' ' !in r
    ensures forall k :: 0 <= k < |r| ==> !('A' <= r[k] <= 'Z')
  {
    seq(|name|, k requires 0 <= k < |name| => if name[k] == ' ' then '_' else Text.LowerChar(name[k]))
  }

  /** A name that is already lower-case and has no space is its own key; so normalising twice changes nothing. */
  lemma NormaliseFixes(name: string)
    requires ' ' !in name && forall k :: 0 <= k < |name| ==> !('A' <= name[k] <= 'Z')
    ensures Normalise(name) == name
  {
    forall k | 0 <= k < |name|
      ensures Normalise(name)[k] == name[k]
    {
      assert name[k] in name;
    }
  }

  /** The source tag of a generic tab. */
  function SourceTag(tab: string): string
  {
    "google_sheets_" + Normalise(tab)
  }

  /** The entry a generic row starts from: its source tag and its 1-based row number. */
  function GenericBase(tab: string, idx: nat): Entry
  {
    [("source", JStr(SourceTag(tab))), ("row_id", JInt(idx + 1))]
  }

  /** The cleaned cell of the `j`-th column. */
  function Cleaned(columns: seq<string>, row: seq<Cell>, j: nat): string
    requires j < |columns|
  {
    Clean(CellOf(columns, row, columns[j]))
  }

  /** Every column's cleaned cell, in column order. */
  function CleanedRow(columns: seq<string>, row: seq<Cell>): (r: seq<string>)
    ensures |r| == |columns|
  {
    seq(|columns|, j requires 0 <= j < |columns| => Cleaned(columns, row, j))
  }

  /** Every column's key, in column order. */
  function ColumnKeys(columns: seq<string>): (r: seq<string>)
    ensures |r| == |columns|
  {
    seq(|columns|, j requires 0 <= j < |columns| => Normalise(columns[j]))
  }

  /** The entry once the first `n` keys are visited: each non-empty value assigned under its key. */
  function Assign(base: Entry, keys: seq<string>, values: seq<string>, n: nat): Entry
    requires n <= |keys| == |values|
  {
    if n == 0 then base
    else
      var d := Assign(base, keys, values, n - 1);
      if values[n - 1] != "" then Dicts.Set(d, keys[n - 1], JStr(values[n - 1])) else d
  }

  function GenericEntry(tab: string, columns: seq<string>, row: seq<Cell>, idx: nat): Entry
  {
    Assign(GenericBase(tab, idx), ColumnKeys(columns), CleanedRow(columns, row), |columns|)
  }

  /** `len(entry) > 2`: more than the source tag and the row number. */
  predicate HasContent(e: Entry)
  {
    |e| > 2
  }

  /** The entry of every row, the `k`-th numbered `k + 1`. */
  function GenericRowEntries(tab: string, columns: seq<string>, rows: seq<seq<Cell>>): (r: seq<Entry>)
    ensures |r| == |rows|
  {
    seq(|rows|, k requires 0 <= k < |rows| => GenericEntry(tab, columns, rows[k], k))
  }

  /** The entries a generic tab yields: those with content, in row order. */
  function Generic(tab: string, df: Frame): seq<Entry>
  {
    Seqs.Filter(GenericRowEntries(tab, df.columns, df.rows), HasContent)
  }

  /** One row of `format_generic_data`: the source tag and row number, then every column. */
  method BuildGenericEntry(tab: string, columns: seq<string>, row: seq<Cell>, idx: nat) returns (entry: Entry)
    ensures entry == GenericEntry(tab, columns, row, idx)
  {
    var base := GenericBase(tab, idx);
    entry := base;
    for j := 0 to |columns|
      invariant entry == Assign(base, ColumnKeys(columns), CleanedRow(columns, row), j)
    {
      entry := AssignColumn(base, columns, row, j, entry);
    }
  }

  /** One pass of the column loop: `entry[normalise(col)] = value` when the cleaned cell is non-empty. */
  method AssignColumn(base: Entry, columns: seq<string>, row: seq<Cell>, j: nat, entry: Entry) returns (entry': Entry)
    requires j < |columns| && entry == Assign(base, ColumnKeys(columns), CleanedRow(columns, row), j)
    ensures entry' == Assign(base, ColumnKeys(columns), CleanedRow(columns, row), j + 1)
  {
    var value := Cleaned(columns, row, j);
    AssignColumnStep(base, columns, row, j);
    entry' := entry;
    if value != "" {
      entry' := Dicts.Set(entry, Normalise(columns[j]), JStr(value));
    }
  }

  /** Visiting column `j` stores its cleaned cell under its key when the cell is non-empty. */
  lemma AssignColumnStep(base: Entry, columns: seq<string>, row: seq<Cell>, j: nat)
    requires j < |columns|
    ensures var d, v := Assign(base, ColumnKeys(columns), CleanedRow(columns, row), j), Cleaned(columns, row, j);
      Assign(base, ColumnKeys(columns), CleanedRow(columns, row), j + 1)
        == if v != "" then Dicts.Set(d, Normalise(columns[j]), JStr(v)) else d
  {
    var keys, values := ColumnKeys(columns), CleanedRow(columns, row);
    assert keys[j] == Normalise(columns[j]) && values[j] == Cleaned(columns, row, j);
    AssignCongruent(base, keys, values, j, Assign(base, keys, values, j), Normalise(columns[j]), Cleaned(columns, row, j));
  }

  lemma AssignCongruent(base: Entry, keys: seq<string>, values: seq<string>, n: nat, d: Entry, k: string, v: string)
    requires n < |keys| == |values| && keys[n] == k && values[n] == v && d == Assign(base, keys, values, n)
    ensures Assign(base, keys, values, n + 1) == if v != "" then Dicts.Set(d, k, JStr(v)) else d
  {
  }

  /** `format_generic_data`. */
  method FormatGeneric(df: Frame, tab: string) returns (entries: seq<Entry>)
    ensures entries == Generic(tab, df)
  {
    ghost var all := GenericRowEntries(tab, df.columns, df.rows);
    entries := [];
    for i := 0 to |df.rows|
      invariant entries == Seqs.Filter(all[..i], HasContent)
    {
      var entry := BuildGenericEntry(tab, df.columns, df.rows[i], i);
      assert entry == all[i];
      Seqs.TakeSnoc(all, i);
      Seqs.FilterSnoc(all[..i], entry, HasContent);
      if |entry| > 2 {
        entries := entries + [entry];
      }
    }
    assert all[..|df.rows|] == all;
  }

  /** An entry is formatted exactly when some row yields it, numbered by its position, and it has content. */
  lemma GenericRows(tab: string, df: Frame, e: Entry)
    ensures e in Generic(tab, df) <==>
      (exists i :: 0 <= i < |df.rows| && e == GenericEntry(tab, df.columns, df.rows[i], i)) && HasContent(e)
  {
    var all := GenericRowEntries(tab, df.columns, df.rows);
    Seqs.FilterMember(all, HasContent, e);
    if e in all {
      var i :| 0 <= i < |all| && all[i] == e;
      assert e == GenericEntry(tab, df.columns, df.rows[i], i);
    }
    if exists i :: 0 <= i < |df.rows| && e == GenericEntry(tab, df.columns, df.rows[i], i) {
      var i :| 0 <= i < |df.rows| && e == GenericEntry(tab, df.columns, df.rows[i], i);
      assert all[i] == e;
    }
  }

  /** Assignment never creates a duplicate key, and the start entry's keys keep their places. */
  lemma {:induction false} AssignKeys(base: Entry, keys: seq<string>, values: seq<string>, n: nat)
    requires n <= |keys| == |values| && Dicts.UniqueKeys(base)
    ensures Dicts.UniqueKeys(Assign(base, keys, values, n))
    ensures |base| <= |Assign(base, keys, values, n)|
    ensures Dicts.Keys(Assign(base, keys, values, n))[..|base|] == Dicts.Keys(base)
  {
    if n > 0 {
      AssignKeys(base, keys, values, n - 1);
      var d := Assign(base, keys, values, n - 1);
      if values[n - 1] != "" {
        Dicts.SetUnique(d, keys[n - 1], JStr(values[n - 1]));
        Dicts.KeysSet(d, keys[n - 1], JStr(values[n - 1]));
      }
    }
  }

  /** Every non-empty value is stored under its key. */
  lemma {:induction false} AssignStores(base: Entry, keys: seq<string>, values: seq<string>, n: nat, j: nat)
    requires j < n <= |keys| == |values| && values[j] != ""
    ensures Dicts.HasKey(Assign(base, keys, values, n), keys[j])
  {
    var d := Assign(base, keys, values, n - 1);
    if j < n - 1 {
      AssignStores(base, keys, values, n - 1, j);
    }
    if values[n - 1] != "" {
      Dicts.GetSet(d, keys[n - 1], JStr(values[n - 1]), keys[j]);
    }
  }

  /** Every pair comes from the start entry or is a non-empty value under its key. */
  lemma {:induction false} AssignPairs(base: Entry, keys: seq<string>, values: seq<string>, n: nat, i: nat)
    requires n <= |keys| == |values| && i < |Assign(base, keys, values, n)|
    ensures Assign(base, keys, values, n)[i] in base ||
      (exists j :: 0 <= j < n && values[j] != "" && Assign(base, keys, values, n)[i] == (keys[j], JStr(values[j])))
  {
    if n > 0 {
      var d := Assign(base, keys, values, n - 1);
      if values[n - 1] != "" {
        var r := Dicts.Set(d, keys[n - 1], JStr(values[n - 1]));
        SetPair(d, keys[n - 1], JStr(values[n - 1]), i);
        if r[i] != (keys[n - 1], JStr(values[n - 1])) {
          var i' :| 0 <= i' < |d| && d[i'] == r[i];
          AssignPairs(base, keys, values, n - 1, i');
        }
      } else {
        AssignPairs(base, keys, values, n - 1, i);
      }
    }
  }

  /** Each pair after `d[k] = v` is `(k, v)` or a pair of `d`. */
  lemma {:induction false} SetPair<K, V>(d: seq<(K, V)>, k: K, v: V, i: nat)
    requires i < |Dicts.Set(d, k, v)|
    ensures Dicts.Set(d, k, v)[i] == (k, v) || Dicts.Set(d, k, v)[i] in d
  {
    if d != [] && d[0].0 != k && i > 0 {
      SetPair(d[1..], k, v, i - 1);
    }
  }

  /**
   * When no key collides with the start entry, the start entry's pairs stay as they are,
   * and the entry grows exactly when some value is non-empty.
   */
  lemma {:induction false} AssignGrows(base: Entry, keys: seq<string>, values: seq<string>, n: nat)
    requires n <= |keys| == |values|
    requires forall j :: 0 <= j < n ==> keys[j] !in Dicts.Keys(base)
    ensures |base| <= |Assign(base, keys, values, n)|
    ensures forall i :: 0 <= i < |base| ==> Assign(base, keys, values, n)[i] == base[i]
    ensures |Assign(base, keys, values, n)| > |base| <==> exists j :: 0 <= j < n && values[j] != ""
  {
    if n > 0 {
      AssignGrows(base, keys, values, n - 1);
      var d := Assign(base, keys, values, n - 1);
      var k, v := keys[n - 1], values[n - 1];
      if v != "" {
        SetKeepsBase(base, d, k, JStr(v));
      }
    }
  }

  /** Setting a key the start entry lacks keeps the start entry's pairs and outgrows it. */
  lemma SetKeepsBase(base: Entry, d: Entry, k: string, v: Json)
    requires |base| <= |d| && (forall i :: 0 <= i < |base| ==> d[i] == base[i]) && k !in Dicts.Keys(base)
    ensures var r := Dicts.Set(d, k, v);
      |r| > |base| && forall i :: 0 <= i < |base| ==> r[i] == base[i]
  {
    var r := Dicts.Set(d, k, v);
    Dicts.SetLength(d, k, v);
    forall i | 0 <= i < |base|
      ensures r[i] == base[i]
    {
      assert Dicts.Keys(base)[i] == base[i].0;
      Dicts.SetKeeps(d, k, v, i);
    }
    Dicts.KeysSet(d, k, v);
    if Dicts.HasKey(d, k) {
      var i' :| 0 <= i' < |d| && d[i'].0 == k;
      assert i' >= |base|;
    }
  }

  /**
   * A generic entry: unique keys; every column whose cleaned cell is non-empty is stored
   * under its normalised name; and every pair is the source tag, the row number, or a
   * non-empty cleaned cell under its column's normalised name.
   */
  lemma GenericEntryShape(tab: string, columns: seq<string>, row: seq<Cell>, idx: nat)
    ensures Dicts.UniqueKeys(GenericEntry(tab, columns, row, idx))
    ensures forall j :: 0 <= j < |columns| && Cleaned(columns, row, j) != "" ==>
      Dicts.HasKey(GenericEntry(tab, columns, row, idx), Normalise(columns[j]))
    ensures forall i :: 0 <= i < |GenericEntry(tab, columns, row, idx)| ==>
      GenericEntry(tab, columns, row, idx)[i] in GenericBase(tab, idx) ||
      (exists j :: 0 <= j < |columns| && Cleaned(columns, row, j) != ""
        && GenericEntry(tab, columns, row, idx)[i] == (Normalise(columns[j]), JStr(Cleaned(columns, row, j))))
  {
    var base, keys, values := GenericBase(tab, idx), ColumnKeys(columns), CleanedRow(columns, row);
    var e := GenericEntry(tab, columns, row, idx);
    AssignKeys(base, keys, values, |columns|);
    forall j | 0 <= j < |columns| && Cleaned(columns, row, j) != ""
      ensures Dicts.HasKey(e, Normalise(columns[j]))
    {
      AssignStores(base, keys, values, |columns|, j);
    }
    forall i | 0 <= i < |e|
      ensures e[i] in base ||
        (exists j :: 0 <= j < |columns| && Cleaned(columns, row, j) != ""
           && e[i] == (Normalise(columns[j]), JStr(Cleaned(columns, row, j))))
    {
      AssignPairs(base, keys, values, |columns|, i);
    }
  }

  /** With no key colliding with the start entry, looking a start key up finds its start value. */
  lemma AssignKeepsBase(base: Entry, keys: seq<string>, values: seq<string>, n: nat, i: nat)
    requires n <= |keys| == |values| && Dicts.UniqueKeys(base) && i < |base|
    requires forall j :: 0 <= j < n ==> keys[j] !in Dicts.Keys(base)
    ensures Dicts.Get(Assign(base, keys, values, n), base[i].0) == Some(base[i].1)
  {
    AssignGrows(base, keys, values, n);
    AssignKeys(base, keys, values, n);
    Dicts.GetUnique(Assign(base, keys, values, n), i);
  }

  /** No column's key collides with the source tag or the row number. */
  predicate NoReservedColumn(columns: seq<string>)
  {
    forall j :: 0 <= j < |columns| ==> Normalise(columns[j]) != "source" && Normalise(columns[j]) != "row_id"
  }

  lemma ReservedKeys(tab: string, columns: seq<string>, idx: nat)
    requires NoReservedColumn(columns)
    ensures forall j :: 0 <= j < |columns| ==> ColumnKeys(columns)[j] !in Dicts.Keys(GenericBase(tab, idx))
  {
    assert Dicts.Keys(GenericBase(tab, idx)) == ["source", "row_id"];
  }

  /** When no column is called `source` or `row_id` once normalised, a generic entry keeps its source tag and row number. */
  lemma GenericTagged(tab: string, columns: seq<string>, row: seq<Cell>, idx: nat)
    requires NoReservedColumn(columns)
    ensures Dicts.Get(GenericEntry(tab, columns, row, idx), "source") == Some(JStr(SourceTag(tab)))
    ensures Dicts.Get(GenericEntry(tab, columns, row, idx), "row_id") == Some(JInt(idx + 1))
  {
    ReservedKeys(tab, columns, idx);
    AssignKeepsBase(GenericBase(tab, idx), ColumnKeys(columns), CleanedRow(columns, row), |columns|, 0);
    AssignKeepsBase(GenericBase(tab, idx), ColumnKeys(columns), CleanedRow(columns, row), |columns|, 1);
  }

  /** When no column is called `source` or `row_id` once normalised, a generic row is kept exactly when some cleaned cell is non-empty. */
  lemma GenericContent(tab: string, columns: seq<string>, row: seq<Cell>, idx: nat)
    requires NoReservedColumn(columns)
    ensures HasContent(GenericEntry(tab, columns, row, idx)) <==> exists j :: 0 <= j < |columns| && Cleaned(columns, row, j) != ""
  {
    ReservedKeys(tab, columns, idx);
    var values := CleanedRow(columns, row);
    AssignGrows(GenericBase(tab, idx), ColumnKeys(columns), values, |columns|);
    assert forall j :: 0 <= j < |columns| ==> values[j] == Cleaned(columns, row, j);
  }

  // ---------------------------------------------------------------------------------
  // process_all_tabs
  // ---------------------------------------------------------------------------------

  /** How a tab's rows are formatted. */
  datatype Processor = Fixed(layout: Layout) | AnyColumns

  /** The tabs, in the order they are read. */
  const TABS: seq<(string, Processor)> := [
    ("samdaily", Fixed(SAMDAILY)),
    ("SAM- Energy Modes", Fixed(ENERGY_MODES)),
    ("promptsSam with schema", Fixed(PROMPTS)),
    ("Sheet6", AnyColumns),
    ("Video", AnyColumns)
  ]

  function Format(tab: string, processor: Processor, df: Frame): seq<Entry>
  {
    match processor
    case Fixed(layout) => Typed(layout, df)
    case AnyColumns => Generic(tab, df)
  }

  /** What one tab contributes: nothing when its frame is empty, else its formatted entries. */
  function TabEntries(tab: string, processor: Processor, df: Frame): seq<Entry>
  {
    if Empty(df) then [] else Format(tab, processor, df)
  }

  /** Every tab's entries, one tab after the other; `read` stands for `read_sheet_tab`, which yields an empty frame on any failure. */
  function AllTabs(tabs: seq<(string, Processor)>, read: string -> Frame): seq<Entry>
  {
    if tabs == [] then []
    else
      var (tab, processor) := tabs[|tabs| - 1];
      AllTabs(tabs[..|tabs| - 1], read) + TabEntries(tab, processor, read(tab))
  }

  /** `process_all_tabs`. */
  method ProcessAllTabs(read: string -> Frame) returns (all: seq<Entry>)
    ensures all == AllTabs(TABS, read)
  {
    all := [];
    for t := 0 to |TABS|
      invariant all == AllTabs(TABS[..t], read)
    {
      var (tab, processor) := TABS[t];
      var entries := ProcessTab(tab, processor, read(tab));
      AllTabsSnoc(TABS, t, read);
      all := all + entries;
    }
    assert TABS[..|TABS|] == TABS;
  }

  /** One pass of that loop: an empty frame adds nothing, any other goes to its tab's formatter. */
  method ProcessTab(tab: string, processor: Processor, df: Frame) returns (entries: seq<Entry>)
    ensures entries == TabEntries(tab, processor, df)
  {
    entries := [];
    if !Empty(df) {
      if processor.AnyColumns? {
        entries := FormatGeneric(df, tab);
      } else {
        entries := FormatTyped(processor.layout, df);
      }
    }
  }

  lemma AllTabsSnoc(tabs: seq<(string, Processor)>, t: nat, read: string -> Frame)
    requires t < |tabs|
    ensures AllTabs(tabs[..t + 1], read) == AllTabs(tabs[..t], read) + TabEntries(tabs[t].0, tabs[t].1, read(tabs[t].0))
  {
    assert tabs[..t + 1][..t] == tabs[..t];
  }

  /** A layout whose required keys sit at `i` and `j` keeps no row of a frame without columns. */
  lemma NoColumnsTyped(layout: Layout, df: Frame, i: nat, j: nat)
    requires WellLaid(layout) && df.columns == []
    requires i < |layout.fields| && layout.fields[i].0 == layout.required.0
    requires j < |layout.fields| && layout.fields[j].0 == layout.required.1
    ensures Typed(layout, df) == []
  {
    var all := RowEntries(layout, df.columns, df.rows);
    forall e | e in all
      ensures !KeepRule(layout)(e)
    {
      RowEntriesMembers(layout, df.columns, df.rows, e);
      var k :| 0 <= k < |df.rows| && e == TypedEntry(layout, df.columns, df.rows[k]);
      TypedKept(layout, df.columns, df.rows[k], i, j);
    }
    Seqs.FilterNone(all, KeepRule(layout));
  }

  /** A generic tab without columns keeps no row: each entry holds only the source tag and row number. */
  lemma NoColumnsGeneric(tab: string, df: Frame)
    requires df.columns == []
    ensures Generic(tab, df) == []
  {
    var all := GenericRowEntries(tab, df.columns, df.rows);
    forall e | e in all
      ensures !HasContent(e)
    {
      var k :| 0 <= k < |all| && all[k] == e;
      assert e == GenericBase(tab, k);
    }
    Seqs.FilterNone(all, HasContent);
  }

  lemma NoRowsFormat(tab: string, processor: Processor, df: Frame)
    requires df.rows == []
    ensures Format(tab, processor, df) == []
  {
    if processor.AnyColumns? {
      Seqs.FilterNone(GenericRowEntries(tab, df.columns, df.rows), HasContent);
    } else {
      Seqs.FilterNone(RowEntries(processor.layout, df.columns, df.rows), KeepRule(processor.layout));
    }
  }

  /** Skipping an empty frame changes nothing: every tab's formatter yields no entry for it. */
  lemma EmptyTabAddsNothing(t: nat, df: Frame)
    requires t < |TABS| && Empty(df)
    ensures Format(TABS[t].0, TABS[t].1, df) == []
  {
    if df.columns != [] {
      NoRowsFormat(TABS[t].0, TABS[t].1, df);
    } else if t == 0 {
      NoColumnsTyped(SAMDAILY, df, 1, 7);
    } else if t == 1 {
      NoColumnsTyped(ENERGY_MODES, df, 1, 2);
    } else if t == 2 {
      NoColumnsTyped(PROMPTS, df, 1, 2);
    } else {
      NoColumnsGeneric(TABS[t].0, df);
    }
  }

  // ---------------------------------------------------------------------------------
  // create_embeddings_file: the text of an entry and the records written
  // ---------------------------------------------------------------------------------

  /** The labelled keys, in the order their parts come first. */
  const LABELS: seq<(string, string)> := [
    ("summary", "Summary"), ("notes", "Notes"), ("description", "Description"),
    ("prompt_text", "Prompt"), ("response", "Response")
  ]

  /** The keys no text part is made of. */
  const METADATA: seq<string> := ["source", "row_id"]

  /** `f"{label}: {entry[key]}"` for each labelled key the entry has, in label order. */
  function LabelledParts(entry: Entry, labels: seq<(string, string)>): seq<string>
  {
    if labels == [] then []
    else
      var (key, title) := labels[|labels| - 1];
      LabelledParts(entry, labels[..|labels| - 1])
      + (match Dicts.Get(entry, key) case Some(v) => [title + ": " + PyStr(v)] case None => [])
  }

  /** `f"{key}: {value}"`. */
  function KeyPart(pair: (string, Json)): string
  {
    pair.0 + ": " + PyStr(pair.1)
  }

  /** The key parts of every pair whose key is not excluded, in entry order. */
  function KeyParts(entry: Entry, excluded: seq<string>): seq<string>
  {
    if entry == [] then []
    else
      var pair := entry[|entry| - 1];
      KeyParts(entry[..|entry| - 1], excluded) + (if pair.0 in excluded then [] else [KeyPart(pair)])
  }

  /** The labelled parts first, then every other key except the metadata. */
  function TextParts(entry: Entry): seq<string>
  {
    LabelledParts(entry, LABELS) + KeyParts(entry, Dicts.Keys(LABELS) + METADATA)
  }

  function EmbeddingText(entry: Entry): string
  {
    Text.Join(" | ", TextParts(entry))
  }

  /** The text of one entry, built by appending to a list of parts. */
  method BuildText(entry: Entry) returns (text: string)
    ensures text == EmbeddingText(entry)
  {
    var parts: seq<string> := [];
    for l := 0 to |LABELS|
      invariant parts == LabelledParts(entry, LABELS[..l])
    {
      assert LABELS[..l + 1][..l] == LABELS[..l];
      var (key, title) := LABELS[l];
      if Dicts.HasKey(entry, key) {
        parts := parts + [title + ": " + PyStr(Dicts.Get(entry, key).value)];
      }
    }
    assert LABELS[..|LABELS|] == LABELS;
    var excluded := Dicts.Keys(LABELS) + METADATA;
    ghost var labelled := parts;
    for i := 0 to |entry|
      invariant parts == labelled + KeyParts(entry[..i], excluded)
    {
      Seqs.TakeSnoc(entry, i);
      if entry[i].0 !in excluded {
        parts := parts + [KeyPart(entry[i])];
      }
    }
    assert entry[..|entry|] == entry;
    text := Text.Join(" | ", parts);
  }

  /** A key part is there exactly for a pair of the entry whose key is not excluded. */
  lemma {:induction false} KeyPartsMember(entry: Entry, excluded: seq<string>, s: string)
    ensures s in KeyParts(entry, excluded) <==>
      exists i :: 0 <= i < |entry| && entry[i].0 !in excluded && s == KeyPart(entry[i])
  {
    if entry != [] {
      var init := entry[..|entry| - 1];
      KeyPartsMember(init, excluded, s);
      assert forall i :: 0 <= i < |init| ==> init[i] == entry[i];
    }
  }

  /** A labelled part is there exactly for a labelled key the entry has. */
  lemma {:induction false} LabelledMember(entry: Entry, labels: seq<(string, string)>, s: string)
    ensures s in LabelledParts(entry, labels) <==>
      exists l :: 0 <= l < |labels| && Dicts.HasKey(entry, labels[l].0)
        && s == labels[l].1 + ": " + PyStr(Dicts.Get(entry, labels[l].0).value)
  {
    if labels != [] {
      var init := labels[..|labels| - 1];
      LabelledMember(entry, init, s);
      assert forall l :: 0 <= l < |init| ==> init[l] == labels[l];
    }
  }

  /**
   * Every part of the text is a labelled part of a labelled key the entry has, or the
   * key part of a pair whose key is neither labelled nor metadata; and each of those is there.
   */
  lemma TextPartsCover(entry: Entry, s: string)
    ensures s in TextParts(entry) <==>
      (exists l :: 0 <= l < |LABELS| && Dicts.HasKey(entry, LABELS[l].0)
         && s == LABELS[l].1 + ": " + PyStr(Dicts.Get(entry, LABELS[l].0).value))
      || (exists i :: 0 <= i < |entry| && entry[i].0 !in Dicts.Keys(LABELS) + METADATA && s == KeyPart(entry[i]))
  {
    LabelledMember(entry, LABELS, s);
    KeyPartsMember(entry, Dicts.Keys(LABELS) + METADATA, s);
  }

  /** Each text part holds a `:`, which is not whitespace. */
  lemma PartHasColon(entry: Entry, s: string)
    requires s in TextParts(entry)
    ensures exists k :: 0 <= k < |s| && s[k] == ':'
  {
    TextPartsCover(entry, s);
    if exists l :: 0 <= l < |LABELS| && Dicts.HasKey(entry, LABELS[l].0)
         && s == LABELS[l].1 + ": " + PyStr(Dicts.Get(entry, LABELS[l].0).value) {
      var l :| 0 <= l < |LABELS| && Dicts.HasKey(entry, LABELS[l].0)
         && s == LABELS[l].1 + ": " + PyStr(Dicts.Get(entry, LABELS[l].0).value);
      assert s[|LABELS[l].1|] == ':';
    } else {
      var i :| 0 <= i < |entry| && entry[i].0 !in Dicts.Keys(LABELS) + METADATA && s == KeyPart(entry[i]);
      assert s[|entry[i].0|] == ':';
    }
  }

  /** `text.strip()` is empty exactly when there is no part at all. */
  lemma BlankTextIffNoParts(entry: Entry)
    ensures Text.Strip(EmbeddingText(entry)) == "" <==> TextParts(entry) == []
  {
    var parts := TextParts(entry);
    if parts != [] {
      PartHasColon(entry, parts[0]);
      var k :| 0 <= k < |parts[0]| && parts[0][k] == ':';
      Text.JoinStartsWith(" | ", parts);
      var text := EmbeddingText(entry);
      assert text[k] == ':';
      Text.StripNonBlank(text, k);
    }
  }

  /** An entry with a key other than `source` and `row_id` has a non-blank text. */
  lemma OtherKeyGivesText(entry: Entry, i: nat)
    requires i < |entry| && entry[i].0 !in METADATA
    ensures TextParts(entry) != []
  {
    if entry[i].0 in Dicts.Keys(LABELS) {
      var l :| 0 <= l < |LABELS| && Dicts.Keys(LABELS)[l] == entry[i].0;
      assert Dicts.HasKey(entry, LABELS[l].0);
      LabelledMember(entry, LABELS, LABELS[l].1 + ": " + PyStr(Dicts.Get(entry, LABELS[l].0).value));
    } else {
      KeyPartsMember(entry, Dicts.Keys(LABELS) + METADATA, KeyPart(entry[i]));
    }
  }

  /** Three distinct keys cannot all be metadata, so the text has a part. */
  lemma ThreeKeysGiveText(e: Entry)
    requires Dicts.UniqueKeys(e) && |e| > 2
    ensures TextParts(e) != []
  {
    assert e[0].0 != e[1].0 && e[0].0 != e[2].0 && e[1].0 != e[2].0;
    if e[0].0 !in METADATA {
      OtherKeyGivesText(e, 0);
    } else if e[1].0 !in METADATA {
      OtherKeyGivesText(e, 1);
    } else {
      OtherKeyGivesText(e, 2);
    }
  }

  lemma GenericUnique(tab: string, columns: seq<string>, row: seq<Cell>, idx: nat)
    ensures Dicts.UniqueKeys(GenericEntry(tab, columns, row, idx))
  {
    AssignKeys(GenericBase(tab, idx), ColumnKeys(columns), CleanedRow(columns, row), |columns|);
  }

  lemma GenericHasText(tab: string, df: Frame, e: Entry)
    requires e in Generic(tab, df)
    ensures TextParts(e) != []
  {
    GenericRows(tab, df, e);
    var i :| 0 <= i < |df.rows| && e == GenericEntry(tab, df.columns, df.rows[i], i);
    GenericUnique(tab, df.columns, df.rows[i], i);
    ThreeKeysGiveText(e);
  }

  lemma TypedHasText(layout: Layout, df: Frame, e: Entry)
    requires e in Typed(layout, df)
    requires layout.fields != [] && layout.fields[0].0 !in METADATA
    ensures TextParts(e) != []
  {
    TypedRows(layout, df);
    var i :| 0 <= i < |df.rows| && e == TypedEntry(layout, df.columns, df.rows[i]);
    assert e[0].0 == Dicts.Keys(e)[0] == layout.fields[0].0;
    OtherKeyGivesText(e, 0);
  }

  /** A fixed layout whose first field is not metadata. */
  predicate FirstFieldText(processor: Processor)
  {
    processor.Fixed? ==> processor.layout.fields != [] && processor.layout.fields[0].0 !in METADATA
  }

  /** Every entry a formatter yields has a non-blank text, so each gets its embedding record. */
  lemma FormattedEntriesHaveText(tab: string, processor: Processor, df: Frame, e: Entry)
    requires FirstFieldText(processor) && e in Format(tab, processor, df)
    ensures Text.Strip(EmbeddingText(e)) != ""
  {
    FormattedEntriesHaveParts(tab, processor, df, e);
    BlankTextIffNoParts(e);
  }

  lemma FormattedEntriesHaveParts(tab: string, processor: Processor, df: Frame, e: Entry)
    requires FirstFieldText(processor) && e in Format(tab, processor, df)
    ensures TextParts(e) != []
  {
    if processor.Fixed? {
      TypedHasText(processor.layout, df, e);
    } else {
      GenericHasText(tab, df, e);
    }
  }

  /** Every tab of the workbook meets that condition. */
  lemma TabsHaveText(t: nat)
    requires t < |TABS|
    ensures FirstFieldText(TABS[t].1)
  {
  }

  /** A line of the embeddings file: its id, its text, the text's embedding and the entry itself. */
  datatype EmbeddingRecord = EmbeddingRecord(id: string, text: string, embedding: seq<real>, metadata: Entry)

  /** `f"gs_{i}"`. */
  function RecordId(i: nat): string
  {
    "gs_" + Text.NatToString(i)
  }

  /** The embedding `encode` gives a text; `[]` stands in where it fails, which is never written. */
  function EmbeddingOf(text: string, encode: string -> Option<seq<real>>): seq<real>
  {
    match encode(text)
    case Some(v) => v
    case None => []
  }

  /** The record the `i`-th entry would get. */
  function Candidate(entries: seq<Entry>, i: nat, textOf: Entry -> string, encode: string -> Option<seq<real>>): EmbeddingRecord
    requires i < |entries|
  {
    var text := textOf(entries[i]);
    EmbeddingRecord(RecordId(i), text, EmbeddingOf(text, encode), entries[i])
  }

  function Candidates(entries: seq<Entry>, textOf: Entry -> string, encode: string -> Option<seq<real>>): (r: seq<EmbeddingRecord>)
    ensures |r| == |entries|
  {
    seq(|entries|, i requires 0 <= i < |entries| => Candidate(entries, i, textOf, encode))
  }

  /** `if text.strip()`. */
  predicate Embeds(r: EmbeddingRecord)
  {
    Text.Strip(r.text) != ""
  }

  /** The records written: one per entry with a non-blank text, in entry order. */
  function Embedded(entries: seq<Entry>, textOf: Entry -> string, encode: string -> Option<seq<real>>): seq<EmbeddingRecord>
  {
    Seqs.Filter(Candidates(entries, textOf, encode), Embeds)
  }

  /** The `i`-th entry has a non-blank text that the encoder fails on. */
  predicate EncodeFails(entries: seq<Entry>, i: nat, textOf: Entry -> string, encode: string -> Option<seq<real>>)
    requires i < |entries|
  {
    Text.Strip(textOf(entries[i])) != "" && encode(textOf(entries[i])).None?
  }

  /** No entry before position `n` makes the encoder fail. */
  predicate EncodesUpTo(entries: seq<Entry>, n: nat, textOf: Entry -> string, encode: string -> Option<seq<real>>)
    requires n <= |entries|
  {
    forall i :: 0 <= i < n ==> !EncodeFails(entries, i, textOf, encode)
  }

  /**
   * The loop of `create_embeddings_file`; `textOf` builds an entry's text and `encode`
   * stands for the sentence-embedding model, `None` where it raises. The records of the
   * entries before the first failure are written; `ok` is whether the file name is
   * returned rather than `None`, and `handled` how many entries the loop got through.
   */
  method CreateEmbeddings(entries: seq<Entry>, textOf: Entry -> string, encode: string -> Option<seq<real>>)
    returns (records: seq<EmbeddingRecord>, ok: bool, handled: nat)
    ensures handled <= |entries| && EncodesUpTo(entries, handled, textOf, encode)
    ensures records == Seqs.Filter(Candidates(entries, textOf, encode)[..handled], Embeds)
    ensures ok <==> handled == |entries|
    ensures !ok ==> EncodeFails(entries, handled, textOf, encode)
    ensures ok <==> EncodesUpTo(entries, |entries|, textOf, encode)
    ensures ok ==> records == Embedded(entries, textOf, encode)
  {
    ghost var all := Candidates(entries, textOf, encode);
    records, ok, handled := [], true, |entries|;
    for i := 0 to |entries|
      invariant records == Seqs.Filter(all[..i], Embeds)
      invariant EncodesUpTo(entries, i, textOf, encode)
    {
      var text := textOf(entries[i]);
      if Text.Strip(text) != "" {
        var embedding := encode(text);
        if embedding.None? {
          EncodeStops(entries, i, textOf, encode);
          ok, handled := false, i;
          return;
        }
        EmbedStep(entries, textOf, encode, i, records);
        records := records + [EmbeddingRecord(RecordId(i), text, embedding.value, entries[i])];
      } else {
        EmbedStep(entries, textOf, encode, i, records);
      }
    }
    assert all[..|entries|] == all;
  }

  /** One pass of that loop over an entry the encoder does not fail on. */
  lemma EmbedStep(entries: seq<Entry>, textOf: Entry -> string, encode: string -> Option<seq<real>>, i: nat,
                  records: seq<EmbeddingRecord>)
    requires i < |entries| && EncodesUpTo(entries, i, textOf, encode) && !EncodeFails(entries, i, textOf, encode)
    requires records == Seqs.Filter(Candidates(entries, textOf, encode)[..i], Embeds)
    ensures EncodesUpTo(entries, i + 1, textOf, encode)
    ensures var text := textOf(entries[i]);
      Seqs.Filter(Candidates(entries, textOf, encode)[..i + 1], Embeds) == records
        + if Text.Strip(text) != "" then [EmbeddingRecord(RecordId(i), text, encode(text).value, entries[i])] else []
  {
    EmbeddedSnoc(entries, textOf, encode, i);
  }

  lemma EncodeStops(entries: seq<Entry>, i: nat, textOf: Entry -> string, encode: string -> Option<seq<real>>)
    requires i < |entries| && EncodeFails(entries, i, textOf, encode)
    ensures !EncodesUpTo(entries, |entries|, textOf, encode)
  {
  }

  lemma EmbeddedSnoc(entries: seq<Entry>, textOf: Entry -> string, encode: string -> Option<seq<real>>, i: nat)
    requires i < |entries|
    ensures var all, text := Candidates(entries, textOf, encode), textOf(entries[i]);
      Seqs.Filter(all[..i + 1], Embeds) == Seqs.Filter(all[..i], Embeds)
        + if Text.Strip(text) != "" then [EmbeddingRecord(RecordId(i), text, EmbeddingOf(text, encode), entries[i])] else []
  {
    var all := Candidates(entries, textOf, encode);
    Seqs.TakeSnoc(all, i);
    Seqs.FilterSnoc(all[..i], all[i], Embeds);
  }

  /**
   * When every entry's text is non-blank, the file has one record per entry: the `i`-th
   * holds id `gs_i`, the entry's text and the entry itself, and its embedding is the
   * encoder's output wherever the encoder succeeds.
   */
  lemma AllEmbedded(entries: seq<Entry>, textOf: Entry -> string, encode: string -> Option<seq<real>>)
    requires forall i :: 0 <= i < |entries| ==> Text.Strip(textOf(entries[i])) != ""
    ensures var rs := Embedded(entries, textOf, encode);
      && |rs| == |entries|
      && forall i :: 0 <= i < |entries| ==>
           && rs[i].id == RecordId(i) && rs[i].text == textOf(entries[i]) && rs[i].metadata == entries[i]
           && (encode(textOf(entries[i])).Some? ==> rs[i].embedding == encode(textOf(entries[i])).value)
  {
    var all := Candidates(entries, textOf, encode);
    EveryCandidateEmbeds(entries, textOf, encode);
    Seqs.FilterAll(all, Embeds);
    CandidateFields(entries, textOf, encode);
  }

  lemma EveryCandidateEmbeds(entries: seq<Entry>, textOf: Entry -> string, encode: string -> Option<seq<real>>)
    requires forall i :: 0 <= i < |entries| ==> Text.Strip(textOf(entries[i])) != ""
    ensures forall r :: r in Candidates(entries, textOf, encode) ==> Embeds(r)
  {
    var all := Candidates(entries, textOf, encode);
    forall r | r in all
      ensures Embeds(r)
    {
      var i :| 0 <= i < |all| && all[i] == r;
    }
  }

  /** The `i`-th candidate holds id `gs_i`, the entry's text, the entry, and the encoder's embedding where it succeeds. */
  lemma CandidateFields(entries: seq<Entry>, textOf: Entry -> string, encode: string -> Option<seq<real>>)
    ensures var all := Candidates(entries, textOf, encode);
      forall i :: 0 <= i < |entries| ==>
        && all[i].id == RecordId(i) && all[i].text == textOf(entries[i]) && all[i].metadata == entries[i]
        && (encode(textOf(entries[i])).Some? ==> all[i].embedding == encode(textOf(entries[i])).value)
  {
  }

  /** Every entry the workbook yields has a non-blank text. */
  lemma {:induction false} AllTabsHaveText(tabs: seq<(string, Processor)>, read: string -> Frame, e: Entry)
    requires forall t :: 0 <= t < |tabs| ==> FirstFieldText(tabs[t].1)
    requires e in AllTabs(tabs, read)
    ensures Text.Strip(EmbeddingText(e)) != ""
  {
    var init, last := tabs[..|tabs| - 1], tabs[|tabs| - 1];
    if e in AllTabs(init, read) {
      AllTabsHaveText(init, read, e);
    } else {
      FormattedEntriesHaveText(last.0, last.1, read(last.0), e);
    }
  }

  /**
   * The sheet script's embeddings file: one record per processed entry, in order, its text
   * being `EmbeddingText` of the entry; the loop fails only where the encoder does.
   */
  lemma SheetRecordsOneForOne(read: string -> Frame, encode: string -> Option<seq<real>>)
    ensures var entries := AllTabs(TABS, read);
      var rs := Embedded(entries, EmbeddingText, encode);
      && |rs| == |entries|
      && (forall i :: 0 <= i < |entries| ==>
            && rs[i].id == RecordId(i) && rs[i].text == EmbeddingText(entries[i]) && rs[i].metadata == entries[i]
            && (encode(EmbeddingText(entries[i])).Some? ==> rs[i].embedding == encode(EmbeddingText(entries[i])).value))
      && (forall i :: 0 <= i < |entries| ==>
            (EncodeFails(entries, i, EmbeddingText, encode) <==> encode(EmbeddingText(entries[i])).None?))
  {
    var entries := AllTabs(TABS, read);
    forall i | 0 <= i < |entries|
      ensures Text.Strip(EmbeddingText(entries[i])) != ""
    {
      forall t | 0 <= t < |TABS|
        ensures FirstFieldText(TABS[t].1)
      {
        TabsHaveText(t);
      }
      AllTabsHaveText(TABS, read, entries[i]);
    }
    AllEmbedded(entries, EmbeddingText, encode);
  }

  /** A record is written exactly for an entry with a non-blank text, under the id of that entry's position. */
  lemma EmbeddedRecords(entries: seq<Entry>, textOf: Entry -> string, encode: string -> Option<seq<real>>, r: EmbeddingRecord)
    ensures r in Embedded(entries, textOf, encode) <==>
      exists i :: 0 <= i < |entries| && r == Candidate(entries, i, textOf, encode) && Text.Strip(textOf(entries[i])) != ""
  {
    var all := Candidates(entries, textOf, encode);
    Seqs.FilterMember(all, Embeds, r);
    if r in all {
      var i :| 0 <= i < |all| && all[i] == r;
      assert r == Candidate(entries, i, textOf, encode);
    }
    if exists i :: 0 <= i < |entries| && r == Candidate(entries, i, textOf, encode) && Text.Strip(textOf(entries[i])) != "" {
      var i :| 0 <= i < |entries| && r == Candidate(entries, i, textOf, encode) && Text.Strip(textOf(entries[i])) != "";
      assert all[i] == r;
    }
  }

  /** No two records share an id. */
  lemma RecordIdsUnique(entries: seq<Entry>, textOf: Entry -> string, encode: string -> Option<seq<real>>, r1: EmbeddingRecord, r2: EmbeddingRecord)
    requires r1 in Embedded(entries, textOf, encode) && r2 in Embedded(entries, textOf, encode)
    requires r1.id == r2.id
    ensures r1 == r2
  {
    EmbeddedRecords(entries, textOf, encode, r1);
    EmbeddedRecords(entries, textOf, encode, r2);
    var i :| 0 <= i < |entries| && r1 == Candidate(entries, i, textOf, encode);
    var j :| 0 <= j < |entries| && r2 == Candidate(entries, j, textOf, encode);
    assert Text.NatToString(i) == RecordId(i)[3..] == RecordId(j)[3..] == Text.NatToString(j);
    Text.NatToStringInjective(i, j);
  }
}
