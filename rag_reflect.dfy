/**
 * The reflection command line: a date detector that reads a day, month and year out of a
 * free-text question (numeric `D-M-Y` / `D/M/Y` first, then `D <month name> [Y]`), and the
 * router that picks which logs go into the prompt: by date, by a mood threshold, by an
 * alarm keyword, or by the whole question as a keyword.
 */
module RagReflect {
  import opened Wrappers
  import opened Json
  import Text
  import Dicts
  import Retrieve
  import FormatPrompt

  /** The length of the run of ASCII digits starting at `i`. */
  function DigitRun(s: string, i: nat): (n: nat)
    requires i <= |s|
    ensures i + n <= |s| && DigitsAt(s, i, n)
    ensures i + n < |s| ==> !Text.IsDigit(s[i + n])
    decreases |s| - i
  {
    if i < |s| && Text.IsDigit(s[i]) then 1 + DigitRun(s, i + 1) else 0
  }

  /** The `n` characters at `i` are digits. */
  predicate DigitsAt(s: string, i: nat, n: nat)
    requires i + n <= |s|
  {
    forall k :: i <= k < i + n ==> Text.IsDigit(s[k])
  }

  /** The length of the run of whitespace (`\s`) starting at `i`. */
  function SpaceRun(s: string, i: nat): (n: nat)
    requires i <= |s|
    ensures i + n <= |s|
    decreases |s| - i
  {
    if i < |s| && Text.IsSpace(s[i]) then 1 + SpaceRun(s, i + 1) else 0
  }

  predicate IsLetter(c: char)
  {
    'a' <= c <= 'z' || 'A' <= c <= 'Z'
  }

  /** The length of the run of letters (`[a-z]` ignoring case) starting at `i`. */
  function LetterRun(s: string, i: nat): (n: nat)
    requires i <= |s|
    ensures i + n <= |s|
    decreases |s| - i
  {
    if i < |s| && IsLetter(s[i]) then 1 + LetterRun(s, i + 1) else 0
  }

  /** `int()` of the `n` digits at `i`. */
  function Value(s: string, i: nat, n: nat): (v: nat)
    requires i + n <= |s| && DigitsAt(s, i, n)
    ensures n <= 2 ==> v < 100
    ensures n <= 4 ==> v < 10000
  {
    assert Text.AllDigits(s[i..i + n]) by {
      var t := s[i..i + n];
      forall k | 0 <= k < |t|
        ensures Text.IsDigit(t[k])
      {
        assert t[k] == s[i + k];
      }
    }
    Text.DigitsValueBound(s[i..i + n]);
    assert Text.Pow10(1) == 10 && Text.Pow10(2) == 100 && Text.Pow10(3) == 1000 && Text.Pow10(4) == 10000;
    Text.DigitsValue(s[i..i + n])
  }

  function Min(a: nat, b: nat): nat
  {
    if a < b then a else b
  }

  predicate IsSep(c: char)
  {
    c == '-' || c == '/'
  }

  /** The groups of a match: day, month and the year as written, if any. */
  datatype Groups = Groups(day: nat, month: nat, year: Option<nat>)

  /**
   * `(\d{1,2})[-/](\d{1,2})[-/](\d{2,4})` matched at `i`. Day and month are whole runs of
   * one or two digits (a longer run cannot be followed by the separator); the year takes
   * up to four of the digits that follow.
   */
  function NumericAt(s: string, i: nat): (g: Option<Groups>)
    requires i <= |s|
    ensures g.Some? ==> g.value.day < 100 && g.value.month < 100
    ensures g.Some? ==> g.value.year.Some? && g.value.year.value < 10000
  {
    var r1 := DigitRun(s, i);
    if !(1 <= r1 <= 2) || i + r1 >= |s| || !IsSep(s[i + r1]) then None
    else
      var j := i + r1 + 1;
      var r2 := DigitRun(s, j);
      if !(1 <= r2 <= 2) || j + r2 >= |s| || !IsSep(s[j + r2]) then None
      else
        var year := YearAt(s, j + r2 + 1);
        if year.None? then None
        else Some(Groups(Value(s, i, r1), Value(s, j, r2), year))
  }

  /** `(\d{2,4})` at `i`: at least two digits, of which the year takes up to four. */
  function YearAt(s: string, i: nat): (y: Option<nat>)
    requires i <= |s|
    ensures y.Some? ==> y.value < 10000
  {
    var n := DigitRun(s, i);
    if n < 2 then None
    else
      Some(Value(s, i, Min(n, 4)))
  }

  const MONTHS: seq<string> := ["jan", "feb", "mar", "apr", "may", "jun", "jul", "aug", "sep", "oct", "nov", "dec"]

  /** `MONTH_MAP[w.lower()]` for a three-letter word, when it names a month. */
  function MonthNumber(w: string): (m: Option<nat>)
    ensures m.Some? ==> 1 <= m.value <= 12 && MONTHS[m.value - 1] == Text.Lower(w)
  {
    MonthFrom(Text.Lower(w), 0)
  }

  function MonthFrom(w: string, k: nat): (m: Option<nat>)
    requires k <= 12
    ensures m.Some? ==> k < m.value <= 12 && MONTHS[m.value - 1] == w
    decreases 12 - k
  {
    if k == 12 then None else if MONTHS[k] == w then Some(k + 1) else MonthFrom(w, k + 1)
  }

  /**
   * `(\d{1,2})\s*(jan|...|dec)[a-z]*\s*(\d{2,4})?` matched at `i`, ignoring case: the
   * year group is absent unless at least two digits follow.
   */
  function MonthNameAt(s: string, i: nat): (g: Option<Groups>)
    requires i <= |s|
    ensures g.Some? ==> g.value.day < 100 && 1 <= g.value.month <= 12
    ensures g.Some? && g.value.year.Some? ==> g.value.year.value < 10000
  {
    var r1 := DigitRun(s, i);
    if !(1 <= r1 <= 2) then None
    else
      var j := i + r1 + SpaceRun(s, i + r1);
      var month := if j + 3 <= |s| then MonthNumber(s[j..j + 3]) else None;
      if month.None? then None
      else
        var k := j + 3 + LetterRun(s, j + 3);
        Some(Groups(Value(s, i, r1), month.value, YearAt(s, k + SpaceRun(s, k))))
  }

  /** `re.search`: the match at the leftmost position where there is one. */
  function NumericSearch(s: string, i: nat): (g: Option<Groups>)
    requires i <= |s|
    ensures g.Some? ==> g.value.day < 100 && g.value.month < 100 && g.value.year.Some? && g.value.year.value < 10000
    decreases |s| - i
  {
    if NumericAt(s, i).Some? then NumericAt(s, i)
    else if i == |s| then None
    else NumericSearch(s, i + 1)
  }

  /** `re.search` for the month-name form. */
  function MonthNameSearch(s: string, i: nat): (g: Option<Groups>)
    requires i <= |s|
    decreases |s| - i
  {
    if MonthNameAt(s, i).Some? then MonthNameAt(s, i)
    else if i == |s| then None
    else MonthNameSearch(s, i + 1)
  }

  /** A month-name hit has a day of at most two digits, a month from the table and a short year. */
  lemma {:induction false} MonthNameSearchBounds(s: string, i: nat)
    requires i <= |s| && MonthNameSearch(s, i).Some?
    ensures var g := MonthNameSearch(s, i).value;
      g.day < 100 && 1 <= g.month <= 12 && (g.year.Some? ==> g.year.value < 10000)
    decreases |s| - i
  {
    if MonthNameAt(s, i).None? {
      MonthNameSearchBounds(s, i + 1);
    }
  }

  /** The first hit of `at` at a position from `i` to `n`: the way `re.search` scans. */
  function FirstHit<T>(at: nat -> Option<T>, n: nat, i: nat): Option<T>
    requires i <= n
    decreases n - i
  {
    if at(i).Some? then at(i) else if i == n then None else FirstHit(at, n, i + 1)
  }

  /** A hit is the value at the leftmost position that has one; no hit means no position has one. */
  lemma {:induction false} FirstHitLeftmost<T>(at: nat -> Option<T>, n: nat, i: nat)
    requires i <= n
    ensures FirstHit(at, n, i).Some? ==>
      exists p :: i <= p <= n && at(p) == FirstHit(at, n, i) && forall r :: i <= r < p ==> at(r).None?
    ensures FirstHit(at, n, i).None? ==> forall p :: i <= p <= n ==> at(p).None?
    decreases n - i
  {
    if at(i).Some? {
      assert at(i) == FirstHit(at, n, i);
    } else if i < n {
      FirstHitLeftmost(at, n, i + 1);
      if FirstHit(at, n, i + 1).Some? {
        var p :| i + 1 <= p <= n && at(p) == FirstHit(at, n, i + 1) && forall r :: i + 1 <= r < p ==> at(r).None?;
        assert at(p) == FirstHit(at, n, i);
      }
    }
  }

  function NumericAtAll(s: string): nat -> Option<Groups>
  {
    (p: nat) => if p <= |s| then NumericAt(s, p) else None
  }

  function MonthNameAtAll(s: string): nat -> Option<Groups>
  {
    (p: nat) => if p <= |s| then MonthNameAt(s, p) else None
  }

  lemma {:induction false} NumericSearchIsFirstHit(s: string, i: nat)
    requires i <= |s|
    ensures NumericSearch(s, i) == FirstHit(NumericAtAll(s), |s|, i)
    decreases |s| - i
  {
    assert NumericAtAll(s)(i) == NumericAt(s, i);
    if NumericAt(s, i).None? && i < |s| {
      NumericSearchIsFirstHit(s, i + 1);
    }
  }

  lemma {:induction false} MonthNameSearchIsFirstHit(s: string, i: nat)
    requires i <= |s|
    ensures MonthNameSearch(s, i) == FirstHit(MonthNameAtAll(s), |s|, i)
    decreases |s| - i
  {
    assert MonthNameAtAll(s)(i) == MonthNameAt(s, i);
    if MonthNameAt(s, i).None? && i < |s| {
      MonthNameSearchIsFirstHit(s, i + 1);
    }
  }

  /**
   * The numeric search finds the match at the leftmost position where the pattern matches,
   * and finds nothing exactly when no position from `i` on matches.
   */
  lemma NumericSearchLeftmost(s: string, i: nat)
    requires i <= |s|
    ensures NumericSearch(s, i).Some? ==>
      exists p :: i <= p <= |s| && NumericAt(s, p) == NumericSearch(s, i) && forall r :: i <= r < p ==> NumericAt(s, r).None?
    ensures NumericSearch(s, i).None? ==> forall p :: i <= p <= |s| ==> NumericAt(s, p).None?
  {
    var at := NumericAtAll(s);
    NumericSearchIsFirstHit(s, i);
    FirstHitLeftmost(at, |s|, i);
    if NumericSearch(s, i).Some? {
      var p :| i <= p <= |s| && at(p) == FirstHit(at, |s|, i) && forall r :: i <= r < p ==> at(r).None?;
      assert forall r :: i <= r < p ==> NumericAt(s, r) == at(r);
      assert NumericAt(s, p) == at(p);
    } else {
      assert forall p :: i <= p <= |s| ==> NumericAt(s, p) == at(p);
    }
  }

  /** The same for the month-name search. */
  lemma MonthNameSearchLeftmost(s: string, i: nat)
    requires i <= |s|
    ensures MonthNameSearch(s, i).Some? ==>
      exists p :: i <= p <= |s| && MonthNameAt(s, p) == MonthNameSearch(s, i) && forall r :: i <= r < p ==> MonthNameAt(s, r).None?
    ensures MonthNameSearch(s, i).None? ==> forall p :: i <= p <= |s| ==> MonthNameAt(s, p).None?
  {
    var at := MonthNameAtAll(s);
    MonthNameSearchIsFirstHit(s, i);
    FirstHitLeftmost(at, |s|, i);
    if MonthNameSearch(s, i).Some? {
      var p :| i <= p <= |s| && at(p) == FirstHit(at, |s|, i) && forall r :: i <= r < p ==> at(r).None?;
      assert forall r :: i <= r < p ==> MonthNameAt(s, r) == at(r);
      assert MonthNameAt(s, p) == at(p);
    } else {
      assert forall p :: i <= p <= |s| ==> MonthNameAt(s, p) == at(p);
    }
  }

  /** A two-digit year is in this century. */
  function Widen(year: nat): (y: nat)
    ensures year < 100 ==> y == year + 2000
    ensures year >= 100 ==> y == year
  {
    if year < 100 then year + 2000 else year
  }

  /** The date as `(year, month, day)` numbers: the numeric form first, and 2025 for a missing year. */
  function Detect(question: string): (d: Option<(nat, nat, nat)>)
    ensures d.Some? ==> d.value.0 < 10000 && d.value.1 < 100 && d.value.2 < 100
  {
    match NumericSearch(question, 0)
    case Some(g) => Some((Widen(g.year.value), g.month, g.day))
    case None =>
      match MonthNameSearch(question, 0)
      case Some(g) =>
        MonthNameSearchBounds(question, 0);
        Some((if g.year.Some? then Widen(g.year.value) else 2025, g.month, g.day))
      case None => None
  }

  /** `f"{year:04d}-{month:02d}-{day:02d}"`. */
  function IsoDate(year: nat, month: nat, day: nat): string
  {
    Text.ZeroPad(year, 4) + "-" + Text.ZeroPad(month, 2) + "-" + Text.ZeroPad(day, 2)
  }

  /** `_detect_date`: the detected date as `YYYY-MM-DD`, or `""`. */
  function DetectDate(question: string): string
  {
    match Detect(question)
    case Some((y, m, d)) => IsoDate(y, m, d)
    case None => ""
  }

  /**
   * A date within four, two and two digits renders as ten characters with dashes at 4 and 7,
   * and each field reads back as its number.
   */
  lemma IsoDateReadsBack(year: nat, month: nat, day: nat)
    requires year < 10000 && month < 100 && day < 100
    ensures var r := IsoDate(year, month, day);
      && |r| == 10 && r[4] == '-' && r[7] == '-'
      && Text.AllDigits(r[..4]) && Text.AllDigits(r[5..7]) && Text.AllDigits(r[8..])
      && Text.DigitsValue(r[..4]) == year && Text.DigitsValue(r[5..7]) == month
      && Text.DigitsValue(r[8..]) == day
  {
    var y, m, d := Text.ZeroPad(year, 4), Text.ZeroPad(month, 2), Text.ZeroPad(day, 2);
    Text.NatToStringShort(year, 4);
    Text.NatToStringShort(month, 2);
    Text.NatToStringShort(day, 2);
    Text.ZeroPadValue(year, 4);
    Text.ZeroPadValue(month, 2);
    Text.ZeroPadValue(day, 2);
    var r := IsoDate(year, month, day);
    assert r == y + "-" + m + "-" + d;
    assert r[..4] == y && r[5..7] == m && r[8..] == d;
  }

  /** `_detect_date` gives `""` exactly when neither pattern matches, and a well-formed date otherwise. */
  lemma DetectDateShape(question: string)
    ensures DetectDate(question) == "" <==> Detect(question).None?
    ensures Detect(question).Some? ==> var (y, m, d) := Detect(question).value;
      DetectDate(question) == IsoDate(y, m, d) && |DetectDate(question)| == 10
  {
    if Detect(question).Some? {
      var (y, m, d) := Detect(question).value;
      IsoDateReadsBack(y, m, d);
    }
  }

  /** `p` is the leftmost position where the numeric pattern matches. */
  predicate LeftmostNumeric(s: string, p: nat)
  {
    p <= |s| && NumericAt(s, p).Some? && forall r :: 0 <= r < p ==> NumericAt(s, r).None?
  }

  /** `p` is the leftmost position where the month-name pattern matches. */
  predicate LeftmostMonthName(s: string, p: nat)
  {
    p <= |s| && MonthNameAt(s, p).Some? && forall r :: 0 <= r < p ==> MonthNameAt(s, r).None?
  }

  predicate NoNumeric(s: string)
  {
    forall p :: 0 <= p <= |s| ==> NumericAt(s, p).None?
  }

  predicate NoMonthName(s: string)
  {
    forall p :: 0 <= p <= |s| ==> MonthNameAt(s, p).None?
  }

  /** The leftmost position with a hit is where the scan stops. */
  lemma {:induction false} FirstHitAt<T>(at: nat -> Option<T>, n: nat, i: nat, p: nat)
    requires i <= p <= n && at(p).Some? && forall r :: i <= r < p ==> at(r).None?
    ensures FirstHit(at, n, i) == at(p)
    decreases p - i
  {
    if i < p {
      FirstHitAt(at, n, i + 1, p);
    }
  }

  lemma NumericSearchAt(q: string, p: nat)
    requires LeftmostNumeric(q, p)
    ensures NumericSearch(q, 0) == NumericAt(q, p)
  {
    var at := NumericAtAll(q);
    assert forall r :: 0 <= r <= p ==> at(r) == NumericAt(q, r);
    NumericSearchIsFirstHit(q, 0);
    FirstHitAt(at, |q|, 0, p);
  }

  lemma MonthNameSearchAt(q: string, p: nat)
    requires LeftmostMonthName(q, p)
    ensures MonthNameSearch(q, 0) == MonthNameAt(q, p)
  {
    var at := MonthNameAtAll(q);
    assert forall r :: 0 <= r <= p ==> at(r) == MonthNameAt(q, r);
    MonthNameSearchIsFirstHit(q, 0);
    FirstHitAt(at, |q|, 0, p);
  }

  /** A numeric match anywhere decides the date, from the leftmost numeric match. */
  lemma NumericDecides(q: string)
    ensures !NoNumeric(q) ==> exists p :: LeftmostNumeric(q, p)
    ensures forall p :: LeftmostNumeric(q, p) ==> var g := NumericAt(q, p).value;
      Detect(q) == Some((Widen(g.year.value), g.month, g.day))
  {
    NumericSearchLeftmost(q, 0);
    if NumericSearch(q, 0).Some? {
      var p0 :| 0 <= p0 <= |q| && NumericAt(q, p0) == NumericSearch(q, 0)
        && forall r :: 0 <= r < p0 ==> NumericAt(q, r).None?;
      assert LeftmostNumeric(q, p0);
    }
    forall p | LeftmostNumeric(q, p)
      ensures var g := NumericAt(q, p).value; Detect(q) == Some((Widen(g.year.value), g.month, g.day))
    {
      NumericSearchAt(q, p);
    }
  }

  /**
   * Without a numeric match the leftmost month-name match decides the date, with 2025 for a
   * missing year.
   */
  lemma MonthNameDecides(q: string)
    requires NoNumeric(q)
    ensures !NoMonthName(q) ==> exists p :: LeftmostMonthName(q, p)
    ensures forall p :: LeftmostMonthName(q, p) ==> var g := MonthNameAt(q, p).value;
      Detect(q) == Some((if g.year.Some? then Widen(g.year.value) else 2025, g.month, g.day))
  {
    NumericSearchLeftmost(q, 0);
    MonthNameSearchLeftmost(q, 0);
    assert NumericSearch(q, 0).None?;
    if MonthNameSearch(q, 0).Some? {
      var p0 :| 0 <= p0 <= |q| && MonthNameAt(q, p0) == MonthNameSearch(q, 0)
        && forall r :: 0 <= r < p0 ==> MonthNameAt(q, r).None?;
      assert LeftmostMonthName(q, p0);
    }
    forall p | LeftmostMonthName(q, p)
      ensures var g := MonthNameAt(q, p).value;
        Detect(q) == Some((if g.year.Some? then Widen(g.year.value) else 2025, g.month, g.day))
    {
      MonthNameSearchAt(q, p);
    }
  }

  /** `_detect_date` returns `""` exactly when neither pattern matches anywhere in the question. */
  lemma NoDateIffNoMatch(q: string)
    ensures DetectDate(q) == "" <==> NoNumeric(q) && NoMonthName(q)
  {
    NumericSearchLeftmost(q, 0);
    MonthNameSearchLeftmost(q, 0);
    DetectDateShape(q);
  }

  /** Without a `-` or `/` the numeric form never matches. */
  lemma {:induction false} NoSeparatorNoNumeric(s: string, i: nat)
    requires i <= |s| && forall k :: 0 <= k < |s| ==> !IsSep(s[k])
    ensures NumericSearch(s, i) == None
    decreases |s| - i
  {
    if i < |s| {
      NoSeparatorNoNumeric(s, i + 1);
    }
  }

  /*
   * Worked examples. Each takes the question as a parameter equal to the text, so that the
   * verifier reads it one position at a time.
   */

  lemma NumericFirstBefore(q: string, i: nat)
    requires q == "5 jan 1-2-99" && i <= 5
    ensures NumericAt(q, i) == None
  {
    if i == 0 {
      assert DigitRun(q, 1) == 0;
    } else {
      assert DigitRun(q, i) == 0;
    }
  }

  lemma NumericFirstAt(q: string)
    requires q == "5 jan 1-2-99"
    ensures NumericAt(q, 6) == Some(Groups(1, 2, Some(99)))
  {
    assert DigitRun(q, 7) == 0 && DigitRun(q, 9) == 0 && DigitRun(q, 12) == 0;
    OneDigit(q, 6);
    OneDigit(q, 8);
    TwoDigits(q, 10);
  }

  lemma OneDigit(s: string, i: nat)
    requires i < |s| && Text.IsDigit(s[i])
    ensures DigitsAt(s, i, 1) && Value(s, i, 1) == Text.DigitValue(s[i])
  {
    var t := s[i..i + 1];
    assert t[..0] == [] && t[0] == s[i];
    assert Text.DigitsValue(t) == Text.DigitValue(s[i]);
  }

  lemma TwoDigits(s: string, i: nat)
    requires i + 2 <= |s| && Text.IsDigit(s[i]) && Text.IsDigit(s[i + 1])
    ensures DigitsAt(s, i, 2) && Value(s, i, 2) == 10 * Text.DigitValue(s[i]) + Text.DigitValue(s[i + 1])
  {
    var t := s[i..i + 2];
    assert t[..1] == [s[i]] && t[..1][..0] == [] && t[1] == s[i + 1];
    assert Text.DigitsValue(t[..1]) == Text.DigitValue(s[i]);
    assert Text.DigitsValue(t) == 10 * Text.DigitValue(s[i]) + Text.DigitValue(s[i + 1]);
  }

  lemma {:induction false} NumericFirstSearch(q: string, i: nat)
    requires q == "5 jan 1-2-99" && i <= 6
    ensures NumericSearch(q, i) == Some(Groups(1, 2, Some(99)))
    decreases 6 - i
  {
    if i < 6 {
      NumericFirstBefore(q, i);
      NumericFirstSearch(q, i + 1);
    } else {
      NumericFirstAt(q);
    }
  }

  /**
   * The numeric form wins even when a month name comes first in the question, and a
   * two-digit year is read as 20YY.
   */
  lemma NumericFirst(q: string)
    requires q == "5 jan 1-2-99"
    ensures DetectDate(q) == "2099-02-01"
  {
    NumericFirstSearch(q, 0);
    Iso2099();
  }

  lemma Iso2099()
    ensures IsoDate(2099, 2, 1) == "2099-02-01"
  {
  }

  lemma MonthNameDay(q: string)
    requires q == "12 March"
    ensures DigitRun(q, 0) == 2 && q[0..2] == "12" && Text.DigitsValue("12") == 12
    ensures SpaceRun(q, 2) == 1
  {
    assert DigitRun(q, 2) == 0;
    assert SpaceRun(q, 3) == 0;
  }

  lemma MonthNameMonth(q: string)
    requires q == "12 March"
    ensures MonthNumber(q[3..6]) == Some(3)
    ensures LetterRun(q, 6) == 2 && SpaceRun(q, 8) == 0 && DigitRun(q, 8) == 0
  {
    assert q[3..6] == "Mar" && Text.Lower("Mar") == "mar";
  }

  /** A month name matches in any case; without a year the date is in 2025. */
  lemma MonthNameDefaultYear(q: string)
    requires q == "12 March"
    ensures DetectDate(q) == "2025-03-12"
  {
    assert forall k :: 0 <= k < |q| ==> !IsSep(q[k]);
    NoSeparatorNoNumeric(q, 0);
    MonthNameDay(q);
    MonthNameMonth(q);
    assert MonthNameAt(q, 0) == Some(Groups(12, 3, None));
    Iso2025();
  }

  lemma Iso2025()
    ensures IsoDate(2025, 3, 12) == "2025-03-12"
  {
  }

  /** Day and month are not range-checked: whatever digits matched are emitted. */
  lemma NoRangeCheck(q: string)
    requires q == "45/13/24"
    ensures DetectDate(q) == "2024-13-45"
  {
    NoRangeCheckAt(q);
    Iso2024();
  }

  lemma NoRangeCheckAt(q: string)
    requires q == "45/13/24"
    ensures NumericAt(q, 0) == Some(Groups(45, 13, Some(24)))
  {
    assert DigitRun(q, 2) == 0 && DigitRun(q, 5) == 0 && DigitRun(q, 8) == 0;
    TwoDigits(q, 0);
    TwoDigits(q, 3);
    TwoDigits(q, 6);
  }

  lemma Iso2024()
    ensures IsoDate(2024, 13, 45) == "2024-13-45"
  {
  }

  /** `re.search(r"below\s*(\d+)", s)` at `i`: the whole run of digits after `below` and any spaces. */
  function BelowAt(s: string, i: nat): Option<nat>
    requires i <= |s|
  {
    if i + 5 <= |s| && s[i..i + 5] == "below" then
      var j := i + 5 + SpaceRun(s, i + 5);
      var r := DigitRun(s, j);
      if r >= 1 then Some(Value(s, j, r)) else None
    else None
  }

  /** `re.search`: the number of the leftmost `below <digits>`, or `None` when there is none. */
  function BelowSearch(s: string, i: nat): (n: Option<nat>)
    requires i <= |s|
    decreases |s| - i
  {
    if BelowAt(s, i).Some? then BelowAt(s, i)
    else if i == |s| then None
    else BelowSearch(s, i + 1)
  }

  function BelowAtAll(s: string): nat -> Option<nat>
  {
    (p: nat) => if p <= |s| then BelowAt(s, p) else None
  }

  lemma {:induction false} BelowSearchIsFirstHit(s: string, i: nat)
    requires i <= |s|
    ensures BelowSearch(s, i) == FirstHit(BelowAtAll(s), |s|, i)
    decreases |s| - i
  {
    assert BelowAtAll(s)(i) == BelowAt(s, i);
    if BelowAt(s, i).None? && i < |s| {
      BelowSearchIsFirstHit(s, i + 1);
    }
  }

  /** The threshold is the number of the leftmost `below <digits>`; `None` exactly when there is none. */
  lemma BelowSearchLeftmost(s: string, i: nat)
    requires i <= |s|
    ensures BelowSearch(s, i).Some? ==>
      exists p :: i <= p <= |s| && BelowAt(s, p) == BelowSearch(s, i) && forall r :: i <= r < p ==> BelowAt(s, r).None?
    ensures BelowSearch(s, i).None? ==> forall p :: i <= p <= |s| ==> BelowAt(s, p).None?
  {
    var at := BelowAtAll(s);
    BelowSearchIsFirstHit(s, i);
    FirstHitLeftmost(at, |s|, i);
    if BelowSearch(s, i).Some? {
      var p :| i <= p <= |s| && at(p) == FirstHit(at, |s|, i) && forall r :: i <= r < p ==> at(r).None?;
      assert forall r :: i <= r < p ==> BelowAt(s, r) == at(r);
      assert BelowAt(s, p) == at(p);
    } else {
      assert forall p :: i <= p <= |s| ==> BelowAt(s, p) == at(p);
    }
  }

  const ALARM_WORDS: seq<string> := ["suicidal", "burnout"]

  /** Where a question is routed, and with what argument. */
  datatype Route = ByDate(date: string) | ByMood(threshold: nat) | ByKeyword(keyword: string)

  /**
   * The routing priority: a detected date; else "mood" with `below N`; else the first alarm
   * word present; else the whole question as the keyword. The tests look at the lowered
   * question; the date detector and the plain keyword take it as written.
   */
  function RouteOf(question: string): (route: Route)
    ensures route.ByDate? <==> DetectDate(question) != ""
    ensures route.ByMood? ==> (Text.Contains(Text.Lower(question), "mood")
      && BelowSearch(Text.Lower(question), 0) == Some(route.threshold))
    ensures route.ByKeyword? && route.keyword != question ==> (route.keyword in ALARM_WORDS
      && Text.Contains(Text.Lower(question), route.keyword))
  {
    var lowerQ := Text.Lower(question);
    var date := DetectDate(question);
    if date != "" then ByDate(date)
    else if Text.Contains(lowerQ, "mood") && BelowSearch(lowerQ, 0).Some? then ByMood(BelowSearch(lowerQ, 0).value)
    else if Text.Contains(lowerQ, ALARM_WORDS[0]) then ByKeyword(ALARM_WORDS[0])
    else if Text.Contains(lowerQ, ALARM_WORDS[1]) then ByKeyword(ALARM_WORDS[1])
    else ByKeyword(question)
  }

  /**
   * The full routing priority of `handle_question`: a detected date wins; else "mood" with a
   * `below N` in the lowered question routes by the leftmost such N; else "suicidal" is
   * searched if present, else "burnout"; else the question itself is the keyword.
   */
  lemma RoutePriority(q: string)
    ensures var l, d := Text.Lower(q), DetectDate(q);
      && (d != "" ==> RouteOf(q) == ByDate(d))
      && (d == "" && Text.Contains(l, "mood") && BelowSearch(l, 0).Some?
          ==> RouteOf(q) == ByMood(BelowSearch(l, 0).value))
      && (d == "" && !(Text.Contains(l, "mood") && BelowSearch(l, 0).Some?) ==>
          && (Text.Contains(l, "suicidal") ==> RouteOf(q) == ByKeyword("suicidal"))
          && (!Text.Contains(l, "suicidal") && Text.Contains(l, "burnout") ==> RouteOf(q) == ByKeyword("burnout"))
          && (!Text.Contains(l, "suicidal") && !Text.Contains(l, "burnout") ==> RouteOf(q) == ByKeyword(q)))
  {
  }

  /** The logs a route retrieves from the map. */
  function Selected(route: Route, logs: Retrieve.Logs, ratio: (string, string) -> real,
                    parseFloat: string -> Option<real>): Retrieve.Logs
  {
    match route
    case ByDate(date) => Retrieve.GetLogByDate(logs, date)
    case ByMood(n) => Retrieve.MoodResults(logs, n as real, parseFloat)
    case ByKeyword(keyword) => Retrieve.KeywordResults(logs, keyword, ratio)
  }

  /** `handle_question` runs to the model call: the route's search and the prompt do not raise. */
  predicate Answerable(question: string, logs: Retrieve.Logs, ratio: (string, string) -> real,
                       parseFloat: string -> Option<real>)
  {
    var route := RouteOf(question);
    && (route.ByMood? ==> Retrieve.AllMoodReadable(logs))
    && (route.ByKeyword? ==> Retrieve.AllSearchable(logs))
    && FormatPrompt.AllFormattable(Selected(route, logs, ratio, parseFloat))
  }

  const MODEL_ERROR: string := "Error querying language model: "

  /** The model's answer, or its error as text: a failed call is reported, never raised. */
  function Reply(r: Result<string, string>): (answer: string)
    ensures r.Ok? ==> answer == r.value
    ensures r.Err? ==> Text.StartsWith(answer, MODEL_ERROR) && answer[|MODEL_ERROR|..] == r.error
  {
    match r
    case Ok(text) => text
    case Err(e) => MODEL_ERROR + e
  }

  /**
   * `handle_question`: route, retrieve, build the prompt and ask the model. The model call
   * is the parameter `llm`.
   */
  method HandleQuestion(question: string, logs: Retrieve.Logs, ratio: (string, string) -> real,
                        parseFloat: string -> Option<real>, llm: string -> Result<string, string>)
    returns (answer: string)
    requires Answerable(question, logs, ratio, parseFloat)
    ensures answer == Reply(llm(FormatPrompt.Prompt(question, Selected(RouteOf(question), logs, ratio, parseFloat))))
  {
    var lowerQ := Text.Lower(question);
    ghost var route := RouteOf(question);
    var selected: Retrieve.Logs;
    var date := DetectDate(question);
    if date != "" {
      assert route == ByDate(date);
      selected := Retrieve.GetLogByDate(logs, date);
    } else if Text.Contains(lowerQ, "mood") && BelowSearch(lowerQ, 0).Some? {
      assert route == ByMood(BelowSearch(lowerQ, 0).value);
      var threshold := BelowSearch(lowerQ, 0).value as real;
      selected := Retrieve.FilterLogsByMoodBelow(logs, threshold, parseFloat);
    } else if exists k :: 0 <= k < |ALARM_WORDS| && Text.Contains(lowerQ, ALARM_WORDS[k]) {
      var j := FirstAlarm(lowerQ);
      assert route == ByKeyword(ALARM_WORDS[j]);
      selected := Retrieve.SearchLogsByKeyword(logs, ALARM_WORDS[j], ratio);
    } else {
      assert route == ByKeyword(question);
      selected := Retrieve.SearchLogsByKeyword(logs, question, ratio);
    }
    assert selected == Selected(route, logs, ratio, parseFloat);
    var prompt := FormatPrompt.Prompt(question, selected);
    answer := Reply(llm(prompt));
  }

  /** The alarm-word loop: the first word of `ALARM_WORDS` that the lowered question contains. */
  method FirstAlarm(lowerQ: string) returns (j: nat)
    requires exists k :: 0 <= k < |ALARM_WORDS| && Text.Contains(lowerQ, ALARM_WORDS[k])
    ensures j < |ALARM_WORDS| && Text.Contains(lowerQ, ALARM_WORDS[j])
    ensures forall k :: 0 <= k < j ==> !Text.Contains(lowerQ, ALARM_WORDS[k])
  {
    j := 0;
    while j < |ALARM_WORDS| && !Text.Contains(lowerQ, ALARM_WORDS[j])
      invariant j <= |ALARM_WORDS|
      invariant forall k :: 0 <= k < j ==> !Text.Contains(lowerQ, ALARM_WORDS[k])
    {
      j := j + 1;
    }
  }

  /**
   * Whatever the route, the logs in the prompt are entries of the map, in map order, with
   * no date twice; a date route brings at most the one log stored under that date.
   */
  lemma SelectedFromMap(route: Route, logs: Retrieve.Logs, ratio: (string, string) -> real,
                        parseFloat: string -> Option<real>)
    requires Dicts.UniqueKeys(logs)
    ensures forall e :: e in Selected(route, logs, ratio, parseFloat) ==> e in logs
    ensures Dicts.UniqueKeys(Selected(route, logs, ratio, parseFloat))
    ensures route.ByDate? ==> (|Selected(route, logs, ratio, parseFloat)| <= 1
      && forall e :: e in Selected(route, logs, ratio, parseFloat) ==> e.0 == route.date)
  {
    match route
    case ByDate(_) =>
    case ByMood(n) =>
      Retrieve.FilterUniqueKeys(logs, e => Retrieve.MoodBelow(n as real, parseFloat, e));
    case ByKeyword(keyword) =>
      Retrieve.FilterUniqueKeys(logs, e => Retrieve.KeywordMatch(keyword, ratio, e));
  }
}
