/**
 * Decoded JSON values as Python holds them after `json.load`, with the Python
 * operations the scripts apply to them: truthiness, `dict.get`, `a or b`, `str()`,
 * `repr()` and iteration of an iterable of strings (for `str.join` / `list.extend`).
 */
module Json {
  import opened Wrappers
  import Text
  import Dicts

  /**
   * A JSON number decodes to a Python `int` or `float`; a float carries its value
   * and its Python `repr` text, both given by the decoder.
   * Object fields are kept in document order and are duplicate-free.
   */
  datatype Json =
    | JNull
    | JBool(b: bool)
    | JInt(i: int)
    | JFloat(x: real, text: string)
    | JStr(s: string)
    | JArr(items: seq<Json>)
    | JObj(fields: seq<(string, Json)>)

  const EMPTY_OBJ: Json := JObj([])
  const EMPTY_ARR: Json := JArr([])

  /** Python's `bool(v)`. */
  predicate Truthy(v: Json)
  {
    match v
    case JNull => false
    case JBool(b) => b
    case JInt(i) => i != 0
    case JFloat(x, _) => x != 0.0
    case JStr(s) => s != []
    case JArr(items) => items != []
    case JObj(fields) => fields != []
  }

  /** `a or b`. */
  function Or(a: Json, b: Json): (r: Json)
    ensures Truthy(a) ==> r == a
    ensures !Truthy(a) ==> r == b
  {
    if Truthy(a) then a else b
  }

  /** `d.get(key)`; Python raises on a non-dict receiver, so one is required. */
  function Get(d: Json, key: string): Option<Json>
    requires d.JObj?
  {
    Dicts.Get(d.fields, key)
  }

  /** `d.get(key, default)`. */
  function GetOr(d: Json, key: string, default: Json): (r: Json)
    requires d.JObj?
    ensures Dicts.HasKey(d.fields, key) ==> r == Get(d, key).value
    ensures !Dicts.HasKey(d.fields, key) ==> r == default
  {
    match Get(d, key)
    case Some(v) => v
    case None => default
  }

  /** `d.get(key)`, where a missing key reads as `None`. */
  function GetNone(d: Json, key: string): Json
    requires d.JObj?
  {
    GetOr(d, key, JNull)
  }

  /** `key in d`. */
  predicate Has(d: Json, key: string)
    requires d.JObj?
  {
    Dicts.HasKey(d.fields, key)
  }

  /** `d.get(key, default)` is a dict (missing key: the default `{}` is one). */
  predicate ObjOrAbsent(d: Json, key: string)
    requires d.JObj?
  {
    GetOr(d, key, EMPTY_OBJ).JObj?
  }

  function HexDigit(d: nat): char
    requires d < 16
  {
    "0123456789abcdef"[d]
  }

  /** `n` as `width` lower-case hexadecimal digits, most significant first. */
  function Hex(n: nat, width: nat): (r: string)
    ensures |r| == width
  {
    if width == 0 then "" else Hex(n / 16, width - 1) + [HexDigit(n % 16)]
  }

  /**
   * Characters for which `str.isprintable()` is false, in the ranges this model covers: the
   * C0 and C1 controls, the no-break and other non-ASCII spaces, the line and paragraph
   * separators, the common format characters and the private-use area of the first plane.
   */
  predicate NonPrintable(c: char)
  {
    || c < ' ' || '\U{7f}' <= c <= '\U{a0}' || c == '\U{ad}'
    || '\U{600}' <= c <= '\U{605}' || c == '\U{61c}' || c == '\U{6dd}' || c == '\U{70f}'
    || c == '\U{1680}' || c == '\U{180e}' || '\U{2000}' <= c <= '\U{200f}' || '\U{2028}' <= c <= '\U{202f}'
    || '\U{205f}' <= c <= '\U{206f}' || c == '\U{3000}' || '\U{e000}' <= c <= '\U{f8ff}'
    || c == '\U{feff}' || '\U{fff9}' <= c <= '\U{fffb}' || c == '\U{fffe}' || c == '\U{ffff}'
  }

  /**
   * One character as it appears inside a Python string repr quoted with `quote`: the quote
   * and backslash escaped, `\t`, `\n` and `\r` by name, other non-printable characters as
   * `\xhh`, `\uhhhh` or `\Uhhhhhhhh` by the size of their code point.
   */
  function EscapeChar(c: char, quote: char): (r: string)
    ensures NonPrintable(c) ==> |r| >= 2 && r[0] == '\\'
    ensures !NonPrintable(c) && c != quote && c != '\\' ==> r == [c]
  {
    if c == quote || c == '\\' then ['\\', c]
    else if c == '\t' then "\\t"
    else if c == '\n' then "\\n"
    else if c == '\r' then "\\r"
    else if NonPrintable(c) then
      if c as int < 0x100 then "\\x" + Hex(c as int, 2)
      else if c as int < 0x1_0000 then "\\u" + Hex(c as int, 4)
      else "\\U" + Hex(c as int, 8)
    else [c]
  }

  /** A non-printable character of the first 256 code points is written `\xhh`. */
  lemma EscapeByte(c: char, quote: char)
    requires NonPrintable(c) && c as int < 0x100 && c != quote && c != '\\' && c != '\t' && c != '\n' && c != '\r'
    ensures EscapeChar(c, quote) == ['\\', 'x', HexDigit(c as int / 16), HexDigit(c as int % 16)]
  {
    Hex2(c as int);
  }

  /** A non-printable character of the rest of the first plane is written `\uhhhh`. */
  lemma EscapeWide(c: char, quote: char)
    requires NonPrintable(c) && 0x100 <= c as int < 0x1_0000 && c != quote
    ensures EscapeChar(c, quote) == ['\\', 'u', HexDigit(c as int / 4096), HexDigit(c as int / 256 % 16),
                                     HexDigit(c as int / 16 % 16), HexDigit(c as int % 16)]
  {
    Hex4(c as int);
  }

  /** Python writes a no-break space as `\xa0` and a next-line control as `\x85`. */
  lemma EscapeLatin1Examples()
    ensures EscapeChar('\U{a0}', '\'') == "\\xa0"
    ensures EscapeChar('\U{85}', '\'') == "\\x85"
  {
    EscapeByte('\U{a0}', '\'');
    EscapeByte('\U{85}', '\'');
    assert HexDigit(10) == 'a' && HexDigit(0) == '0' && HexDigit(8) == '8' && HexDigit(5) == '5';
  }

  /** Python writes a zero-width space as `\u200b` and a line separator as `\u2028`. */
  lemma EscapeWideExamples()
    ensures EscapeChar('\U{200b}', '\'') == "\\u200b"
    ensures EscapeChar('\U{2028}', '\'') == "\\u2028"
  {
    EscapeWide('\U{200b}', '\'');
    EscapeWide('\U{2028}', '\'');
    assert HexDigit(2) == '2' && HexDigit(0) == '0' && HexDigit(11) == 'b' && HexDigit(8) == '8';
  }

  /** Two hexadecimal digits: the high nibble, then the low one. */
  lemma Hex2(n: nat)
    requires n < 0x100
    ensures Hex(n, 2) == [HexDigit(n / 16), HexDigit(n % 16)]
  {
    assert Hex(n / 16, 1) == Hex(n / 16 / 16, 0) + [HexDigit(n / 16 % 16)];
  }

  /** Four hexadecimal digits, most significant first. */
  lemma Hex4(n: nat)
    requires n < 0x1_0000
    ensures Hex(n, 4) == [HexDigit(n / 4096), HexDigit(n / 256 % 16), HexDigit(n / 16 % 16), HexDigit(n % 16)]
  {
    Hex2(n / 256);
    assert n / 256 / 16 == n / 4096 && n / 16 / 16 == n / 256;
    assert Hex(n / 16, 3) == Hex(n / 256, 2) + [HexDigit(n / 16 % 16)];
  }

  function EscapeAll(s: string, quote: char): string
  {
    if s == [] then [] else EscapeChar(s[0], quote) + EscapeAll(s[1..], quote)
  }

  /** `repr(s)` of a Python string: double quotes only when it holds `'` but no `"`. */
  function StrRepr(s: string): string
  {
    var quote := if '\'' in s && '"' !in s then '"' else '\'';
    [quote] + EscapeAll(s, quote) + [quote]
  }

  /** `str(v)`. */
  function PyStr(v: Json): string
    decreases v, 2
  {
    match v
    case JNull => "None"
    case JBool(b) => if b then "True" else "False"
    case JInt(i) => Text.IntToString(i)
    case JFloat(_, text) => text
    case JStr(s) => s
    case JArr(_) => ListStr(v)
    case JObj(_) => DictStr(v)
  }

  /** `str` of a list: the `repr` of every item, comma-separated in brackets. */
  function ListStr(v: Json): string
    requires v.JArr?
    decreases v, 1
  {
    "[" + Text.Join(", ", seq(|v.items|, k requires 0 <= k < |v.items| => PyRepr(v.items[k]))) + "]"
  }

  /** `str` of a dict: `repr(key): repr(value)` for every pair, comma-separated in braces. */
  function DictStr(v: Json): string
    requires v.JObj?
    decreases v, 1
  {
    "{" + Text.Join(", ", seq(|v.fields|, k requires 0 <= k < |v.fields| =>
                                StrRepr(v.fields[k].0) + ": " + PyRepr(v.fields[k].1))) + "}"
  }

  /** `repr(v)`: as `str(v)` except that strings are quoted. */
  function PyRepr(v: Json): string
    decreases v, 3
  {
    if v.JStr? then StrRepr(v.s) else PyStr(v)
  }

  /** `map(str, items)`: the `str` of every element, in order. */
  function Strs(items: seq<Json>): (r: seq<string>)
    ensures |r| == |items| && forall k :: 0 <= k < |items| ==> r[k] == PyStr(items[k])
  {
    seq(|items|, k requires 0 <= k < |items| => PyStr(items[k]))
  }

  /**
   * The strings produced by iterating `v` (as `str.join` and `list.extend` do):
   * a list of strings gives its items, a string its characters, a dict its keys.
   * Anything else, or a list holding a non-string, makes the join raise.
   */
  function IterStrings(v: Json): Option<seq<string>>
  {
    match v
    case JArr(items) =>
      if forall k :: 0 <= k < |items| ==> items[k].JStr?
      then Some(seq(|items|, k requires 0 <= k < |items| => items[k].s))
      else None
    case JStr(s) => Some(seq(|s|, k requires 0 <= k < |s| => [s[k]]))
    case JObj(fields) => Some(Dicts.Keys(fields))
    case _ => None
  }

  predicate Joinable(v: Json)
  {
    IterStrings(v).Some?
  }

  /** `sep.join(v)`. */
  function JoinStrs(sep: string, v: Json): string
    requires Joinable(v)
  {
    Text.Join(sep, IterStrings(v).value)
  }

  /** `d.get(key, [])` can be joined. */
  predicate JoinableOrAbsent(d: Json, key: string)
    requires d.JObj?
  {
    Joinable(GetOr(d, key, EMPTY_ARR))
  }

  /** Strings of a plain list of strings join back to the list's items. */
  lemma JoinStringList(sep: string, xs: seq<string>)
    ensures Joinable(JArr(seq(|xs|, k requires 0 <= k < |xs| => JStr(xs[k]))))
    ensures JoinStrs(sep, JArr(seq(|xs|, k requires 0 <= k < |xs| => JStr(xs[k])))) == Text.Join(sep, xs)
  {
    var v := JArr(seq(|xs|, k requires 0 <= k < |xs| => JStr(xs[k])));
    assert IterStrings(v).value == xs;
  }
}
