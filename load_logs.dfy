/**
 * The log loader: every `.json` file of the log directory, keyed by the date part of its
 * timestamp (or, without a timestamp, by its file name less the extension). A later file
 * with the same key replaces the earlier one, so the map holds one log per key.
 */
module LoadLogs {
  import opened Wrappers
  import opened Json
  import Text
  import Dicts

  /**
   * A directory entry: its name, its decoded content (`None` when it is malformed JSON or
   * cannot be opened) and whether its bytes are UTF-8 text (`false` only for a file that
   * opens but does not decode as UTF-8).
   */
  datatype Entry = Entry(name: string, content: Option<Json>, utf8: bool)

  /** The index of the last `.` in `s`, if any. */
  function LastDot(s: string): (r: Option<nat>)
    ensures r.Some? ==> r.value < |s| && s[r.value] == '.' && '.' !in s[r.value + 1..]
    ensures r.None? ==> '.' !in s
  {
    if s == [] then None
    else if s[|s| - 1] == '.' then Some(|s| - 1)
    else
      var r := LastDot(s[..|s| - 1]);
      assert s == s[..|s| - 1] + [s[|s| - 1]];
      if r.Some? then assert s[r.value + 1..] == s[..|s| - 1][r.value + 1..] + [s[|s| - 1]]; r else r
  }

  /**
   * `os.path.splitext(name)[0]`: the name up to its last `.`, except when everything before
   * that dot is dots too (a leading-dot name has no extension).
   */
  function Stem(name: string): string
  {
    match LastDot(name)
    case None => name
    case Some(i) => if exists j :: 0 <= j < i && name[j] != '.' then name[..i] else name
  }

  /** `x.json` loses `.json` whenever `x` is not made of dots only. */
  lemma JsonStem(x: string)
    requires exists j :: 0 <= j < |x| && x[j] != '.'
    ensures Stem(x + ".json") == x
  {
    var name := x + ".json";
    assert name[|x|] == '.';
    var i := LastDot(name).value;
    assert i == |x|;
    var j :| 0 <= j < |x| && x[j] != '.';
    assert name[j] == x[j];
    assert name[..i] == x;
  }

  /** `.json` alone is all extension-less name: its key is the whole name. */
  lemma DotJsonStem()
    ensures Stem(".json") == ".json"
  {
    assert LastDot(".json") == Some(0) by {
      assert ".json"[..4] == ".jso";
      assert LastDot(".jso") == Some(0) by {
        assert ".jso"[..3] == ".js" && ".js"[..2] == ".j" && ".j"[..1] == ".";
      }
    }
  }

  /**
   * What `load_logs` needs of a decoded file to go on: a dict (`data.get`), whose truthy
   * `timestamp` is a string (`timestamp.split`). Anything else raises out of the loop.
   */
  predicate Loadable(data: Json)
  {
    data.JObj? && (Truthy(GetNone(data, "timestamp")) ==> GetNone(data, "timestamp").JStr?)
  }

  /**
   * A listed file on which `load_logs` raises out of its loop: a `.json` file that is not
   * UTF-8 (`UnicodeDecodeError`, which the loop does not catch) or whose decoded content
   * is not `Loadable` (`AttributeError`).
   */
  predicate Raises(e: Entry)
  {
    Text.EndsWith(e.name, ".json") && (!e.utf8 || (e.content.Some? && !Loadable(e.content.value)))
  }

  /** The exception a raising file ends the load with. */
  function Raised(e: Entry): string
  {
    if !e.utf8 then "UnicodeDecodeError" else "AttributeError"
  }

  /** No listed file raises. */
  predicate LoadableListing(listing: seq<Entry>)
  {
    forall k :: 0 <= k < |listing| ==> !Raises(listing[k])
  }

  /** The key of a file: the timestamp up to its first `T`, else the file name's stem. */
  function Key(name: string, data: Json): string
    requires Loadable(data)
  {
    var timestamp := GetNone(data, "timestamp");
    if Truthy(timestamp) then Text.BeforeFirst(timestamp.s, 'T') else Stem(name)
  }

  /** Whether `load_logs` stores this entry: a `.json` name whose UTF-8 content decodes. */
  predicate Stored(e: Entry)
  {
    Text.EndsWith(e.name, ".json") && e.utf8 && e.content.Some?
  }

  /** The map after the whole listing: each stored file assigned under its key, in listing order. */
  function Loaded(listing: seq<Entry>): seq<(string, Json)>
    requires LoadableListing(listing)
  {
    if listing == [] then []
    else
      var init, e := listing[..|listing| - 1], listing[|listing| - 1];
      assert LoadableListing(init) by {
        assert forall k :: 0 <= k < |init| ==> init[k] == listing[k];
      }
      var logs := Loaded(init);
      if Stored(e) then Dicts.Set(logs, Key(e.name, e.content.value), e.content.value) else logs
  }

  /**
   * `load_logs(directory)`: a missing directory raises `FileNotFoundError`; otherwise the
   * listing is walked once and each stored file assigned into the map, until a file
   * raises, which ends the load with that exception.
   */
  method Load(directory: string, isDir: bool, listing: seq<Entry>) returns (r: Result<seq<(string, Json)>, string>)
    ensures !isDir ==> r == Err("Directory not found: " + directory)
    ensures isDir && LoadableListing(listing) ==> r == Ok(Loaded(listing))
    ensures isDir && !LoadableListing(listing) ==>
      exists k :: 0 <= k < |listing| && LoadableListing(listing[..k]) && Raises(listing[k]) && r == Err(Raised(listing[k]))
  {
    if !isDir {
      return Err("Directory not found: " + directory);
    }
    var logs: seq<(string, Json)> := [];
    for i := 0 to |listing|
      invariant LoadableListing(listing[..i])
      invariant logs == Loaded(listing[..i])
    {
      assert listing[..i + 1][..i] == listing[..i];
      var e := listing[i];
      if Raises(e) {
        return Err(Raised(e));
      }
      if !Text.EndsWith(e.name, ".json") {
        continue;
      }
      if e.content.None? {
        continue;
      }
      var data := e.content.value;
      var key := Key(e.name, data);
      logs := Dicts.Set(logs, key, data);
    }
    assert listing[..|listing|] == listing;
    return Ok(logs);
  }

  /** The map never holds a key twice. */
  lemma {:induction false} LoadedUnique(listing: seq<Entry>)
    requires LoadableListing(listing)
    ensures Dicts.UniqueKeys(Loaded(listing))
  {
    if listing != [] {
      var init, e := listing[..|listing| - 1], listing[|listing| - 1];
      assert forall k :: 0 <= k < |init| ==> init[k] == listing[k];
      LoadedUnique(init);
      if Stored(e) {
        Dicts.SetUnique(Loaded(init), Key(e.name, e.content.value), e.content.value);
      }
    }
  }

  /** The last stored file of the listing whose key is `key`, if any. */
  function LastWithKey(listing: seq<Entry>, key: string): Option<Json>
    requires LoadableListing(listing)
  {
    if listing == [] then None
    else
      var init, e := listing[..|listing| - 1], listing[|listing| - 1];
      assert forall k :: 0 <= k < |init| ==> init[k] == listing[k];
      if Stored(e) && Key(e.name, e.content.value) == key then Some(e.content.value)
      else LastWithKey(init, key)
  }

  /** Last write wins: looking a key up gives the last file with that key, and nothing else is there. */
  lemma {:induction false} LastWins(listing: seq<Entry>, key: string)
    requires LoadableListing(listing)
    ensures Dicts.Get(Loaded(listing), key) == LastWithKey(listing, key)
  {
    if listing != [] {
      var init, e := listing[..|listing| - 1], listing[|listing| - 1];
      assert forall k :: 0 <= k < |init| ==> init[k] == listing[k];
      LastWins(init, key);
      if Stored(e) {
        Dicts.GetSet(Loaded(init), Key(e.name, e.content.value), e.content.value, key);
      }
    }
  }

  /**
   * Two stored files with one key leave one entry, holding the later file: the
   * normaliser's `1-1-25.json` and `1-1-25_2.json` of the same day collapse onto one date.
   */
  lemma SameKeyCollapses(e0: Entry, e1: Entry)
    requires Stored(e0) && Stored(e1) && Loadable(e0.content.value) && Loadable(e1.content.value)
    requires Key(e0.name, e0.content.value) == Key(e1.name, e1.content.value)
    ensures LoadableListing([e0, e1])
    ensures Loaded([e0, e1]) == [(Key(e0.name, e0.content.value), e1.content.value)]
  {
    var listing := [e0, e1];
    assert listing[..1] == [e0] && [e0][..0] == [];
    assert Loaded([e0]) == [(Key(e0.name, e0.content.value), e0.content.value)];
  }

  /** A timestamp `<date>T<time>` is keyed by its date. */
  lemma TimestampKey(date: string, time: string)
    requires 'T' !in date
    ensures Text.BeforeFirst(date + "T" + time, 'T') == date
  {
    var ts := date + "T" + time;
    var r := Text.BeforeFirst(ts, 'T');
    assert ts[|date|] == 'T';
    assert r == ts[..|r|];
    assert ts[..|date|] == date;
  }
}
