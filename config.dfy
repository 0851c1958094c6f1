/** The key=value configuration file (SimpleConfig) and the command-line
    lookup of its path (RovoConfig::resolveConfigPathFromArgs). The file is
    given as its sequence of lines, or None when it cannot be opened. */
module Config {
  import opened Wrappers

  /** The characters trim removes: space, tab, carriage return, newline. */
  predicate IsSpace(c: char)
  {
    c == ' ' || c == '\t' || c == '\r' || c == '\n'
  }

  /** Every character of s in [lo, hi) is whitespace. */
  predicate SpacesBetween(s: string, lo: int, hi: int)
    requires 0 <= lo && hi <= |s|
  {
    forall j :: lo <= j < hi ==> IsSpace(s[j])
  }

  /** find_first_not_of from index i: the first non-whitespace index at or
      after i, or |s| when there is none. */
  function FirstNotSpace(s: string, i: nat): (r: nat)
    requires i <= |s|
    ensures i <= r <= |s| && SpacesBetween(s, i, r)
    ensures r < |s| ==> !IsSpace(s[r])
    decreases |s| - i
  {
    if i == |s| || !IsSpace(s[i]) then i else FirstNotSpace(s, i + 1)
  }

  /** find_last_not_of below e, plus one: the end of s[..e] once its
      trailing whitespace is cut, or 0 when there is none. */
  function EndNotSpace(s: string, e: nat): (r: nat)
    requires e <= |s|
    ensures r <= e && SpacesBetween(s, r, e)
    ensures r > 0 ==> !IsSpace(s[r - 1])
  {
    if e == 0 || !IsSpace(s[e - 1]) then e else EndNotSpace(s, e - 1)
  }

  /** What trim leaves of s: empty when s is all whitespace, otherwise the
      text from the first to the last non-whitespace character. */
  function Trimmed(s: string): string
  {
    var b := FirstNotSpace(s, 0);
    if b == |s| then []
    else
      var e := EndNotSpace(s, |s|);
      assert b < e;
      s[b..e]
  }

  /** trim empties exactly the all-whitespace strings. */
  lemma TrimmedEmptyIff(s: string)
    ensures Trimmed(s) == [] <==> SpacesBetween(s, 0, |s|)
  {
  }

  /** A non-empty trim result begins and ends with a non-whitespace
      character, and is a contiguous piece of s with only whitespace cut
      from either side. */
  lemma TrimmedShape(s: string)
    ensures var t := Trimmed(s);
      && (t != [] ==> !IsSpace(t[0]) && !IsSpace(t[|t| - 1]))
      && exists b, e :: 0 <= b <= e <= |s| && t == s[b..e] && SpacesBetween(s, 0, b) && SpacesBetween(s, e, |s|)
  {
    var b := FirstNotSpace(s, 0);
    if b == |s| {
      assert Trimmed(s) == s[0..0];
    } else {
      var e := EndNotSpace(s, |s|);
      assert b < e;
      assert Trimmed(s) == s[b..e];
    }
  }

  /** A string whose ends are not whitespace is left as it is. */
  lemma TrimmedNoOp(s: string)
    requires s != [] ==> !IsSpace(s[0]) && !IsSpace(s[|s| - 1])
    ensures Trimmed(s) == s
  {
    if s != [] {
      assert s[0..|s|] == s;
    }
  }

  /** trim is idempotent. */
  lemma TrimmedIdempotent(s: string)
    ensures Trimmed(Trimmed(s)) == Trimmed(s)
  {
    TrimmedShape(s);
    TrimmedNoOp(Trimmed(s));
  }

  /** SimpleConfig::trim: find_first_not_of, then find_last_not_of, then
      the substring between them. */
  method Trim(s: string) returns (t: string)
    ensures t == Trimmed(s)
  {
    var b := 0;
    while b < |s| && IsSpace(s[b])
      invariant 0 <= b <= |s|
      invariant FirstNotSpace(s, b) == FirstNotSpace(s, 0)
    {
      b := b + 1;
    }
    if b == |s| {
      return [];
    }
    var e := |s|;
    while IsSpace(s[e - 1])
      invariant b < e <= |s|
      invariant EndNotSpace(s, e) == EndNotSpace(s, |s|)
      decreases e
    {
      e := e - 1;
    }
    t := s[b..e];
  }

  /** The index of the first c in s, if any. */
  function Find(s: string, c: char): (r: Option<nat>)
    ensures r.None? <==> c !in s
    ensures r.Some? ==> r.value < |s| && s[r.value] == c && c !in s[..r.value]
  {
    if s == [] then None
    else if s[0] == c then Some(0)
    else
      match Find(s[1..], c)
      case None => None
      case Some(i) =>
        assert s[..i + 1] == [s[0]] + s[1..][..i];
        Some(i + 1)
  }

  /** One line of the file: skipped (None) when it is blank or a '#'
      comment after trimming, has no '=', or has an empty key; otherwise
      the trimmed text before the first '=' and the trimmed text after it. */
  function ParseLine(line: string): Option<(string, string)>
  {
    var t := Trimmed(line);
    if t == [] || t[0] == '#' then None
    else
      match Find(t, '=')
      case None => None
      case Some(eq) =>
        var key := Trimmed(t[..eq]);
        var value := Trimmed(t[eq + 1..]);
        if key == [] then None else Some((key, value))
  }

  /** Blank lines, comments and lines without '=' store nothing; a stored
      key is never empty and holds no '='. */
  lemma ParseLineSkips(line: string)
    ensures var t := Trimmed(line); t == [] || t[0] == '#' || '=' !in t ==> ParseLine(line).None?
    ensures ParseLine(line).Some? ==> ParseLine(line).value.0 != [] && '=' !in ParseLine(line).value.0
  {
    var t := Trimmed(line);
    if ParseLine(line).Some? {
      var eq := Find(t, '=').value;
      var before := t[..eq];
      TrimmedShape(before);
    }
  }

  /** Keys and values come out trimmed. */
  lemma ParsedIsTrimmed(line: string)
    requires ParseLine(line).Some?
    ensures Trimmed(ParseLine(line).value.0) == ParseLine(line).value.0
    ensures Trimmed(ParseLine(line).value.1) == ParseLine(line).value.1
  {
    var t := Trimmed(line);
    var eq := Find(t, '=').value;
    TrimmedIdempotent(t[..eq]);
    TrimmedIdempotent(t[eq + 1..]);
  }

  /** Writing a trimmed key and value as "key=value" and reading the line
      back gives them again, provided the key has no '=' and does not
      start a comment. */
  lemma ParseLineRoundTrip(key: string, value: string)
    requires key != [] && key[0] != '#' && '=' !in key
    requires Trimmed(key) == key && Trimmed(value) == value
    ensures ParseLine(key + "=" + value) == Some((key, value))
  {
    var line := key + "=" + value;
    TrimmedShape(key);
    TrimmedShape(value);
    assert line[0] == key[0];
    if value != [] {
      assert line[|line| - 1] == value[|value| - 1];
    }
    TrimmedNoOp(line);
    assert line[..|key|] == key;
    assert line[|key|] == '=';
    assert Find(line, '=') == Some(|key|);
    assert line[|key| + 1..] == value;
  }

  /** The body of the loadFromFile loop for one line. */
  method ReadLine(text: string) returns (entry: Option<(string, string)>)
    ensures entry == ParseLine(text)
  {
    var line := Trim(text);
    if line == [] || line[0] == '#' {
      return None;
    }
    var eq := Find(line, '=');
    if eq.None? {
      return None;
    }
    var key := Trim(line[..eq.value]);
    var value := Trim(line[eq.value + 1..]);
    if key == [] {
      return None;
    }
    return Some((key, value));
  }

  /** A parsed line: the key and value it stores, if any. */
  type Entry = Option<(string, string)>

  /** The parse of every line, in order. */
  function ParsedLines(lines: seq<string>): (r: seq<Entry>)
    ensures |r| == |lines|
  {
    seq(|lines|, i requires 0 <= i < |lines| => ParseLine(lines[i]))
  }

  /** Parsed lines applied in order to the stored map; a later entry
      overwrites an earlier one with the same key. */
  function Store(data: map<string, string>, entries: seq<Entry>): map<string, string>
  {
    if entries == [] then data
    else
      var before := Store(data, entries[..|entries| - 1]);
      match entries[|entries| - 1]
      case None => before
      case Some((key, value)) => before[key := value]
  }

  /** The map after loading the given lines on top of data. */
  function LoadLines(data: map<string, string>, lines: seq<string>): map<string, string>
  {
    Store(data, ParsedLines(lines))
  }

  /** Storing one more entry. */
  lemma StoreStep(data: map<string, string>, entries: seq<Entry>, i: nat)
    requires i < |entries|
    ensures entries[i].None? ==> Store(data, entries[..i + 1]) == Store(data, entries[..i])
    ensures entries[i].Some? ==>
              Store(data, entries[..i + 1]) == Store(data, entries[..i])[entries[i].value.0 := entries[i].value.1]
  {
    assert entries[..i + 1][..i] == entries[..i];
  }

  predicate StoresKey(e: Entry, key: string)
  {
    e.Some? && e.value.0 == key
  }

  /** Whether a line stores the given key. */
  predicate Defines(line: string, key: string)
  {
    StoresKey(ParseLine(line), key)
  }

  lemma {:induction false} StoredKeys(data: map<string, string>, entries: seq<Entry>, key: string)
    ensures key in Store(data, entries) <==> key in data || exists i :: 0 <= i < |entries| && StoresKey(entries[i], key)
  {
    if entries != [] {
      var front := entries[..|entries| - 1];
      StoredKeys(data, front, key);
      if exists i :: 0 <= i < |front| && StoresKey(front[i], key) {
        var i :| 0 <= i < |front| && StoresKey(front[i], key);
        assert entries[i] == front[i];
      }
      if exists i :: 0 <= i < |entries| && StoresKey(entries[i], key) {
        var i :| 0 <= i < |entries| && StoresKey(entries[i], key);
        if i < |front| {
          assert front[i] == entries[i];
        }
      }
    }
  }

  lemma {:induction false} LastEntryWins(data: map<string, string>, entries: seq<Entry>, j: nat)
    requires j < |entries| && entries[j].Some?
    requires forall i :: j < i < |entries| ==> !StoresKey(entries[i], entries[j].value.0)
    ensures entries[j].value.0 in Store(data, entries)
    ensures Store(data, entries)[entries[j].value.0] == entries[j].value.1
  {
    if j < |entries| - 1 {
      var front := entries[..|entries| - 1];
      assert front[j] == entries[j];
      forall i | j < i < |front|
        ensures !StoresKey(front[i], front[j].value.0)
      {
        assert front[i] == entries[i];
      }
      LastEntryWins(data, front, j);
    }
  }

  /** A key is present after loading iff it was already present or some
      line defines it. */
  lemma LoadedKeys(data: map<string, string>, lines: seq<string>, key: string)
    ensures key in LoadLines(data, lines) <==> key in data || exists i :: 0 <= i < |lines| && Defines(lines[i], key)
  {
    var entries := ParsedLines(lines);
    StoredKeys(data, entries, key);
    if exists i :: 0 <= i < |entries| && StoresKey(entries[i], key) {
      var i :| 0 <= i < |entries| && StoresKey(entries[i], key);
      assert Defines(lines[i], key);
    }
    if exists i :: 0 <= i < |lines| && Defines(lines[i], key) {
      var i :| 0 <= i < |lines| && Defines(lines[i], key);
      assert StoresKey(entries[i], key);
    }
  }

  /** The last line that defines a key decides its value. */
  lemma LastLineWins(data: map<string, string>, lines: seq<string>, j: nat, key: string, value: string)
    requires j < |lines| && ParseLine(lines[j]) == Some((key, value))
    requires forall i :: j < i < |lines| ==> !Defines(lines[i], key)
    ensures key in LoadLines(data, lines) && LoadLines(data, lines)[key] == value
  {
    var entries := ParsedLines(lines);
    forall i | j < i < |entries|
      ensures !StoresKey(entries[i], key)
    {
      assert !Defines(lines[i], key);
    }
    LastEntryWins(data, entries, j);
  }

  /** The message requireString throws for a missing key. */
  function MissingKey(key: string): string
  {
    "Missing required config key: " + key
  }

  class SimpleConfig {
    var data: map<string, string>

    constructor()
      ensures data == map[]
    {
      data := map[];
    }

    /** loadFromFile: false, with nothing changed, when the file cannot be
        opened; otherwise every line is parsed into the stored map, which
        is not cleared first. */
    method LoadFromFile(file: Option<seq<string>>) returns (ok: bool)
      modifies this
      ensures ok <==> file.Some?
      ensures ok ==> data == LoadLines(old(data), file.value)
      ensures !ok ==> data == old(data)
    {
      if file.None? {
        return false;
      }
      var lines := file.value;
      ghost var start := data;
      ghost var entries := ParsedLines(lines);
      var lineNo := 0;
      while lineNo < |lines|
        invariant 0 <= lineNo <= |lines|
        invariant data == Store(start, entries[..lineNo])
      {
        var entry := ReadLine(lines[lineNo]);
        assert entry == entries[lineNo];
        StoreStep(start, entries, lineNo);
        if entry.Some? {
          data := data[entry.value.0 := entry.value.1];
        }
        lineNo := lineNo + 1;
      }
      assert entries[..lineNo] == entries;
      return true;
    }

    function Has(key: string): (r: bool)
      reads this
      ensures r <==> key in data
    {
      key in data
    }

    /** getString; its default argument, "" in the source, is passed
        explicitly (GetString(key, "") is the one-argument call). */
    function GetString(key: string, default: string): (r: string)
      reads this
      ensures key in data ==> r == data[key]
      ensures key !in data ==> r == default
    {
      if key in data then data[key] else default
    }

    /** requireString: the stored value, or the error for a missing key. */
    function RequireString(key: string): (r: Result<string, string>)
      reads this
      ensures r.Failure? <==> key !in data
      ensures r.Success? ==> r.value == data[key]
      ensures r.Failure? ==> r.error == MissingKey(key)
    {
      if key in data then Success(data[key]) else Failure(MissingKey(key))
    }
  }

  /** After loading a file into an empty configuration, a key is available
      to requireString exactly when some line defines it. */
  lemma RequireAfterLoad(lines: seq<string>, key: string)
    ensures key in LoadLines(map[], lines) <==> exists i :: 0 <= i < |lines| && Defines(lines[i], key)
  {
    LoadedKeys(map[], lines, key);
  }

  const CONFIG_FLAG: string := "--config"
  const CONFIG_PREFIX: string := "--config="

  predicate StartsWith(s: string, prefix: string)
  {
    |prefix| <= |s| && s[..|prefix|] == prefix
  }

  /** An argument that selects the configuration path. */
  predicate IsConfigArg(arg: string)
  {
    arg == CONFIG_FLAG || StartsWith(arg, CONFIG_PREFIX)
  }

  /** The first configuration argument at index i or later. */
  function FirstConfigArg(args: seq<string>, i: nat): (r: Option<nat>)
    ensures r.None? <==> forall j :: i <= j < |args| ==> !IsConfigArg(args[j])
    ensures r.Some? ==> i <= r.value < |args| && IsConfigArg(args[r.value])
    ensures r.Some? ==> forall j :: i <= j < r.value ==> !IsConfigArg(args[j])
    decreases |args| - i
  {
    if i >= |args| then None
    else if IsConfigArg(args[i]) then Some(i)
    else FirstConfigArg(args, i + 1)
  }

  /** The path named by the configuration argument at index j. */
  function PathAt(args: seq<string>, j: nat, defaultPath: string): string
    requires j < |args| && IsConfigArg(args[j])
  {
    if StartsWith(args[j], CONFIG_PREFIX) then
      var value := args[j][|CONFIG_PREFIX|..];
      if value == [] then defaultPath else value
    else if j + 1 < |args| && args[j + 1] != [] && args[j + 1][0] != '-' then args[j + 1]
    else defaultPath
  }

  /** resolveConfigPathFromArgs over argv: argv[0] is the program name. */
  function ResolvedPath(args: seq<string>, defaultPath: string): string
  {
    match FirstConfigArg(args, 1)
    case None => defaultPath
    case Some(j) =>
      var path := PathAt(args, j, defaultPath);
      if path == [] then defaultPath else path
  }

  /** The argv scan, stopping at the first configuration argument. */
  method ResolveConfigPathFromArgs(args: seq<string>, defaultPath: string) returns (path: string)
    ensures path == ResolvedPath(args, defaultPath)
  {
    path := "";
    var i := 1;
    while i < |args|
      invariant 1 <= i
      invariant path == ""
      invariant FirstConfigArg(args, 1) == FirstConfigArg(args, i)
    {
      var arg := args[i];
      if arg == "--help" || arg == "-h" {
        i := i + 1;
        continue;
      }
      if StartsWith(arg, CONFIG_PREFIX) {
        var value := arg[|CONFIG_PREFIX|..];
        path := if value == [] then defaultPath else value;
        break;
      }
      if arg == CONFIG_FLAG {
        if i + 1 < |args| {
          var next := args[i + 1];
          if next != [] && next[0] != '-' {
            path := next;
          } else {
            path := defaultPath;
          }
        } else {
          path := defaultPath;
        }
        break;
      }
      i := i + 1;
    }
    if path == [] {
      path := defaultPath;
    }
  }

  /** With no configuration argument after the program name, the default
      path is used; "--help" and "-h" are never taken as one. */
  lemma DefaultWithoutConfigArg(args: seq<string>, defaultPath: string)
    requires forall j :: 1 <= j < |args| ==> !IsConfigArg(args[j])
    ensures ResolvedPath(args, defaultPath) == defaultPath
    ensures !IsConfigArg("--help") && !IsConfigArg("-h")
  {
  }

  /** "--config=X" as the first configuration argument gives X, or the
      default when X is empty. */
  lemma ConfigEqualsForm(args: seq<string>, j: nat, value: string, defaultPath: string)
    requires 1 <= j < |args| && args[j] == CONFIG_PREFIX + value
    requires forall i :: 1 <= i < j ==> !IsConfigArg(args[i])
    ensures ResolvedPath(args, defaultPath) == if value == [] then defaultPath else value
  {
    assert args[j][..|CONFIG_PREFIX|] == CONFIG_PREFIX;
    assert args[j][|CONFIG_PREFIX|..] == value;
  }

  /** "--config" as the first configuration argument takes the next
      argument when it is non-empty and does not start with '-', and the
      default otherwise, also when it is the last argument. */
  lemma ConfigFlagForm(args: seq<string>, j: nat, defaultPath: string)
    requires 1 <= j < |args| && args[j] == CONFIG_FLAG
    requires forall i :: 1 <= i < j ==> !IsConfigArg(args[i])
    ensures ResolvedPath(args, defaultPath) ==
              if j + 1 < |args| && args[j + 1] != [] && args[j + 1][0] != '-' then args[j + 1] else defaultPath
  {
    assert !StartsWith(args[j], CONFIG_PREFIX);
  }

  /** A non-empty default path means a non-empty result, and the program
      name never matters. */
  lemma ResolvedPathFacts(args: seq<string>, defaultPath: string, program: string)
    requires args != []
    ensures defaultPath != [] ==> ResolvedPath(args, defaultPath) != []
    ensures ResolvedPath([program] + args[1..], defaultPath) == ResolvedPath(args, defaultPath)
  {
    var other := [program] + args[1..];
    assert forall j :: 1 <= j < |args| ==> other[j] == args[j];
    SameTailSameScan(args, other, 1);
  }

  /** The default of resolveConfigPathFromArgs's defaultPath argument. */
  const DEFAULT_CONFIG_PATH: string := "config.txt"

  /** resolveConfigPathFromArgs called without a default path. */
  method ResolveDefaultConfigPath(args: seq<string>) returns (path: string)
    ensures path == ResolvedPath(args, DEFAULT_CONFIG_PATH)
    ensures path != []
    ensures (forall j :: 1 <= j < |args| ==> !IsConfigArg(args[j])) ==> path == "config.txt"
  {
    path := ResolveConfigPathFromArgs(args, DEFAULT_CONFIG_PATH);
    if args != [] {
      ResolvedPathFacts(args, DEFAULT_CONFIG_PATH, args[0]);
    }
    if forall j :: 1 <= j < |args| ==> !IsConfigArg(args[j]) {
      DefaultWithoutConfigArg(args, DEFAULT_CONFIG_PATH);
    }
  }

  lemma {:induction false} SameTailSameScan(a: seq<string>, b: seq<string>, i: nat)
    requires |a| == |b| && forall j :: 1 <= j < |a| ==> a[j] == b[j]
    requires i >= 1
    ensures FirstConfigArg(a, i) == FirstConfigArg(b, i)
    decreases |a| - i
  {
    if i < |a| {
      SameTailSameScan(a, b, i + 1);
    }
  }
}
