/**
 * `load_env_file` of backend_test.py: the `KEY=VALUE` lines of a `.env`
 * file become a dictionary, and the API base URL is derived from it.
 *
 * The file is given as its sequence of lines, or `None` when it does not
 * exist; opening and reading it is not modelled.
 */
module EnvFile {
  import opened Wrappers

  /** The characters Python's `str.strip()` removes: those for which `str.isspace()` holds. */
  const Whitespace: set<char> := {
    '\t', '\n', '\U{000B}', '\U{000C}', '\r', '\U{001C}', '\U{001D}', '\U{001E}', '\U{001F}',
    ' ', '\U{0085}', '\U{00A0}', '\U{1680}',
    '\U{2000}', '\U{2001}', '\U{2002}', '\U{2003}', '\U{2004}', '\U{2005}', '\U{2006}',
    '\U{2007}', '\U{2008}', '\U{2009}', '\U{200A}',
    '\U{2028}', '\U{2029}', '\U{202F}', '\U{205F}', '\U{3000}'
  }

  /** The characters `strip('"\'')` removes from a value. */
  const Quotes: set<char> := {'"', '\''}

  /** `s` without its longest prefix of characters from `cs`. */
  function StripLeft(s: string, cs: set<char>): string
  {
    if s != [] && s[0] in cs then StripLeft(s[1..], cs) else s
  }

  /** `s` without its longest suffix of characters from `cs`. */
  function StripRight(s: string, cs: set<char>): string
  {
    if s != [] && s[|s| - 1] in cs then StripRight(s[..|s| - 1], cs) else s
  }

  /** `StripLeft` removes a prefix made only of `cs` characters, and no more than that. */
  lemma {:induction false} StripLeftSpec(s: string, cs: set<char>)
    ensures var r := StripLeft(s, cs);
              && |r| <= |s| && r == s[|s| - |r|..]
              && (forall i :: 0 <= i < |s| - |r| ==> s[i] in cs)
              && (r == [] || r[0] !in cs)
  {
    if s != [] && s[0] in cs {
      StripLeftSpec(s[1..], cs);
    }
  }

  /** `StripRight` removes a suffix made only of `cs` characters, and no more than that. */
  lemma {:induction false} StripRightSpec(s: string, cs: set<char>)
    ensures var r := StripRight(s, cs);
              && |r| <= |s| && r == s[..|r|]
              && (forall i :: |r| <= i < |s| ==> s[i] in cs)
              && (r == [] || r[|r| - 1] !in cs)
  {
    if s != [] && s[|s| - 1] in cs {
      StripRightSpec(s[..|s| - 1], cs);
    }
  }

  /**
   * Python's `s.strip(cs)`: `s` without every leading and every trailing
   * character from `cs`.
   */
  function Strip(s: string, cs: set<char>): string
  {
    StripRight(StripLeft(s, cs), cs)
  }

  /**
   * `s[i..j]` is what remains of `s` once the characters from `cs` at both
   * ends are removed: only such characters lie outside it, and it neither
   * starts nor ends with one.
   */
  ghost predicate IsTrim(s: string, cs: set<char>, i: nat, j: nat)
  {
    && i <= j <= |s|
    && (forall k :: 0 <= k < i ==> s[k] in cs)
    && (forall k :: j <= k < |s| ==> s[k] in cs)
    && (i == j || (s[i] !in cs && s[j - 1] !in cs))
  }

  /** `Strip(s, cs)` is such a slice of `s`. */
  lemma StripIsTrim(s: string, cs: set<char>)
    ensures exists i: nat, j: nat :: IsTrim(s, cs, i, j) && Strip(s, cs) == s[i..j]
  {
    var t := StripLeft(s, cs);
    var r := StripRight(t, cs);
    StripLeftSpec(s, cs);
    StripRightSpec(t, cs);
    var i := |s| - |t|;
    assert r != [] ==> r[0] == t[0];
    assert r == s[i..i + |r|];
    forall k | i + |r| <= k < |s|
      ensures s[k] in cs
    {
      assert s[k] == t[k - i];
    }
    assert IsTrim(s, cs, i, i + |r|);
  }

  /** And it is the only one: every such slice of `s` is `Strip(s, cs)`. */
  lemma TrimIsStrip(s: string, cs: set<char>, i: nat, j: nat)
    requires IsTrim(s, cs, i, j)
    ensures Strip(s, cs) == s[i..j]
  {
    var t := StripLeft(s, cs);
    StripLeftSpec(s, cs);
    StripRightSpec(t, cs);
    var a := |s| - |t|;
    if i == j {
      assert forall k :: 0 <= k < |s| ==> s[k] in cs;
      assert t == [];
    } else {
      assert a == i;
      assert t == s[i..];
      var r := StripRight(t, cs);
      assert |r| == j - i;
      assert r == s[i..j];
    }
  }

  /** The position of the first `c` in `s`, if any. */
  function IndexOf(s: string, c: char): (r: Option<nat>)
    ensures r.None? <==> c !in s
    ensures r.Some? ==> r.value < |s| && s[r.value] == c && c !in s[..r.value]
  {
    if s == [] then None
    else if s[0] == c then Some(0)
    else
      match IndexOf(s[1..], c)
      case None => None
      case Some(i) =>
        assert s[1..][..i] == s[1..i + 1];
        assert s[..i + 1] == [s[0]] + s[1..i + 1];
        Some(i + 1)
  }

  /** One accepted line: the text before the first `=` and the unquoted text after it. */
  datatype Entry = Entry(key: string, value: string)

  /**
   * What one line of the file contributes. After whitespace trimming, an
   * empty line, a comment line and a line without `=` contribute nothing;
   * any other line is split at its first `=`, the key kept as it is and
   * the value stripped of leading and trailing quote characters.
   */
  function ParseLine(raw: string): Option<Entry>
  {
    var line := Strip(raw, Whitespace);
    if line == [] || line[0] == '#' then None
    else
      match IndexOf(line, '=')
      case None => None
      case Some(k) => Some(Entry(line[..k], Strip(line[k + 1..], Quotes)))
  }

  /** The three ways a line is skipped, and the split of an accepted line. */
  lemma ParseLineCases(raw: string)
    ensures var line := Strip(raw, Whitespace);
              ParseLine(raw).None? <==> (line == [] || line[0] == '#' || '=' !in line)
    ensures var line := Strip(raw, Whitespace);
              ParseLine(raw).Some? ==>
                var e := ParseLine(raw).value;
                var k := |e.key|;
                && k < |line| && line[..k] == e.key && line[k] == '='
                && '=' !in e.key
                && e.value == Strip(line[k + 1..], Quotes)
  {
  }

  /**
   * The dictionary built by reading `lines` in order with the line parser
   * `parse`: every entry a line yields sets its key.
   */
  function Collect(lines: seq<string>, parse: string -> Option<Entry>): map<string, string>
  {
    if lines == [] then map[]
    else
      var env := Collect(lines[..|lines| - 1], parse);
      match parse(lines[|lines| - 1])
      case None => env
      case Some(e) => env[e.key := e.value]
  }

  /** The dictionary `load_env_file` builds from `lines`. */
  function ParseLines(lines: seq<string>): map<string, string>
  {
    Collect(lines, ParseLine)
  }

  /** `parse` accepts `line` with key `key`. */
  ghost predicate Yields(parse: string -> Option<Entry>, line: string, key: string)
  {
    parse(line).Some? && parse(line).value.key == key
  }

  /** The keys of the dictionary are exactly the keys of the accepted lines. */
  lemma {:induction false} CollectKeys(lines: seq<string>, parse: string -> Option<Entry>, key: string)
    ensures key in Collect(lines, parse) <==> exists i :: 0 <= i < |lines| && Yields(parse, lines[i], key)
  {
    if lines != [] {
      var last := |lines| - 1;
      var init := lines[..last];
      CollectKeys(init, parse, key);
      assert forall i :: 0 <= i < last ==> init[i] == lines[i];
      if !Yields(parse, lines[last], key) {
        if exists i :: 0 <= i < |lines| && Yields(parse, lines[i], key) {
          var i :| 0 <= i < |lines| && Yields(parse, lines[i], key);
          assert Yields(parse, init[i], key);
        }
      }
    }
  }

  /** When several accepted lines share a key, the last of them gives its value. */
  lemma {:induction false} CollectLastWins(lines: seq<string>, parse: string -> Option<Entry>, i: nat, key: string)
    requires i < |lines| && Yields(parse, lines[i], key)
    requires forall j :: i < j < |lines| ==> !Yields(parse, lines[j], key)
    ensures key in Collect(lines, parse)
    ensures Collect(lines, parse)[key] == parse(lines[i]).value.value
  {
    var last := |lines| - 1;
    if i < last {
      var init := lines[..last];
      assert init[i] == lines[i];
      forall j | i < j < |init|
        ensures !Yields(parse, init[j], key)
      {
        assert init[j] == lines[j];
      }
      CollectLastWins(init, parse, i, key);
    }
  }

  /**
   * `load_env_file`: a missing file gives an empty dictionary; otherwise
   * every line is parsed in order and each accepted line sets its key.
   */
  method LoadEnvFile(file: Option<seq<string>>) returns (env: map<string, string>)
    ensures file.None? ==> env == map[]
    ensures file.Some? ==> env == ParseLines(file.value)
  {
    env := map[];
    if file.None? {
      return;
    }
    var lines := file.value;
    var n := 0;
    while n < |lines|
      invariant 0 <= n <= |lines|
      invariant env == ParseLines(lines[..n])
    {
      var line := Strip(lines[n], Whitespace);
      if line != [] && line[0] != '#' && '=' in line {
        var k := IndexOf(line, '=').value;
        var key, value := line[..k], line[k + 1..];
        value := Strip(value, Quotes);
        env := env[key := value];
      }
      assert lines[..n + 1][..n] == lines[..n];
      n := n + 1;
    }
    assert lines[..|lines|] == lines;
  }

  const BackendUrlKey := "EXPO_PUBLIC_BACKEND_URL"
  const DefaultBackendUrl := "http://localhost:8001"

  /** `API_BASE_URL`: the configured backend URL, or the local default, followed by `/api`. */
  function ApiBaseUrl(env: map<string, string>): string
  {
    (if BackendUrlKey in env then env[BackendUrlKey] else DefaultBackendUrl) + "/api"
  }

  /** A file with no accepted `EXPO_PUBLIC_BACKEND_URL` line, or no file, gives the local default. */
  lemma ApiBaseDefault(file: Option<seq<string>>)
    requires file.Some? ==> forall i :: 0 <= i < |file.value| ==> !Yields(ParseLine, file.value[i], BackendUrlKey)
    ensures ApiBaseUrl(if file.None? then map[] else ParseLines(file.value)) == "http://localhost:8001/api"
  {
    if file.Some? {
      CollectKeys(file.value, ParseLine, BackendUrlKey);
    }
  }

  /** Otherwise the last accepted `EXPO_PUBLIC_BACKEND_URL` line gives the base. */
  lemma ApiBaseConfigured(lines: seq<string>, i: nat)
    requires i < |lines| && Yields(ParseLine, lines[i], BackendUrlKey)
    requires forall j :: i < j < |lines| ==> !Yields(ParseLine, lines[j], BackendUrlKey)
    ensures ApiBaseUrl(ParseLines(lines)) == ParseLine(lines[i]).value.value + "/api"
  {
    CollectLastWins(lines, ParseLine, i, BackendUrlKey);
  }
}
