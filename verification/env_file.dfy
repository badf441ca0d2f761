/** The hand-written `.env.local` reader shared by the two admin scripts:
    the content is split on line feeds, each line on `=`, and a line with a
    non-empty key and at least one `=` binds the key to the trimmed text after
    the first `=`; a later line for the same key overwrites an earlier one. */
module EnvFile {
  import opened Wrappers
  import opened Text
  import opened Strings

  /** What one line contributes: `None` for a skipped line. The key is the
      text before the first `=`, untrimmed; the value is everything after it,
      trimmed. */
  function ParseLine(line: string): (r: Option<(string, string)>)
    ensures r.None? <==> '=' !in line || line[0] == '='
    ensures r.Some? ==>
              var k := |r.value.0|;
              && 0 < k < |line| && line[k] == '=' && line[..k] == r.value.0
              && '=' !in r.value.0
              && r.value.1 == Trim(line[k + 1..])
  {
    var parts := Split(line, '=');
    SplitSingleIffNoSeparator(line, '=');
    if '=' in line then
      SplitHeadAndRest(line, '=');
      var key := parts[0];
      assert line == key + ['='] + Join(parts[1..], '=');
      assert line[..|key|] == key;
      assert line[|key|] == '=';
      assert line[|key| + 1..] == Join(parts[1..], '=');
      assert key == "" <==> line[0] == '=';
      if key != "" && |parts| > 1 then Some((key, Trim(Join(parts[1..], '=')))) else None
    else
      None
  }

  /** The contribution of each line, in file order. */
  function Entries(lines: seq<string>): (r: seq<Option<(string, string)>>)
    ensures |r| == |lines|
    ensures forall i :: 0 <= i < |lines| ==> r[i] == ParseLine(lines[i])
  {
    seq(|lines|, i requires 0 <= i < |lines| => ParseLine(lines[i]))
  }

  /** The bindings after applying `entries` in order, later ones overwriting
      earlier ones. */
  function Bind(entries: seq<Option<(string, string)>>): map<string, string>
    decreases |entries|
  {
    if entries == [] then map[]
    else
      var m := Bind(entries[..|entries| - 1]);
      match entries[|entries| - 1]
      case None => m
      case Some(kv) => m[kv.0 := kv.1]
  }

  function ParseLines(lines: seq<string>): map<string, string> {
    Bind(Entries(lines))
  }

  /** The bindings of a whole file: a key is bound exactly when some line
      defines it, and then to the value of the last such line. */
  function ParseEnv(content: string): (r: map<string, string>)
    ensures forall key :: key in r <==> DefinedIn(Split(content, '\n'), key)
    ensures forall key :: key in r ==> LastDefinition(Split(content, '\n'), key, r[key])
  {
    ParseLinesSpec(Split(content, '\n'));
    ParseLines(Split(content, '\n'))
  }

  /** Some line defines `key`. */
  ghost predicate DefinedIn(lines: seq<string>, key: string) {
    exists i :: 0 <= i < |lines| && Defines(ParseLine(lines[i]), key)
  }

  /** Some line binds `key` to `value` and no later line defines `key`. */
  ghost predicate LastDefinition(lines: seq<string>, key: string, value: string) {
    exists i :: 0 <= i < |lines| && ParseLine(lines[i]) == Some((key, value))
                && forall j :: i < j < |lines| ==> !Defines(ParseLine(lines[j]), key)
  }

  lemma ParseLinesSpec(lines: seq<string>)
    ensures forall key :: key in ParseLines(lines) <==> DefinedIn(lines, key)
    ensures forall key :: key in ParseLines(lines) ==> LastDefinition(lines, key, ParseLines(lines)[key])
  {
    var entries := Entries(lines);
    forall key | true
      ensures key in ParseLines(lines) <==> DefinedIn(lines, key)
    {
      BoundIffDefined(entries, key);
      if DefinedIn(lines, key) {
        var i :| 0 <= i < |lines| && Defines(ParseLine(lines[i]), key);
        assert Defines(entries[i], key);
      }
    }
    forall key | key in ParseLines(lines)
      ensures LastDefinition(lines, key, ParseLines(lines)[key])
    {
      LastOccurrenceWins(entries, key);
    }
  }

  predicate Defines(entry: Option<(string, string)>, key: string) {
    entry.Some? && entry.value.0 == key
  }

  /** A key is bound exactly when some entry defines it. */
  lemma {:induction false} BoundIffDefined(entries: seq<Option<(string, string)>>, key: string)
    ensures key in Bind(entries) <==> exists i :: 0 <= i < |entries| && Defines(entries[i], key)
    decreases |entries|
  {
    if entries != [] {
      var n := |entries|;
      var init := entries[..n - 1];
      BoundIffDefined(init, key);
      if exists i :: 0 <= i < |init| && Defines(init[i], key) {
        var i :| 0 <= i < |init| && Defines(init[i], key);
        assert entries[i] == init[i];
      }
      if exists i :: 0 <= i < n && Defines(entries[i], key) {
        var i :| 0 <= i < n && Defines(entries[i], key);
        if i < n - 1 { assert init[i] == entries[i]; }
      }
    }
  }

  /** A bound key holds the value of the LAST entry that defines it. */
  lemma {:induction false} LastOccurrenceWins(entries: seq<Option<(string, string)>>, key: string)
    requires key in Bind(entries)
    ensures exists i :: 0 <= i < |entries| && entries[i] == Some((key, Bind(entries)[key]))
                        && forall j :: i < j < |entries| ==> !Defines(entries[j], key)
    decreases |entries|
  {
    var n := |entries|;
    var init := entries[..n - 1];
    if !Defines(entries[n - 1], key) {
      LastOccurrenceWins(init, key);
      var i :| 0 <= i < |init| && init[i] == Some((key, Bind(init)[key]))
               && forall j :: i < j < |init| ==> !Defines(init[j], key);
      assert entries[i] == init[i];
      forall j | i < j < n ensures !Defines(entries[j], key) {
        if j < n - 1 { assert entries[j] == init[j]; }
      }
    }
  }

  /** Reading a file assembled from line-feed-free lines reads those lines. */
  lemma ParseJoinedLines(lines: seq<string>)
    requires |lines| >= 1
    requires forall i :: 0 <= i < |lines| ==> '\n' !in lines[i]
    ensures ParseEnv(Join(lines, '\n')) == ParseLines(lines)
  {
    SplitJoin(lines, '\n');
  }

  /** A line whose first `=` follows the non-empty `key` binds `key`, blanks
      and all, to the trimmed rest, which may itself contain `=`. */
  lemma LineBinds(key: string, rest: string)
    requires key != [] && '=' !in key
    ensures ParseLine(key + "=" + rest) == Some((key, Trim(rest)))
  {
    var line := key + "=" + rest;
    assert line[..|key|] == key && line[|key|] == '=' && line[|key| + 1..] == rest;
    assert '=' in line;
  }
}
