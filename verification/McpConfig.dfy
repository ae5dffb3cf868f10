/** The MCP server entry in Codex's config.toml: the block that is rendered, and
    installing and uninstalling it in the file. */
module McpConfig {
  import opened Wrappers
  import opened Segments
  import opened ManagedBlock

  const MARKERS: Markers := Markers("# >>> resleeve mcp (managed) >>>", "# <<< resleeve mcp (managed) <<<")
  const TABLE: string := "[mcp_servers.resleeve]"
  const ARGS: string := "args = [\"mcp\"]"

  /** tomlQuote */
  function Quoted(s: string): string {
    "\"" + Escaped(s) + "\""
  }

  function Escaped(s: string): string {
    if s == "" then ""
    else (if s[0] == '\\' then "\\\\" else if s[0] == '"' then "\\\"" else [s[0]]) + Escaped(s[1..])
  }

  /** A TOML basic string read back, as far as these two escapes go. */
  function Unescaped(s: string): Option<string> {
    if s == "" then Some("")
    else if s[0] == '"' then None
    else if s[0] != '\\' then
      match Unescaped(s[1..]) case None => None case Some(rest) => Some([s[0]] + rest)
    else if |s| < 2 || (s[1] != '\\' && s[1] != '"') then None
    else
      match Unescaped(s[2..]) case None => None case Some(rest) => Some([s[1]] + rest)
  }

  /** The quoted path reads back as the path, and adds no newline. */
  lemma {:induction false} QuotingRoundTrip(s: string)
    ensures Unescaped(Escaped(s)) == Some(s)
    ensures '\n' in Escaped(s) ==> '\n' in s
  {
    if s != "" {
      QuotingRoundTrip(s[1..]);
      var rest := Escaped(s[1..]);
      assert s == [s[0]] + s[1..];
      if s[0] == '\\' || s[0] == '"' {
        assert Escaped(s) == ['\\', s[0]] + rest;
        assert Escaped(s)[2..] == rest;
      } else {
        assert Escaped(s) == [s[0]] + rest;
        assert Escaped(s)[1..] == rest;
      }
    }
  }

  function CommandLine(binPath: string): string {
    "command = " + Quoted(binPath)
  }

  function FiveLines(a: string, b: string, c: string, d: string, e: string): string {
    a + "\n" + b + "\n" + c + "\n" + d + "\n" + e + "\n"
  }

  /** renderMCPBlock */
  function Rendered(binPath: string): string {
    FiveLines(MARKERS.begin, TABLE, CommandLine(binPath), ARGS, MARKERS.end)
  }

  lemma {:induction false} StartKept(s: string)
    requires s != "" && !IsSpace(s[0])
    ensures Trim(s) != "" && Trim(s)[0] == s[0]
  {
    assert TrimLeft(s) == s;
    TrimRightKeepsFirst(s);
  }

  lemma {:induction false} TrimRightKeepsFirst(s: string)
    requires s != "" && !IsSpace(s[0])
    ensures TrimRight(s) != "" && TrimRight(s)[0] == s[0]
    decreases |s|
  {
    if IsSpace(s[|s| - 1]) {
      TrimRightKeepsFirst(s[..|s| - 1]);
    }
  }

  lemma {:induction false} BeginIsTight()
    ensures '\n' !in MARKERS.begin && MARKERS.begin[0] == '#' && Trim(MARKERS.begin) == MARKERS.begin
  {
    TrimOfTight(MARKERS.begin);
  }

  lemma {:induction false} EndIsTight()
    ensures '\n' !in MARKERS.end && MARKERS.end[0] == '#' && Trim(MARKERS.end) == MARKERS.end
  {
    TrimOfTight(MARKERS.end);
  }

  lemma {:induction false} MarkersAreGood()
    ensures MARKERS.Good() && '\n' !in MARKERS.begin && '\n' !in MARKERS.end
    ensures MARKERS.begin[0] == '#' && MARKERS.end[0] == '#'
  {
    BeginIsTight();
    EndIsTight();
    MarkersDiffer();
  }

  lemma {:induction false} MarkersDiffer()
    ensures MARKERS.begin != MARKERS.end && MARKERS.begin != "" && MARKERS.end != ""
  {
    assert MARKERS.begin[2] == '>' && MARKERS.end[2] == '<';
  }

  lemma {:induction false} TrimOfTight(s: string)
    requires s != "" && !IsSpace(s[0]) && !IsSpace(s[|s| - 1])
    ensures Trim(s) == s
  {
  }

  lemma {:induction false} InsideLine(line: string)
    requires line != "" && line[0] != '#' && !IsSpace(line[0])
    ensures Trim(line) != MARKERS.begin && Trim(line) != MARKERS.end
  {
    MarkersAreGood();
    StartKept(line);
  }

  /** Five lines whose first and last are the markers, and whose middle is neither. */
  lemma {:induction false} FiveLineBlock(m: Markers, a: string, b: string, c: string, d: string, e: string)
    requires '\n' !in a && '\n' !in b && '\n' !in c && '\n' !in d && '\n' !in e
    requires Trim(a) == m.begin && Trim(e) == m.end && Inside(m, [b, c, d])
    ensures IsBlock(m, FiveLines(a, b, c, d, e)) && FiveLines(a, b, c, d, e) != ""
  {
    FiveLinesSplit(a, b, c, d, e);
    assert [a, b, c, d, e, ""] == [a] + [b, c, d] + [e, ""];
  }

  lemma {:induction false} PlainLines(binPath: string)
    requires '\n' !in binPath
    ensures '\n' !in TABLE && '\n' !in ARGS && '\n' !in CommandLine(binPath)
    ensures TABLE[0] == '[' && ARGS[0] == 'a' && CommandLine(binPath)[0] == 'c'
  {
    QuotingRoundTrip(binPath);
  }

  lemma {:induction false} MiddleIsInside(binPath: string)
    requires '\n' !in binPath
    ensures Inside(MARKERS, [TABLE, CommandLine(binPath), ARGS])
  {
    PlainLines(binPath);
    hide CommandLine, Trim;
    InsideLine(TABLE);
    InsideLine(CommandLine(binPath));
    InsideLine(ARGS);
  }

  /** The rendered block is one, for every path without a newline. */
  lemma {:induction false} RenderedIsBlock(binPath: string)
    requires '\n' !in binPath
    ensures IsBlock(MARKERS, Rendered(binPath)) && Rendered(binPath) != ""
  {
    MarkersAreGood();
    PlainLines(binPath);
    MiddleIsInside(binPath);
    hide CommandLine, Trim, IsBlock, FiveLines, Inside;
    FiveLineBlock(MARKERS, MARKERS.begin, TABLE, CommandLine(binPath), ARGS, MARKERS.end);
  }

  /** What a reader of the file finds between the markers: the server's table, the command,
      which reads as the path, and its one argument. */
  lemma {:induction false} RenderedReads(binPath: string)
    requires '\n' !in binPath
    ensures exists quoted :: Unescaped(quoted) == Some(binPath) &&
              Split(Rendered(binPath), '\n') ==
              ["# >>> resleeve mcp (managed) >>>", "[mcp_servers.resleeve]", "command = \"" + quoted + "\"", "args = [\"mcp\"]",
               "# <<< resleeve mcp (managed) <<<", ""]
  {
    QuotingRoundTrip(binPath);
    MarkersAreGood();
    PlainLines(binPath);
    CommandLineIs(binPath);
    hide Unescaped, Escaped, CommandLine, FiveLines, Split, Trim;
    FiveLinesSplit(MARKERS.begin, TABLE, CommandLine(binPath), ARGS, MARKERS.end);
  }

  lemma {:induction false} CommandLineIs(binPath: string)
    ensures CommandLine(binPath) == "command = \"" + Escaped(binPath) + "\""
  {
    hide Escaped;
    assert "command = " + "\"" == "command = \"";
  }

  lemma {:induction false} FiveLinesSplit(a: string, b: string, c: string, d: string, e: string)
    requires '\n' !in a && '\n' !in b && '\n' !in c && '\n' !in d && '\n' !in e
    ensures Split(FiveLines(a, b, c, d, e), '\n') == [a, b, c, d, e, ""]
  {
    SplitPlain(a, '\n');
    SplitPlain(b, '\n');
    SplitPlain(c, '\n');
    SplitPlain(d, '\n');
    SplitPlain(e, '\n');
    SplitAtSeparator(a, b, '\n');
    SplitAtSeparator(a + "\n" + b, c, '\n');
    SplitAtSeparator(a + "\n" + b + "\n" + c, d, '\n');
    SplitAtSeparator(a + "\n" + b + "\n" + c + "\n" + d, e, '\n');
    SplitAtSeparator(a + "\n" + b + "\n" + c + "\n" + d + "\n" + e, "", '\n');
    assert FiveLines(a, b, c, d, e) == a + "\n" + b + "\n" + c + "\n" + d + "\n" + e + ['\n'] + "";
  }

  /** The file, absent or with a text. */
  class ConfigFile {
    var text: Option<string>

    /** A missing file reads as an empty one. */
    function Read(): string
      reads this
    {
      if text.None? then "" else text.value
    }

    method Install(binPath: string)
      modifies this
      ensures text == Some(Spliced(MARKERS, if old(text).None? then "" else old(text).value, Rendered(binPath)))
    {
      MarkersAreGood();
      var updated := Splice(MARKERS, Read(), Rendered(binPath));
      text := Some(updated);
    }

    method Uninstall()
      modifies this
      ensures old(text).None? || old(text).value == "" ==> text == old(text)
      ensures old(text).Some? && old(text).value != "" ==>
                var left := Spliced(MARKERS, old(text).value, ""); text == if Blank(left) then None else Some(left)
    {
      MarkersAreGood();
      var existing := Read();
      if existing == "" {
        return;
      }
      var updated := Splice(MARKERS, existing, "");
      text := if Trim(updated) == "" then None else Some(updated);
    }
  }

  function ReadBack(text: Option<string>): string {
    if text.None? then "" else text.value
  }

  /** Installing and uninstalling gives back what a reader of the file saw exactly when
      that was empty, or ended in a newline, was not all white space and had no begin
      marker. */
  lemma {:induction false} FileRoundTrip(x: string, binPath: string)
    requires '\n' !in binPath
    ensures var back := Spliced(MARKERS, Spliced(MARKERS, x, Rendered(binPath)), "");
            ReadBack(if Blank(back) then None else Some(back)) == x <==>
            x == "" || (x[|x| - 1] == '\n' && !Blank(x) && !HasBegin(MARKERS, Split(x, '\n')))
  {
    MarkersAreGood();
    RenderedIsBlock(binPath);
    UninstallUndoes(MARKERS, x, Rendered(binPath));
    assert !HasBegin(MARKERS, [""]) && Blank("") && Split("", '\n') == [""];
  }

  /** Installing again with another path is installing that path once. */
  lemma {:induction false} Reinstall(x: string, binPath: string, other: string)
    requires '\n' !in binPath
    ensures Spliced(MARKERS, Spliced(MARKERS, x, Rendered(binPath)), Rendered(other)) == Spliced(MARKERS, x, Rendered(other))
  {
    MarkersAreGood();
    RenderedIsBlock(binPath);
    InstallTwice(MARKERS, x, Rendered(binPath), Rendered(other));
    assert Rendered(other)[0] == '#';
  }
}
