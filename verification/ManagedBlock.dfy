/** A block of our own in a configuration file the user owns: found by its marker lines,
    taken out, put back at the end. Text is a sequence of characters; whitespace is
    Unicode's White_Space. */
module ManagedBlock {
  import opened Segments
  import opened Sequences

  /** The two marker lines. */
  datatype Markers = Markers(begin: string, end: string) {
    predicate Good() {
      Trim(begin) == begin != "" && Trim(end) == end != "" && begin != end
    }
  }

  predicate IsSpace(c: char) {
    '\t' <= c <= '\r' || c == ' ' || c == '\U{85}' || c == '\U{A0}' || c == '\U{1680}' || '\U{2000}' <= c <= '\U{200A}' ||
    c == '\U{2028}' || c == '\U{2029}' || c == '\U{202F}' || c == '\U{205F}' || c == '\U{3000}'
  }

  function TrimLeft(s: string): string {
    if s != "" && IsSpace(s[0]) then TrimLeft(s[1..]) else s
  }

  function TrimRight(s: string): string
    decreases |s|
  {
    if s != "" && IsSpace(s[|s| - 1]) then TrimRight(s[..|s| - 1]) else s
  }

  function Trim(s: string): string {
    TrimRight(TrimLeft(s))
  }

  predicate Blank(s: string) {
    Trim(s) == ""
  }

  // --- taking the block out ---

  datatype Acc = Acc(out: seq<string>, inBlock: bool)

  function PopBlank(out: seq<string>): seq<string> {
    if out != [] && Blank(out[|out| - 1]) then out[..|out| - 1] else out
  }

  function Step(m: Markers, a: Acc, line: string): Acc {
    if Trim(line) == m.begin then Acc(PopBlank(a.out), true)
    else if a.inBlock then Acc(a.out, Trim(line) != m.end)
    else Acc(a.out + [line], false)
  }

  function Fold(m: Markers, a: Acc, lines: seq<string>): Acc
    decreases |lines|
  {
    if lines == [] then a else Fold(m, Step(m, a, lines[0]), lines[1..])
  }

  function Stripped(m: Markers, text: string): string {
    Join(Fold(m, Acc([], false), Split(text, '\n')).out, '\n')
  }

  /** stripMCPBlock */
  method Strip(m: Markers, text: string) returns (r: string)
    requires m.Good()
    ensures r == Stripped(m, text)
  {
    if !Contains(text, m.begin) {
      NoMarkerNoChange(m, text);
      return text;
    }
    var lines := Split(text, '\n');
    var out: seq<string>, inBlock: bool := [], false;
    var i := 0;
    assert lines[0..] == lines;
    while i < |lines|
      invariant 0 <= i <= |lines|
      invariant Fold(m, Acc([], false), lines) == Fold(m, Acc(out, inBlock), lines[i..])
    {
      var line := lines[i];
      assert lines[i..][0] == line && lines[i..][1..] == lines[i + 1..];
      i := i + 1;
      var trimmed := Trim(line);
      if trimmed == m.begin {
        inBlock := true;
        if |out| > 0 && Trim(out[|out| - 1]) == "" {
          out := out[..|out| - 1];
        }
        continue;
      }
      if inBlock {
        if trimmed == m.end {
          inBlock := false;
        }
        continue;
      }
      out := out + [line];
    }
    r := Join(out, '\n');
  }

  /** Some line is a begin marker. */
  predicate HasBegin(m: Markers, lines: seq<string>) {
    exists i :: 0 <= i < |lines| && Trim(lines[i]) == m.begin
  }

  /** The text with a newline at its end, unless it is empty. */
  function Closed(s: string): string {
    if s == "" || s[|s| - 1] == '\n' then s else s + "\n"
  }

  function Appended(s: string, block: string): string {
    if s == "" then block else Closed(s) + "\n" + block
  }

  function Spliced(m: Markers, existing: string, block: string): string {
    if block == "" then Stripped(m, existing) else Appended(Stripped(m, existing), block)
  }

  /** spliceMCPBlock */
  method Splice(m: Markers, existing: string, block: string) returns (r: string)
    requires m.Good()
    ensures r == Spliced(m, existing, block)
  {
    var stripped := Strip(m, existing);
    if block == "" {
      return stripped;
    }
    r := stripped;
    if stripped != "" && stripped[|stripped| - 1] != '\n' {
      r := r + "\n";
    }
    if stripped != "" {
      r := r + "\n";
    }
    r := r + block;
  }

  // --- lemmas on trimming and containing ---

  lemma {:induction false} TrimLeftIsSuffix(s: string) returns (n: nat)
    ensures n <= |s| && TrimLeft(s) == s[n..]
  {
    if s != "" && IsSpace(s[0]) {
      var k := TrimLeftIsSuffix(s[1..]);
      n := k + 1;
    } else {
      n := 0;
    }
  }

  lemma {:induction false} TrimRightIsPrefix(s: string) returns (n: nat)
    ensures n <= |s| && TrimRight(s) == s[..n]
    decreases |s|
  {
    if s != "" && IsSpace(s[|s| - 1]) {
      n := TrimRightIsPrefix(s[..|s| - 1]);
    } else {
      n := |s|;
    }
  }

  lemma {:induction false} TrimIsWithin(s: string)
    ensures Contains(s, Trim(s))
  {
    var a := TrimLeftIsSuffix(s);
    var b := TrimRightIsPrefix(s[a..]);
    assert Trim(s) <= s[a..];
    ContainsAt(s, Trim(s));
  }

  lemma {:induction false} ContainsWithin(a: string, s: string, b: string, sub: string)
    requires Contains(s, sub)
    ensures Contains(a + s + b, sub)
  {
    ContainsAt(s, sub);
    var i :| 0 <= i <= |s| && sub <= s[i..];
    var all := a + s + b;
    assert all[|a| + i..] == s[i..] + b;
    ContainsAt(all, sub);
  }

  lemma {:induction false} FirstPieceStarts(s: string)
    ensures Split(s, '\n')[0] <= s
  {
    if s != "" && s[0] != '\n' {
      FirstPieceStarts(s[1..]);
      assert s == [s[0]] + s[1..];
    }
  }

  lemma {:induction false} PieceIsWithin(s: string, i: nat, sub: string)
    requires i < |Split(s, '\n')| && Contains(Split(s, '\n')[i], sub)
    ensures Contains(s, sub)
  {
    if i == 0 {
      FirstPieceStarts(s);
      var first := Split(s, '\n')[0];
      assert s == "" + first + s[|first|..];
      ContainsWithin("", first, s[|first|..], sub);
    } else {
      PieceIsWithin(s[1..], if s[0] == '\n' then i - 1 else i, sub);
      assert s == [s[0]] + s[1..] + "";
      ContainsWithin([s[0]], s[1..], "", sub);
    }
  }

  lemma {:induction false} BeginIsContained(m: Markers, text: string)
    requires HasBegin(m, Split(text, '\n'))
    ensures Contains(text, m.begin)
  {
    var lines := Split(text, '\n');
    var i :| 0 <= i < |lines| && Trim(lines[i]) == m.begin;
    TrimIsWithin(lines[i]);
    PieceIsWithin(text, i, m.begin);
  }

  // --- folding ---

  lemma {:induction false} FoldPlain(m: Markers, out: seq<string>, lines: seq<string>)
    requires !HasBegin(m, lines)
    ensures Fold(m, Acc(out, false), lines) == Acc(out + lines, false)
    decreases |lines|
  {
    if lines == [] {
      assert out + lines == out;
    } else {
      assert Trim(lines[0]) != m.begin;
      assert forall i :: 0 <= i < |lines[1..]| ==> lines[1..][i] == lines[i + 1];
      FoldPlain(m, out + [lines[0]], lines[1..]);
      assert out + [lines[0]] + lines[1..] == out + lines;
    }
  }

  lemma {:induction false} FoldConcat(m: Markers, a: Acc, x: seq<string>, y: seq<string>)
    ensures Fold(m, a, x + y) == Fold(m, Fold(m, a, x), y)
    decreases |x|
  {
    hide Step;
    if x == [] {
      assert x + y == y;
    } else {
      FoldConcat(m, Step(m, a, x[0]), x[1..], y);
      assert (x + y)[0] == x[0] && (x + y)[1..] == x[1..] + y;
    }
  }

  lemma {:induction false} NoMarkerNoChange(m: Markers, text: string)
    requires !Contains(text, m.begin)
    ensures Stripped(m, text) == text
  {
    if HasBegin(m, Split(text, '\n')) {
      BeginIsContained(m, text);
      assert false;
    }
    PlainStays(m, text);
  }

  lemma {:induction false} PlainStays(m: Markers, text: string)
    requires !HasBegin(m, Split(text, '\n'))
    ensures Stripped(m, text) == text
  {
    FoldPlain(m, [], Split(text, '\n'));
    assert [] + Split(text, '\n') == Split(text, '\n');
    JoinSplit(text, '\n');
  }

  /** What is kept has no begin marker and no newline inside a line. */
  lemma {:induction false} FoldKeeps(m: Markers, a: Acc, lines: seq<string>)
    requires !HasBegin(m, a.out)
    requires forall i :: 0 <= i < |a.out| ==> '\n' !in a.out[i]
    requires forall i :: 0 <= i < |lines| ==> '\n' !in lines[i]
    ensures !HasBegin(m, Fold(m, a, lines).out)
    ensures forall i :: 0 <= i < |Fold(m, a, lines).out| ==> '\n' !in Fold(m, a, lines).out[i]
    decreases |lines|
  {
    if lines != [] {
      var b := Step(m, a, lines[0]);
      assert forall i :: 0 <= i < |b.out| ==> b.out[i] == if i < |a.out| then a.out[i] else lines[0];
      FoldKeeps(m, b, lines[1..]);
    }
  }

  lemma {:induction false} StrippedHasNoBegin(m: Markers, text: string)
    requires m.Good()
    ensures !HasBegin(m, Split(Stripped(m, text), '\n'))
  {
    var out := Fold(m, Acc([], false), Split(text, '\n')).out;
    SplitHasNoSeparator(text, '\n');
    FoldKeeps(m, Acc([], false), Split(text, '\n'));
    if out == [] {
      assert Split("", '\n') == [""] && Trim("") == "";
    } else {
      SplitJoin(out, '\n');
    }
  }

  /** A block: its lines begin and end with the markers, with neither in between. */
  ghost predicate IsBlock(m: Markers, block: string) {
    exists mid: seq<string>, first: string, last: string {:trigger [first] + mid + [last, ""]} ::
      Split(block, '\n') == [first] + mid + [last, ""] && Trim(first) == m.begin && Trim(last) == m.end && Inside(m, mid)
  }

  predicate Inside(m: Markers, mid: seq<string>) {
    forall i :: 0 <= i < |mid| ==> Trim(mid[i]) != m.begin && Trim(mid[i]) != m.end
  }

  lemma {:induction false} FoldInside(m: Markers, out: seq<string>, mid: seq<string>)
    requires Inside(m, mid)
    ensures Fold(m, Acc(out, true), mid) == Acc(out, true)
    decreases |mid|
  {
    if mid != [] {
      assert forall i :: 0 <= i < |mid[1..]| ==> mid[1..][i] == mid[i + 1];
      FoldInside(m, out, mid[1..]);
    }
  }

  /** Folding over a block drops it and one blank line before it. */
  lemma {:induction false} FoldBlock(m: Markers, out: seq<string>, block: string)
    requires m.Good() && IsBlock(m, block)
    ensures Fold(m, Acc(out, false), Split(block, '\n')) == Acc(PopBlank(out) + [""], false)
  {
    var mid: seq<string>, first: string, last: string :|
      Split(block, '\n') == [first] + mid + [last, ""] && Trim(first) == m.begin && Trim(last) == m.end && Inside(m, mid);
    var a := Acc(out, false);
    FoldConcat(m, a, [first] + mid, [last, ""]);
    FoldConcat(m, a, [first], mid);
    FoldOne(m, a, first);
    FoldInside(m, PopBlank(out), mid);
    var c := Acc(PopBlank(out), true);
    assert [last, ""] == [last] + [""];
    FoldConcat(m, c, [last], [""]);
    FoldOne(m, c, last);
    FoldOne(m, Acc(PopBlank(out), false), "");
    assert Trim("") == "";
  }

  lemma {:induction false} FoldOne(m: Markers, a: Acc, line: string)
    ensures Fold(m, a, [line]) == Step(m, a, line)
  {
    assert [line][1..] == [];
  }

  // --- the two laws ---

  /** Taking a block out again leaves the text before it, closed by a newline. */
  lemma {:induction false} StripAppended(m: Markers, s: string, block: string)
    requires m.Good() && IsBlock(m, block) && !HasBegin(m, Split(s, '\n'))
    ensures Stripped(m, Appended(s, block)) == Closed(s)
  {
    if s == "" {
      FoldBlock(m, [], block);
      assert PopBlank([]) + [""] == [""];
    } else {
      ClosedLines(m, s);
      StripAfter(m, Closed(s), block);
    }
  }

  lemma {:induction false} StripAfter(m: Markers, c: string, block: string)
    requires m.Good() && IsBlock(m, block) && !HasBegin(m, Split(c, '\n'))
    requires var lines := Split(c, '\n'); lines[|lines| - 1] == "" && Blank("")
    ensures Stripped(m, c + "\n" + block) == c
  {
    hide IsBlock, HasBegin, Split, Join, Fold;
    var lines, b, none := Split(c, '\n'), Split(block, '\n'), Acc([], false);
    SplitAtSeparator(c, block, '\n');
    FoldConcat(m, none, lines, b);
    FoldPlain(m, [], lines);
    JoinNone([], lines);
    FoldBlock(m, lines, block);
    BlankBack(lines);
    JoinSplit(c, '\n');
  }

  lemma {:induction false} BlankBack(lines: seq<string>)
    requires lines != [] && lines[|lines| - 1] == "" && Blank("")
    ensures PopBlank(lines) + [""] == lines
  {
  }

  /** The last line of a closed text is empty, and closing adds no marker. */
  lemma {:induction false} ClosedLines(m: Markers, s: string)
    requires m.Good() && s != "" && !HasBegin(m, Split(s, '\n'))
    ensures var lines := Split(Closed(s), '\n'); lines[|lines| - 1] == "" && !HasBegin(m, lines) && Blank("")
  {
    assert Trim("") == "";
    var t := if s[|s| - 1] == '\n' then s[..|s| - 1] else s;
    assert Closed(s) == t + ['\n'] + "";
    SplitAtSeparator(t, "", '\n');
    assert Split("", '\n') == [""];
    var lines := Split(Closed(s), '\n');
    assert lines == Split(t, '\n') + [""];
    if s[|s| - 1] != '\n' {
      forall i | 0 <= i < |lines| ensures Trim(lines[i]) != m.begin {
        assert i < |Split(t, '\n')| ==> lines[i] == Split(s, '\n')[i];
      }
    }
  }

  function Newlines(n: nat): string {
    if n == 0 then "" else "\n" + Newlines(n - 1)
  }

  /** The block goes to the end of the file, after the text without a block: at the start
      of a line and with one empty line between, unless there is nothing before it. */
  lemma {:induction false} BlockAtEnd(m: Markers, existing: string, block: string)
    requires block != ""
    ensures var s := Stripped(m, existing);
            Spliced(m, existing, block) == s + Newlines(if s == "" then 0 else if s[|s| - 1] == '\n' then 1 else 2) + block
  {
    var s := Stripped(m, existing);
    assert Newlines(1) == "\n" && Newlines(2) == "\n" + "\n";
    hide Stripped;
    assert s + "\n" + "\n" == s + ("\n" + "\n");
  }

  // --- what is kept ---

  predicate IsBegin(m: Markers, line: string) {
    Trim(line) == m.begin
  }

  /** Line i comes after a begin marker and not after an end marker that follows it. */
  ghost predicate Within(m: Markers, lines: seq<string>, i: nat)
    requires i <= |lines|
  {
    exists b :: 0 <= b < i && IsBegin(m, lines[b]) &&
      forall j {:trigger lines[j]} :: b < j < i && !IsBegin(m, lines[j]) ==> Trim(lines[j]) != m.end
  }

  /** The lines of no block. */
  ghost function Outside(m: Markers, lines: seq<string>, n: nat): seq<string>
    requires n <= |lines|
  {
    if n == 0 then []
    else Outside(m, lines, n - 1) + if IsBegin(m, lines[n - 1]) || Within(m, lines, n - 1) then [] else [lines[n - 1]]
  }

  function Begins(m: Markers, lines: seq<string>): nat
    decreases |lines|
  {
    if lines == [] then 0 else Begins(m, lines[..|lines| - 1]) + if IsBegin(m, lines[|lines| - 1]) then 1 else 0
  }

  function NotBlank(lines: seq<string>): seq<string>
    decreases |lines|
  {
    if lines == [] then []
    else NotBlank(lines[..|lines| - 1]) + if Blank(lines[|lines| - 1]) then [] else [lines[|lines| - 1]]
  }

  lemma {:induction false} WithinNext(m: Markers, lines: seq<string>, n: nat)
    requires n < |lines|
    ensures Within(m, lines, n + 1) <==> IsBegin(m, lines[n]) || (Within(m, lines, n) && Trim(lines[n]) != m.end)
  {
    if IsBegin(m, lines[n]) {
      assert Within(m, lines, n + 1);
    } else if Within(m, lines, n) && Trim(lines[n]) != m.end {
      var b :| 0 <= b < n && IsBegin(m, lines[b]) &&
        forall j {:trigger lines[j]} :: b < j < n && !IsBegin(m, lines[j]) ==> Trim(lines[j]) != m.end;
      assert forall j {:trigger lines[j]} :: b < j < n + 1 && !IsBegin(m, lines[j]) ==> Trim(lines[j]) != m.end;
    }
  }

  /** Of the first n lines these are kept: no line of a block, and of the others all but
      blank ones, at most one for each begin marker. */
  ghost predicate Keeps(m: Markers, lines: seq<string>, n: nat, a: Acc)
    requires n <= |lines|
  {
    && (a.inBlock <==> Within(m, lines, n))
    && NotBlank(a.out) == NotBlank(Outside(m, lines, n))
    && |Outside(m, lines, n)| - Begins(m, lines[..n]) <= |a.out| <= |Outside(m, lines, n)|
  }

  lemma {:induction false} FoldNext(m: Markers, lines: seq<string>, n: nat)
    requires n < |lines|
    ensures Fold(m, Acc([], false), lines[..n + 1]) == Step(m, Fold(m, Acc([], false), lines[..n]), lines[n])
  {
    assert lines[..n + 1] == lines[..n] + [lines[n]];
    FoldConcat(m, Acc([], false), lines[..n], [lines[n]]);
    FoldOne(m, Fold(m, Acc([], false), lines[..n]), lines[n]);
  }

  lemma {:induction false} KeepsNext(m: Markers, lines: seq<string>, n: nat, a: Acc)
    requires n < |lines| && Keeps(m, lines, n, a)
    ensures Keeps(m, lines, n + 1, Step(m, a, lines[n]))
  {
    WithinNext(m, lines, n);
    assert lines[..n + 1][..n] == lines[..n];
    var begins, outside := Begins(m, lines[..n]), Outside(m, lines, n);
    assert Begins(m, lines[..n + 1]) == begins + if IsBegin(m, lines[n]) then 1 else 0;
    assert Outside(m, lines, n + 1) == outside + if IsBegin(m, lines[n]) || Within(m, lines, n) then [] else [lines[n]];
    hide Within, Step, NotBlank, Begins, IsBegin, Trim, Outside;
    StepKeeps(m, a, lines[n], outside, begins);
  }

  /** Nothing of a block is kept, and nothing of the user's is lost but blank lines, at most
      one for each begin marker. */
  lemma {:induction false} StripKeeps(m: Markers, lines: seq<string>, n: nat)
    requires n <= |lines|
    ensures Keeps(m, lines, n, Fold(m, Acc([], false), lines[..n]))
  {
    if n == 0 {
      assert lines[..0] == [];
    } else {
      hide Keeps, Fold, Step;
      StripKeeps(m, lines, n - 1);
      KeepsNext(m, lines, n - 1, Fold(m, Acc([], false), lines[..n - 1]));
      FoldNext(m, lines, n - 1);
    }
  }

  lemma {:induction false} StepKeeps(m: Markers, a: Acc, line: string, outside: seq<string>, begins: nat)
    requires NotBlank(a.out) == NotBlank(outside) && |outside| - begins <= |a.out| <= |outside|
    ensures var b := Step(m, a, line);
            var more := outside + if IsBegin(m, line) || a.inBlock then [] else [line];
            && (b.inBlock <==> IsBegin(m, line) || (a.inBlock && Trim(line) != m.end))
            && NotBlank(b.out) == NotBlank(more)
            && |more| - begins - (if IsBegin(m, line) then 1 else 0) <= |b.out| <= |more|
  {
    NotBlankLast(a.out, line);
    NotBlankLast(outside, line);
    hide NotBlank, Trim, Blank;
    var none: seq<string> := [];
    assert outside + none == outside && NotBlank(outside) + none == NotBlank(outside);
    if IsBegin(m, line) {
    } else if a.inBlock {
    } else {
    }
  }

  lemma {:induction false} NotBlankLast(lines: seq<string>, line: string)
    ensures NotBlank(lines + [line]) == NotBlank(lines) + if Blank(line) then [] else [line]
    ensures NotBlank(PopBlank(lines)) == NotBlank(lines)
  {
    assert (lines + [line])[..|lines|] == lines;
  }

  /** Installing twice is installing the second block once. */
  lemma {:induction false} InstallTwice(m: Markers, x: string, block: string, again: string)
    requires m.Good() && IsBlock(m, block) && block != ""
    ensures Spliced(m, Spliced(m, x, block), again) == if again == "" then Closed(Stripped(m, x)) else Spliced(m, x, again)
  {
    StrippedHasNoBegin(m, x);
    StripAppended(m, Stripped(m, x), block);
  }

  /** Uninstalling after installing gives the text back exactly when it is empty or ends
      in a newline, and had no begin-marker line. */
  lemma {:induction false} UninstallUndoes(m: Markers, x: string, block: string)
    requires m.Good() && IsBlock(m, block) && block != ""
    ensures Spliced(m, Spliced(m, x, block), "") == x <==>
            (x == "" || x[|x| - 1] == '\n') && !HasBegin(m, Split(x, '\n'))
  {
    InstallTwice(m, x, block, "");
    StrippedHasNoBegin(m, x);
    if HasBegin(m, Split(x, '\n')) {
      var s := Stripped(m, x);
      if s != "" {
        ClosedLines(m, s);
      }
    } else {
      PlainStays(m, x);
    }
  }
}
