/** A hook command that holds a line separator other than line feed and carriage return: the quoting leaves it as it is,
    so the command is written on one line and read back on two. */
module HermesCommands {
  import opened Text
  import opened HermesLines
  import opened HermesConfig
  import opened HermesShape
  import opened HermesLaws
  import opened HermesTexts
  import opened HermesLosses

  /** A separator that the quoting of the command leaves as it is. */
  predicate Unescaped(c: char) {
    IsBreak(c) && c != '\n' && c != '\r'
  }

  lemma {:induction false} EscapeConcat(a: string, b: string)
    ensures Escape(a + b) == Escape(a) + Escape(b)
  {
    if a == "" {
      assert a + b == b;
    } else {
      assert (a + b)[1..] == a[1..] + b;
      EscapeConcat(a[1..], b);
    }
  }

  /** The two lines that such a command is read back as. */
  function FirstPiece(a: string): string {
    "    - " + ("command: \"" + Escape(a))
  }

  function SecondPiece(b: string): string {
    Escape(b) + "\""
  }

  lemma CommandPieces(hook: Hook, a: string, c: char, b: string)
    requires hook.command == a + [c] + b && Unescaped(c)
    ensures CommandText(hook) == FirstPiece(a) + [c] + SecondPiece(b)
  {
    hide Escape;
    EscapeConcat(a + [c], b);
    EscapeConcat(a, [c]);
    EscapeOne(c);
  }

  lemma EscapeOne(c: char)
    requires Unescaped(c)
    ensures Escape([c]) == [c]
  {
    assert [c][1..] == "" && Escape("") == "";
  }

  lemma PiecesOneLine(a: string, b: string)
    requires OneLine(a) && OneLine(b)
    ensures !HasBreak(FirstPiece(a)) && !HasBreak(SecondPiece(b))
  {
    hide OneLine;
    hide Escape;
    EscapeOneLine(a);
    EscapeOneLine(b);
    JoinBreaks("command: \"", Escape(a));
    JoinBreaks("    - ", "command: \"" + Escape(a));
    JoinBreaks(Escape(b), "\"");
  }

  lemma SplitFirst(first: string, c: char, rest: string)
    requires !HasBreak(first) && IsBreak(c) && c != '\r'
    ensures SplitLines(first + [c] + rest) == [first] + SplitLines(rest)
  {
    var text := first + [c] + rest;
    FirstBreak(first, c, rest);
    assert text[|first|] == c && text[..|first|] == first && text[|first| + 1..] == rest;
  }

  lemma FirstBreak(first: string, c: char, rest: string)
    requires !HasBreak(first) && IsBreak(c)
    ensures LineLength(first + [c] + rest) == |first|
  {
    var text := first + [c] + rest;
    var n := LineLength(text);
    assert text[|first|] == c;
    assert forall i :: 0 <= i < |first| ==> text[i] == first[i];
  }

  lemma {:induction false} SplitAfter(lines: seq<string>, c: char, rest: string)
    requires lines != [] && NoBreaks(lines) && IsBreak(c) && c != '\r'
    ensures SplitLines(Join(lines) + [c] + rest) == lines + SplitLines(rest)
  {
    hide HasBreak;
    hide IsBreak;
    hide SplitLines;
    if |lines| == 1 {
      SplitFirst(lines[0], c, rest);
      assert lines == [lines[0]];
    } else {
      SplitAfter(lines[1..], c, rest);
      assert Join(lines) + [c] + rest == lines[0] + "\n" + (Join(lines[1..]) + [c] + rest);
      FeedBreaks();
      SplitFirst(lines[0], '\n', Join(lines[1..]) + [c] + rest);
      assert lines == [lines[0]] + lines[1..];
    }
  }

  lemma FeedBreaks()
    ensures IsBreak('\n')
  {
  }

  /** Number of characters of lines written out. */
  function Size(lines: seq<Line>): nat {
    if lines == [] then 0 else |lines[0].text| + 1 + Size(lines[1..])
  }

  lemma {:induction false} SizeConcat(a: seq<Line>, b: seq<Line>)
    ensures Size(a + b) == Size(a) + Size(b)
  {
    if a == [] {
      assert a + b == b;
    } else {
      assert (a + b)[1..] == a[1..] + b;
      SizeConcat(a[1..], b);
    }
  }

  lemma {:induction false} TextSize(lines: seq<Line>)
    requires lines != []
    ensures |ToText(lines)| == Size(lines)
  {
    assert Texts(lines)[0] == lines[0].text;
    if |lines| > 1 {
      TextSize(lines[1..]);
      assert Texts(lines)[1..] == Texts(lines[1..]);
    } else {
      assert Size(lines[1..]) == 0;
    }
  }

  /** Lines written out with more lines among them make another text. */
  lemma MoreLines(a: seq<Line>, more: seq<Line>, b: seq<Line>)
    requires a != [] && more != []
    ensures ToText(a + more + b) != ToText(a + b)
  {
    hide ToText;
    TextSize(a + more + b);
    TextSize(a + b);
    SizeConcat(a + more, b);
    SizeConcat(a, more);
    SizeConcat(a, b);
  }

  /** What the first install writes into an empty file, and how it is read back. */
  lemma FreshTexts(hook: Hook, a: string, c: char, b: string)
    requires hook.command == a + [c] + b && Unescaped(c) && OneLine(a) && OneLine(b)
    ensures SplitLines(ToText(ManagedBlock(hook))) ==
      [HOOKS_TEXT, PRE_LLM_TEXT, FirstPiece(a)] + [SecondPiece(b), TIMEOUT_TEXT, MARKER_TEXT]
  {
    CommandPieces(hook, a, c, b);
    PiecesOneLine(a, b);
    HeadersOneLine();
    MarkerOneLine();
    BlockTexts(hook);
    assert IsBreak(c) && c != '\r';
    hide *;
    FreshSplit(HOOKS_TEXT, PRE_LLM_TEXT, FirstPiece(a), c, SecondPiece(b), TIMEOUT_TEXT, MARKER_TEXT);
  }

  lemma BlockTexts(hook: Hook)
    ensures Texts(ManagedBlock(hook)) == [HOOKS_TEXT, PRE_LLM_TEXT, CommandText(hook), TIMEOUT_TEXT, MARKER_TEXT]
    ensures ToText(ManagedBlock(hook)) == Join(Texts(ManagedBlock(hook))) + "\n"
  {
    hide IsMarker;
    hide CommandText;
    hide Join;
  }

  lemma FreshSplit(h: string, pre: string, first: string, c: char, second: string, t: string, m: string)
    requires !HasBreak(h) && !HasBreak(pre) && !HasBreak(first) && !HasBreak(second) && !HasBreak(t) && !HasBreak(m)
    requires IsBreak(c) && c != '\r'
    ensures SplitLines(Join([h, pre, first + [c] + second, t, m]) + "\n") == [h, pre, first] + [second, t, m]
  {
    hide HasBreak;
    hide IsBreak;
    hide SplitLines;
    hide Join;
    SplitAfter([h, pre, first], c, Join([second, t, m]) + "\n");
    SplitJoin([second, t, m]);
    JoinedTexts(h, pre, first, c, second, t, m);
  }

  lemma JoinedTexts(h: string, pre: string, first: string, c: char, second: string, t: string, m: string)
    ensures Join([h, pre, first + [c] + second, t, m]) + "\n" == Join([h, pre, first]) + [c] + (Join([second, t, m]) + "\n")
  {
    hide Join;
    JoinThree(h, pre, first);
    JoinThree(second, t, m);
    JoinThree(first + [c] + second, t, m);
    JoinTwoMore(h, pre, [first + [c] + second, t, m]);
    assert [h, pre] + [first + [c] + second, t, m] == [h, pre, first + [c] + second, t, m];
  }

  lemma JoinThree(a: string, b: string, c: string)
    ensures Join([a, b, c]) == a + "\n" + b + "\n" + c
  {
    JoinTwoMore(a, b, [c]);
    assert [a, b] + [c] == [a, b, c];
  }

  lemma JoinTwoMore(a: string, b: string, rest: seq<string>)
    requires rest != []
    ensures Join([a, b] + rest) == a + "\n" + b + "\n" + Join(rest)
  {
    var lines := [a, b] + rest;
    assert lines[1..] == [b] + rest && ([b] + rest)[1..] == rest;
    assert a + "\n" + (b + "\n" + Join(rest)) == a + "\n" + b + "\n" + Join(rest);
  }

  /** The lines of the file that the first install wrote, as they are read back: the command's line is broken in two. */
  function ReadBack(hook: Hook, a: string, b: string): seq<Line> {
    [HooksLine(hook)] + ([PreLlmLine(hook)] + BrokenList(hook, a, b))
  }

  function BrokenList(hook: Hook, a: string, b: string): seq<Line> {
    [Scan(hook, FirstPiece(a)), Scan(hook, SecondPiece(b)), Scan(hook, TIMEOUT_TEXT), Scan(hook, MARKER_TEXT)]
  }

  /** What removal leaves of the broken list: all of it, unless the first half is taken for the managed command. */
  function BrokenLeft(hook: Hook, a: string, b: string): seq<Line> {
    (if hook.isCommand(FirstPiece(a)) then [] else [Scan(hook, FirstPiece(a))]) + BrokenList(hook, a, b)[1..]
  }

  lemma FirstPieceShape(hook: Hook, a: string)
    ensures var line := Scan(hook, FirstPiece(a));
      line.kind.Item? && line.indent == 4 && (line.managed <==> hook.isCommand(FirstPiece(a)))
  {
    var text := FirstPiece(a);
    assert text[0] == ' ' && text[1] == ' ' && text[2] == ' ' && text[3] == ' ' && text[4] == '-' && text[5] == ' ';
    IndentAfterSpaces(text, 4);
    assert IsItem(text);
    assert text[2..][0] == ' ';
    assert LStrip(text)[0] == '-' && MARKER_KEY[0] == 'a';
  }

  /** A line that starts no item and lies no deeper than the one before it ends that one's item. */
  lemma ItemCut(first: Line, rest: seq<Line>)
    requires first.kind.Item? && first.indent == 4 && |rest| == 3
    requires forall i :: 0 <= i < 3 ==> rest[i].kind.Other?
    requires rest[0].indent <= 4
    ensures Unmanaged([first] + rest) == (if first.managed then [] else [first]) + rest
  {
    assert ([first] + rest)[1..] == rest;
    UnmanagedItem([first], rest);
    assert Managed([first]) <==> first.managed by {
      assert first.managed ==> [first][0].managed;
    }
    OthersStay(rest);
  }

  lemma {:induction false} OthersStay(lines: seq<Line>)
    requires forall i :: 0 <= i < |lines| ==> lines[i].kind.Other?
    ensures Unmanaged(lines) == lines
  {
    if lines != [] {
      OthersStay(lines[1..]);
      assert lines == [lines[0]] + lines[1..];
    }
  }

  lemma BrokenUnmanaged(hook: Hook, a: string, b: string)
    requires var second := Scan(hook, SecondPiece(b)); second.kind.Other? && second.indent <= 4
    ensures var list, kept := BrokenList(hook, a, b), BrokenLeft(hook, a, b);
      && Unmanaged(list) == kept && kept != [] && !AllBlank(kept) && Free(kept, AnyHeader)
      && Free(list, AnyHeader) && Free(list, AnyTopLevel)
  {
    hide Scan;
    hide Unmanaged;
    hide FirstPiece;
    hide SecondPiece;
    FirstPieceShape(hook, a);
    TimeoutShape(hook);
    MarkerShape(hook);
    var list := BrokenList(hook, a, b);
    assert list == [list[0]] + list[1..];
    ItemCut(list[0], list[1..]);
    assert BrokenLeft(hook, a, b)[|BrokenLeft(hook, a, b)| - 1] == list[3];
  }

  /** A command that holds an unescaped separator is written on two lines. When the second of them lies no deeper than
      the first and starts nothing, installing again leaves the broken lines in the file and adds the hook again. */
  lemma BrokenCommand(hook: Hook, a: string, c: char, b: string)
    requires hook.command == a + [c] + b && Unescaped(c) && OneLine(a) && OneLine(b)
    requires var second := Scan(hook, SecondPiece(b)); second.kind.Other? && second.indent <= 4
    ensures MergedText(hook, "") == Ok(ToText(ManagedBlock(hook)))
    ensures MergedText(hook, MergedText(hook, "").value) ==
      Ok(ToText([HooksLine(hook), PreLlmLine(hook)] + BrokenLeft(hook, a, b) + ManagedLines(hook)))
    ensures MergedText(hook, MergedText(hook, "").value) != MergedText(hook, "")
  {
    hide *;
    FreshInstall(hook);
    FreshRead(hook, a, c, b);
    BrokenUnmanaged(hook, a, b);
    HooksShape(hook);
    ManagedLinesItem(hook);
    PlainKeys(hook);
    ReadBackIs(hook, a, b);
    var h, pre, m := HooksLine(hook), PreLlmLine(hook), ManagedLines(hook);
    ListGrows(hook, h, pre, BrokenList(hook, a, b), BrokenLeft(hook, a, b));
    MergedAgain(hook, ToText(ManagedBlock(hook)), ReadBack(hook, a, b));
    var kept := BrokenLeft(hook, a, b);
    assert [h] + ([pre] + kept + m) == [h, pre] + kept + m;
    MoreLines([h, pre], kept, m);
    BlockIsThree(hook);
  }

  lemma BlockIsThree(hook: Hook)
    ensures ManagedBlock(hook) == [HooksLine(hook), PreLlmLine(hook)] + ManagedLines(hook)
  {
  }

  lemma ReadBackIs(hook: Hook, a: string, b: string)
    ensures ReadBack(hook, a, b) == [HooksLine(hook)] + ([PreLlmLine(hook)] + BrokenList(hook, a, b))
  {
  }

  lemma FreshInstall(hook: Hook)
    ensures MergedText(hook, "") == Ok(ToText(ManagedBlock(hook)))
  {
    hide ToText;
    hide ManagedBlock;
    hide Scan;
    var none: seq<Line> := [];
    assert ScanAll(hook, SplitLines("")) == none;
    assert none + none + ManagedBlock(hook) == ManagedBlock(hook);
  }

  lemma FreshRead(hook: Hook, a: string, c: char, b: string)
    requires hook.command == a + [c] + b && Unescaped(c) && OneLine(a) && OneLine(b)
    ensures var text := ToText(ManagedBlock(hook)); Rendered(text) == text && ScanAll(hook, SplitLines(text)) == ReadBack(hook, a, b)
  {
    hide *;
    FreshTexts(hook, a, c, b);
    FreshScanned(hook, a, b);
    TextEnds(ManagedBlock(hook));
  }

  lemma TextEnds(lines: seq<Line>)
    ensures Rendered(ToText(lines)) == ToText(lines)
  {
    assert ToText(lines)[|ToText(lines)| - 1..] == "\n";
  }

  lemma FreshScanned(hook: Hook, a: string, b: string)
    ensures ScanAll(hook, [HOOKS_TEXT, PRE_LLM_TEXT, FirstPiece(a)] + [SecondPiece(b), TIMEOUT_TEXT, MARKER_TEXT]) == ReadBack(hook, a, b)
  {
    hide Scan;
    hide FirstPiece;
    hide SecondPiece;
  }

  lemma MergedAgain(hook: Hook, text: string, lines: seq<Line>)
    requires Rendered(text) == text && ScanAll(hook, SplitLines(text)) == lines && Merged(hook, lines).Ok?
    ensures MergedText(hook, text) == Ok(ToText(Merged(hook, lines).value))
  {
    hide *;
    MergedLines(hook, text);
  }

  /** Such a command: two letters with a form feed between them. */
  lemma FormFeedInstallsTwice(hook: Hook)
    requires hook.command == "a\U{c}b"
    ensures MergedText(hook, "").Ok? && MergedText(hook, MergedText(hook, "").value) != MergedText(hook, "")
  {
    assert "a" + ['\U{c}'] + "b" == "a\U{c}b";
    SecondPieceShape(hook);
    BrokenCommand(hook, "a", '\U{c}', "b");
  }

  lemma SecondPieceShape(hook: Hook)
    ensures var second := Scan(hook, SecondPiece("b")); second.kind.Other? && second.indent <= 4
  {
    var text := SecondPiece("b");
    assert text == "b\"";
    assert text[0] == 'b' && text[1] == '"';
    assert IdentRest(text[1..]) == 0;
  }
}
