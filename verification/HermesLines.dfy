/** One line of the Hermes config file, and what the program's line patterns say of it. */
module HermesLines {
  import opened Text

  /** What the process environment contributes: the managed hook's command, and
      which lines the command pattern recognises (a regular expression, free here). */
  datatype Hook = Hook(command: string, isCommand: string -> bool)

  /** The patterns tell five kinds of line apart; ScanExact shows that no two overlap. */
  datatype Kind =
    | TopLevel(hooks: bool)             // a key in the first column
    | Header(preLlm: bool, open: bool)  // a key indented by two spaces, `open` when no value follows it
    | Item                              // the first line of a list item
    | Empty
    | Other

  /** A line with what the patterns find in it. */
  datatype Line = Line(text: string, kind: Kind, indent: nat, managed: bool)

  // ----- the patterns -----

  predicate IsIdentStart(c: char) {
    'A' <= c <= 'Z' || 'a' <= c <= 'z' || c == '_'
  }

  predicate IsIdentChar(c: char) {
    IsIdentStart(c) || '0' <= c <= '9' || c == '-'
  }

  function IdentRest(s: string): (n: nat)
    ensures n <= |s|
  {
    if s == "" || !IsIdentChar(s[0]) then 0 else 1 + IdentRest(s[1..])
  }

  /** Length of the identifier that starts `s` and is followed by a colon; 0 if there is none. */
  function KeyLength(s: string): (n: nat)
    ensures n < |s| || n == 0
    ensures n > 0 ==> IsIdentStart(s[0])
  {
    if s == "" || !IsIdentStart(s[0]) then 0
    else
      var n := 1 + IdentRest(s[1..]);
      if n < |s| && s[n] == ':' then n else 0
  }

  predicate IsTopLevel(text: string) {
    KeyLength(text) > 0
  }

  predicate IsHooksKey(text: string) {
    text[..KeyLength(text)] == HOOKS_KEY
  }

  const HOOKS_KEY: string := "hooks"
  const PRE_LLM_KEY: string := "pre_llm_call"

  predicate IsHeader(text: string) {
    StartsWith(text, "  ") && KeyLength(text[2..]) > 0
  }

  predicate IsPreLlm(text: string) {
    StartsWith(text, "  " + PRE_LLM_KEY + ":")
  }

  predicate IsItem(text: string) {
    var n := Indent(text);
    n + 1 < |text| && text[n] == '-' && IsSpace(text[n + 1])
  }

  const MARKER_KEY: string := "agpair_managed:"

  /** `^\s*agpair_managed:\s*true\s*(?:#.*)?$` */
  predicate IsMarker(text: string) {
    var body := LStrip(text);
    if !StartsWith(body, MARKER_KEY) then false
    else
      var value := LStrip(body[|MARKER_KEY|..]);
      if !StartsWith(value, "true") then false
      else
        var rest := LStrip(value[4..]);
        rest == "" || rest[0] == '#'
  }

  function WithoutComment(text: string): string {
    Strip(Before(text, '#'))
  }

  function Scan(hook: Hook, text: string): Line {
    var kind :=
      if Blank(text) then Empty
      else if IsTopLevel(text) then TopLevel(IsHooksKey(text))
      else if IsHeader(text) then Header(IsPreLlm(text), EndsWith(WithoutComment(text), ":"))
      else if IsItem(text) then Item
      else Other;
    Line(text, kind, Indent(text), hook.isCommand(text) || IsMarker(text))
  }

  /** Each pattern holds of a text exactly when its scanned line says so, so the
      order in which Scan tries them does not matter. */
  lemma ScanExact(hook: Hook, text: string)
    ensures var kind := Scan(hook, text).kind;
      && (kind.Empty? <==> Blank(text))
      && (kind.TopLevel? <==> IsTopLevel(text))
      && (kind.Header? <==> IsHeader(text))
      && (kind.Item? <==> IsItem(text))
      && (kind.TopLevel? && kind.hooks <==> IsHooksKey(text))
      && (kind.Header? && kind.preLlm <==> IsPreLlm(text))
  {
    if IsHeader(text) {
      assert text[0] == ' ' && text[1] == ' ' && IsIdentStart(text[2..][0]);
      IndentAfterSpaces(text, 2);
    }
    if IsTopLevel(text) {
      IndentAfterSpaces(text, 0);
    }
    if IsPreLlm(text) {
      PreLlmIsHeader(text);
    }
    IndentShape(text);
  }

  lemma {:induction false} IndentAfterSpaces(s: string, n: nat)
    requires n < |s| && !IsSpace(s[n])
    requires forall i :: 0 <= i < n ==> s[i] == ' '
    ensures Indent(s) == n && !Blank(s)
  {
    if n > 0 { IndentAfterSpaces(s[1..], n - 1); }
  }

  lemma {:induction false} IdentAll(s: string, rest: string)
    requires forall i :: 0 <= i < |s| ==> IsIdentChar(s[i])
    requires rest != "" && !IsIdentChar(rest[0])
    ensures IdentRest(s + rest) == |s|
  {
    if s != "" {
      assert (s + rest)[1..] == s[1..] + rest;
      IdentAll(s[1..], rest);
    } else {
      assert s + rest == rest;
    }
  }

  lemma KeyIs(s: string, rest: string)
    requires s != "" && IsIdentStart(s[0]) && forall i :: 0 <= i < |s| ==> IsIdentChar(s[i])
    requires rest != "" && rest[0] == ':'
    ensures KeyLength(s + rest) == |s|
  {
    assert (s + rest)[1..] == s[1..] + rest;
    IdentAll(s[1..], rest);
  }

  lemma PreLlmIsHeader(text: string)
    requires IsPreLlm(text)
    ensures IsHeader(text)
  {
    var n := 2 + |PRE_LLM_KEY|;
    var prefix := "  " + PRE_LLM_KEY + ":";
    var rest := text[n..];
    assert text[..n + 1] == prefix;
    assert text[n] == prefix[n];
    assert text[2..n] == prefix[2..n] == PRE_LLM_KEY;
    assert text[2..] == PRE_LLM_KEY + rest;
    KeyIs(PRE_LLM_KEY, rest);
  }

  // ----- the lines the installer writes -----

  function Escape(s: string): string {
    if s == "" then ""
    else (match s[0]
          case '\\' => "\\\\"
          case '"' => "\\\""
          case '\n' => "\\n"
          case '\r' => "\\r"
          case c => [c]) + Escape(s[1..])
  }

  function CommandText(hook: Hook): string {
    "    - " + ("command: \"" + Escape(hook.command) + "\"")
  }

  const TIMEOUT_TEXT: string := "      " + "timeout: 10"
  const MARKER_TEXT: string := "      " + (MARKER_KEY + " true")
  const HOOKS_TEXT: string := HOOKS_KEY + ":"
  const NO_HOOKS_TEXT: string := HOOKS_KEY + ": {}"
  const PRE_LLM_TEXT: string := "  " + PRE_LLM_KEY + ":"

  function ManagedLines(hook: Hook): (m: seq<Line>)
    ensures |m| == 3
  {
    [Scan(hook, CommandText(hook)), Scan(hook, TIMEOUT_TEXT), Scan(hook, MARKER_TEXT)]
  }

  function PreLlmLine(hook: Hook): Line {
    Scan(hook, PRE_LLM_TEXT)
  }

  function HooksLine(hook: Hook): Line {
    Scan(hook, HOOKS_TEXT)
  }

  function NoHooksLine(hook: Hook): Line {
    Scan(hook, NO_HOOKS_TEXT)
  }

  /** The first managed line opens an item at indent 4 and the others lie deeper in it;
      the last carries the marker. */
  lemma ManagedShape(hook: Hook)
    ensures var m := ManagedLines(hook);
      && |m| == 3 && m[0].kind.Item? && m[0].indent == 4
      && m[1].kind.Other? && m[1].indent == 6
      && m[2].kind.Other? && m[2].indent == 6 && m[2].managed
      && m[0] != m[1] && m[0] != m[2]
  {
    CommandShape(hook);
    TimeoutShape(hook);
    MarkerShape(hook);
  }

  lemma CommandShape(hook: Hook)
    ensures var line := Scan(hook, CommandText(hook)); line.kind.Item? && line.indent == 4
  {
    var text := CommandText(hook);
    assert text[0] == ' ' && text[1] == ' ' && text[2] == ' ' && text[3] == ' ' && text[4] == '-' && text[5] == ' ';
    IndentAfterSpaces(text, 4);
    assert IsItem(text);
    assert text[2..][0] == ' ';
  }

  lemma OtherAt6(hook: Hook, text: string)
    requires |text| > 6 && text[..6] == "      " && !IsSpace(text[6]) && text[6] != '-'
    ensures var line := Scan(hook, text); line.kind.Other? && line.indent == 6
  {
    assert forall i :: 0 <= i < 6 ==> text[i] == text[..6][i];
    IndentAfterSpaces(text, 6);
    assert text[2..][0] == ' ';
  }

  lemma TimeoutShape(hook: Hook)
    ensures var line := Scan(hook, TIMEOUT_TEXT); line.kind.Other? && line.indent == 6
  {
    assert TIMEOUT_TEXT[6] == 't';
    OtherAt6(hook, TIMEOUT_TEXT);
  }

  lemma MarkerShape(hook: Hook)
    ensures var line := Scan(hook, MARKER_TEXT); line.kind.Other? && line.indent == 6 && line.managed
  {
    assert MARKER_TEXT[6] == MARKER_KEY[0];
    OtherAt6(hook, MARKER_TEXT);
    MarkerText();
  }

  lemma MarkerText()
    ensures IsMarker(MARKER_TEXT)
  {
    var body, value := MARKER_KEY + " true", " true";
    assert MARKER_TEXT[6] == MARKER_KEY[0];
    IndentAfterSpaces(MARKER_TEXT, 6);
    assert LStrip(MARKER_TEXT) == body;
    assert body[|MARKER_KEY|..] == value;
    IndentAfterSpaces(value, 1);
    assert LStrip(value) == "true";
    assert LStrip("true"[4..]) == "";
  }

  lemma {:induction false} NoComment(s: string)
    requires '#' !in s
    ensures Before(s, '#') == s
  {
    if s != "" {
      NoComment(s[1..]);
      assert s == [s[0]] + s[1..];
    }
  }

  lemma PlainValue(s: string)
    requires '#' !in s && s != "" && !IsSpace(s[0]) && !IsSpace(s[|s| - 1])
    ensures WithoutComment(s) == s
  {
    NoComment(s);
  }

  lemma PreLlmShape(hook: Hook)
    ensures PreLlmLine(hook).kind == Header(true, true)
    ensures WithoutComment(PRE_LLM_TEXT) == PRE_LLM_KEY + ":"
  {
    var text, value := PRE_LLM_TEXT, PRE_LLM_KEY + ":";
    assert text[2] == PRE_LLM_KEY[0];
    IndentAfterSpaces(text, 2);
    NoComment(text);
    assert LStrip(text) == value;
    assert RStrip(value) == value;
    ScanExact(hook, text);
  }

  lemma HooksShape(hook: Hook)
    ensures HooksLine(hook).kind == NoHooksLine(hook).kind == TopLevel(true)
  {
    HooksKey(hook, ":");
    HooksKey(hook, ": {}");
  }

  lemma HooksKey(hook: Hook, rest: string)
    requires rest != "" && rest[0] == ':'
    ensures Scan(hook, HOOKS_KEY + rest).kind == TopLevel(true)
  {
    var text := HOOKS_KEY + rest;
    assert text[0] == HOOKS_KEY[0];
    KeyIs(HOOKS_KEY, rest);
    assert text[..|HOOKS_KEY|] == HOOKS_KEY;
    IndentAfterSpaces(text, 0);
  }

  lemma HooksValues()
    ensures WithoutComment(HOOKS_TEXT) == HOOKS_TEXT && WithoutComment(NO_HOOKS_TEXT) == NO_HOOKS_TEXT
  {
    assert HOOKS_TEXT[0] == NO_HOOKS_TEXT[0] == HOOKS_KEY[0];
    PlainValue(HOOKS_TEXT);
    PlainValue(NO_HOOKS_TEXT);
  }
}
