/** The laws of the Hermes editor on whole config texts. */
module HermesTexts {
  import opened Text
  import opened HermesLines
  import opened HermesConfig
  import opened HermesShape
  import opened HermesLaws
  import opened HermesRemoval

  /** Lines as they come from splitting a text. */
  predicate FromText(hook: Hook, lines: seq<Line>) {
    forall x :: x in lines ==> x == Scan(hook, x.text) && !HasBreak(x.text)
  }

  /** A command whose only line breaks are those that the quoting escapes. */
  predicate OneLine(command: string) {
    forall i :: 0 <= i < |command| ==> IsBreak(command[i]) ==> command[i] == '\n' || command[i] == '\r'
  }

  lemma SplitFromText(hook: Hook, text: string)
    ensures FromText(hook, ScanAll(hook, SplitLines(text)))
  {
    var texts := SplitLines(text);
    var lines := ScanAll(hook, texts);
    forall x | x in lines ensures x == Scan(hook, x.text) && !HasBreak(x.text) {
      var i :| 0 <= i < |lines| && lines[i] == x;
      assert x == Scan(hook, texts[i]);
    }
  }

  /** Writing lines out and reading the text back gives the same lines. */
  lemma WriteRead(hook: Hook, lines: seq<Line>)
    requires lines != [] && FromText(hook, lines)
    ensures ScanAll(hook, SplitLines(ToText(lines))) == lines
    ensures Rendered(ToText(lines)) == ToText(lines)
  {
    assert forall i :: 0 <= i < |lines| ==> lines[i] in lines;
    SplitJoin(Texts(lines));
    var text := ToText(lines);
    assert text[|text| - 1..] == "\n";
  }

  lemma WriteInjective(hook: Hook, a: seq<Line>, b: seq<Line>)
    requires a != [] && FromText(hook, a) && b != [] && FromText(hook, b)
    ensures ToText(a) == ToText(b) <==> a == b
  {
    WriteRead(hook, a);
    WriteRead(hook, b);
  }

  lemma {:induction false} EscapeOneLine(s: string)
    requires OneLine(s)
    ensures !HasBreak(Escape(s))
  {
    if s != "" {
      EscapeOneLine(s[1..]);
      var first := match s[0] case '\\' => "\\\\" case '"' => "\\\"" case '\n' => "\\n" case '\r' => "\\r" case c => [c];
      assert !HasBreak(first);
      assert Escape(s) == first + Escape(s[1..]);
    }
  }

  lemma JoinBreaks(a: string, b: string)
    ensures HasBreak(a + b) <==> HasBreak(a) || HasBreak(b)
  {
    if HasBreak(a) {
      var i :| 0 <= i < |a| && IsBreak(a[i]);
      assert (a + b)[i] == a[i];
    }
    if HasBreak(b) {
      var i :| 0 <= i < |b| && IsBreak(b[i]);
      assert (a + b)[|a| + i] == b[i];
    }
  }

  lemma CommandOneLine(hook: Hook)
    requires OneLine(hook.command)
    ensures !HasBreak(CommandText(hook))
  {
    EscapeOneLine(hook.command);
    JoinBreaks("command: \"", Escape(hook.command));
    JoinBreaks("command: \"" + Escape(hook.command), "\"");
    JoinBreaks("    - ", "command: \"" + Escape(hook.command) + "\"");
  }

  lemma MarkerOneLine()
    ensures !HasBreak(MARKER_TEXT) && !HasBreak(TIMEOUT_TEXT)
  {
    JoinBreaks(MARKER_KEY, " true");
    JoinBreaks("      ", MARKER_KEY + " true");
    JoinBreaks("      ", "timeout: 10");
  }

  lemma HeadersOneLine()
    ensures !HasBreak(PRE_LLM_TEXT) && !HasBreak(HOOKS_TEXT) && !HasBreak(NO_HOOKS_TEXT)
  {
    JoinBreaks("  ", PRE_LLM_KEY);
    JoinBreaks("  " + PRE_LLM_KEY, ":");
    JoinBreaks(HOOKS_KEY, ":");
    JoinBreaks(HOOKS_KEY, ": {}");
  }

  lemma ConstantsFromText(hook: Hook)
    ensures FromText(hook, [PreLlmLine(hook), HooksLine(hook), NoHooksLine(hook), Scan(hook, "")])
  {
    hide HasBreak;
    hide IsMarker;
    HeadersOneLine();
    EmptyOneLine();
  }

  lemma ManagedFromText(hook: Hook)
    requires OneLine(hook.command)
    ensures FromText(hook, ManagedLines(hook))
  {
    hide HasBreak;
    hide IsMarker;
    hide CommandText;
    CommandOneLine(hook);
    MarkerOneLine();
  }

  lemma EmptyOneLine()
    ensures !HasBreak("")
  {
  }

  lemma RemovedFromText(hook: Hook, d: Document)
    requires FromText(hook, d.Lines()) && FromText(hook, [NoHooksLine(hook)])
    ensures FromText(hook, Removed(hook, d).Lines())
  {
    if d.Hooks? {
      hide Pruned;
      hide CleanBody;
      hide Scan;
      CleanBodyIsPart(d.body);
      PrunedIsPart(CleanBody(d.body));
      assert NoHooksLine(hook) in [NoHooksLine(hook)];
    }
  }

  lemma InsertedFromText(hook: Hook, d: Document)
    requires OneLine(hook.command) && FromText(hook, d.Lines()) && Inserted(hook, d).Ok?
    ensures var lines := Inserted(hook, d).value; lines != [] && FromText(hook, lines)
  {
    hide Scan;
    hide IsBareKey;
    hide IsEmptyValue;
    hide IsEmptyList;
    hide FindEvent;
    ConstantsFromText(hook);
    ManagedFromText(hook);
    var consts := [PreLlmLine(hook), HooksLine(hook), NoHooksLine(hook), Scan(hook, "")];
    assert PreLlmLine(hook) in consts && HooksLine(hook) in consts && Scan(hook, "") in consts;
    if d.Hooks? { FindOf(d.body); }
  }

  lemma NoHooksFromText(hook: Hook)
    ensures FromText(hook, [NoHooksLine(hook)])
  {
    ConstantsFromText(hook);
    assert NoHooksLine(hook) in [PreLlmLine(hook), HooksLine(hook), NoHooksLine(hook), Scan(hook, "")];
  }

  lemma RemovedOnce(hook: Hook, d: Document)
    ensures Removed(hook, d).Hooks? == d.Hooks?
    ensures d.Hooks? ==> Removed(hook, d).before == d.before && Removed(hook, d).after == d.after
    ensures d.Plain? ==> Removed(hook, d) == d
  {
  }

  lemma RemovedLinesFromText(hook: Hook, current: string)
    ensures FromText(hook, Removed(hook, Parsed(hook, Rendered(current))).Lines())
    ensures Removed(hook, Parsed(hook, Rendered(current))).Hooks? ==> Removed(hook, Parsed(hook, Rendered(current))).Lines() != []
  {
    hide ParseDocument;
    hide Removed;
    hide SplitLines;
    var lines := ScanAll(hook, SplitLines(Rendered(current)));
    SplitFromText(hook, Rendered(current));
    ParseOf(lines);
    NoHooksFromText(hook);
    RemovedFromText(hook, ParseDocument(lines));
    HooksNonempty(Removed(hook, ParseDocument(lines)));
  }

  lemma HooksNonempty(d: Document)
    ensures d.Hooks? ==> d.Lines() != []
  {
    if d.Hooks? { assert |d.Lines()| >= 1; }
  }

  /** The text a removal writes reads back as the file without its managed lines. */
  lemma RemovedReads(hook: Hook, current: string)
    ensures var r := RemovedText(hook, current);
      Rendered(r) == r && Parsed(hook, r) == Removed(hook, Parsed(hook, Rendered(current)))
  {
    hide ParseDocument;
    hide Removed;
    hide SplitLines;
    hide ToText;
    hide ScanAll;
    var d := Parsed(hook, Rendered(current));
    ParseOf(ScanAll(hook, SplitLines(Rendered(current))));
    RenderedTwice(current);
    RemovedOnce(hook, d);
    if d.Hooks? {
      RemovedShape(hook, d);
      RemovedLinesFromText(hook, current);
      ParseUnique(Removed(hook, d));
      WriteRead(hook, Removed(hook, d).Lines());
    }
  }

  /** Merging works on the lines of the text. */
  lemma MergedLines(hook: Hook, current: string)
    ensures var lines := ScanAll(hook, SplitLines(Rendered(current)));
      MergedText(hook, current) == match Merged(hook, lines) case Ok(l) => Ok(ToText(l)) case Inline(event) => Inline(event)
  {
    hide ParseDocument;
    hide Inserted;
    hide Removed;
    hide RemovedText;
    hide SplitLines;
    hide ToText;
    hide ScanAll;
    RemovedReads(hook, current);
  }

  lemma RenderedTwice(current: string)
    ensures Rendered(Rendered(current)) == Rendered(current)
  {
    if current != "" && !EndsWith(current, "\n") {
      assert (current + "\n")[|current|..] == "\n";
    }
  }

  /** Installing the hook in a config text twice gives the text of installing it once exactly
      when InstallStable holds of the file without its managed lines. */
  lemma InstallTextTwice(hook: Hook, current: string)
    requires OneLine(hook.command) && MergedText(hook, current).Ok?
    ensures var once := MergedText(hook, current);
      MergedText(hook, once.value) == once <==> InstallStable(hook, Removed(hook, Parsed(hook, Rendered(current))))
  {
    hide ParseDocument;
    hide Removed;
    hide Inserted;
    hide SplitLines;
    hide ToText;
    hide InstallStable;
    var lines := ScanAll(hook, SplitLines(Rendered(current)));
    MergedLines(hook, current);
    var once := Merged(hook, lines);
    MergedFromText(hook, current);
    WriteRead(hook, once.value);
    MergedLines(hook, ToText(once.value));
    MergedFromText(hook, ToText(once.value));
    InstallTwice(hook, lines);
    var twice := Merged(hook, once.value);
    if twice.Ok? { WriteInjective(hook, twice.value, once.value); }
  }

  lemma MergedFromText(hook: Hook, current: string)
    requires OneLine(hook.command)
    ensures var r := Merged(hook, ScanAll(hook, SplitLines(Rendered(current))));
      r.Ok? ==> r.value != [] && FromText(hook, r.value)
  {
    hide ParseDocument;
    hide Removed;
    hide Inserted;
    hide SplitLines;
    var lines := ScanAll(hook, SplitLines(Rendered(current)));
    SplitFromText(hook, Rendered(current));
    ParseOf(lines);
    NoHooksFromText(hook);
    RemovedFromText(hook, ParseDocument(lines));
    var r := Merged(hook, lines);
    if r.Ok? { InsertedFromText(hook, Removed(hook, ParseDocument(lines))); }
  }

  /** Removing the hook from a config text twice gives the text of removing it once exactly
      when the text has no `hooks:` block or one removal suffices for its block. */
  lemma RemoveTextTwice(hook: Hook, current: string)
    ensures var d := Parsed(hook, Rendered(current));
      RemovedText(hook, RemovedText(hook, current)) == RemovedText(hook, current) <==> d.Plain? || OneRemovalSuffices(d.body)
  {
    hide ParseDocument;
    hide Removed;
    hide SplitLines;
    hide ToText;
    hide ScanAll;
    hide OneRemovalSuffices;
    var d := Parsed(hook, Rendered(current));
    ParseOf(ScanAll(hook, SplitLines(Rendered(current))));
    RemovedReads(hook, current);
    RemovedOnce(hook, d);
    if d.Hooks? {
      RemovedLinesFromText(hook, current);
      RemovedLinesFromText(hook, RemovedText(hook, current));
      RemovedOnce(hook, Removed(hook, d));
      WriteInjective(hook, Removed(hook, Removed(hook, d)).Lines(), Removed(hook, d).Lines());
      RemovedShape(hook, d);
      RemovedShape(hook, Removed(hook, d));
      ParseUnique(Removed(hook, d));
      ParseUnique(Removed(hook, Removed(hook, d)));
      RemoveTwice(hook, d);
    }
  }
}
