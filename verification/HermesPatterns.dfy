/** What the line patterns of the Hermes editor match, character by character, and what the editor writes, letter by
    letter. */
module HermesPatterns {
  import opened Text
  import opened HermesLines
  import opened HermesConfig
  import opened HermesCommands

  // ----- keys -----

  /** A key stands from `first` up to the colon at `colon`: a letter or an underscore, then letters, underscores, digits and
      hyphens. */
  predicate KeyAt(text: string, first: nat, colon: nat) {
    && first < colon < |text| && text[colon] == ':'
    && Word(text[first])
    && forall i :: first <= i < colon ==> Word(text[i]) || Joins(text[i])
  }

  predicate Word(c: char) {
    'a' <= c <= 'z' || 'A' <= c <= 'Z' || c == '_'
  }

  predicate Joins(c: char) {
    '0' <= c <= '9' || c == '-'
  }

  lemma {:induction false} RestIs(s: string, n: nat)
    requires n <= |s| && (forall i :: 0 <= i < n ==> IsIdentChar(s[i])) && (n < |s| ==> !IsIdentChar(s[n]))
    ensures IdentRest(s) == n
  {
    if n > 0 {
      RestIs(s[1..], n - 1);
    }
  }

  lemma {:induction false} RestShape(s: string)
    ensures forall i :: 0 <= i < IdentRest(s) ==> IsIdentChar(s[i])
    ensures IdentRest(s) < |s| ==> !IsIdentChar(s[IdentRest(s)])
  {
    if s != "" && IsIdentChar(s[0]) {
      RestShape(s[1..]);
      assert forall i :: 0 < i < IdentRest(s) ==> s[i] == s[1..][i - 1];
    }
  }

  /** The length of a key is where its colon stands. */
  lemma KeyLengthIs(s: string, n: nat)
    ensures KeyAt(s, 0, n) <==> n > 0 && KeyLength(s) == n
  {
    if KeyAt(s, 0, n) {
      assert forall i :: 0 <= i < n - 1 ==> s[1..][i] == s[i + 1];
      RestIs(s[1..], n - 1);
    }
    if n > 0 && KeyLength(s) == n {
      RestShape(s[1..]);
      assert forall i :: 0 < i < n ==> s[i] == s[1..][i - 1];
    }
  }

  lemma KeyBehind(text: string, colon: nat)
    requires |text| >= 2
    ensures KeyAt(text, 2, colon + 2) <==> KeyAt(text[2..], 0, colon)
  {
    var rest := text[2..];
    if KeyAt(text, 2, colon + 2) {
      assert forall i :: 0 <= i < colon ==> rest[i] == text[i + 2];
    }
    if KeyAt(rest, 0, colon) {
      assert forall i :: 2 <= i < colon + 2 ==> text[i] == rest[i - 2];
    }
  }

  /** A line is a top-level key exactly when a key starts it. */
  lemma TopLevelIff(hook: Hook, text: string)
    ensures Scan(hook, text).kind.TopLevel? <==> exists colon :: KeyAt(text, 0, colon)
    ensures Scan(hook, text).kind == TopLevel(true) <==> "hooks:" <= text
  {
    hide KeyAt;
    ScanExact(hook, text);
    KeyLengthIs(text, KeyLength(text));
    forall n: nat ensures KeyAt(text, 0, n) <==> n > 0 && KeyLength(text) == n {
      KeyLengthIs(text, n);
    }
    hide Scan;
    HooksStarts(text);
  }

  lemma HooksStarts(text: string)
    ensures IsTopLevel(text) && IsHooksKey(text) <==> "hooks:" <= text
  {
    if "hooks:" <= text {
      var rest := text[5..];
      assert text == "hooks" + rest && text[5] == ':';
      KeyIs("hooks", rest);
    }
    if IsTopLevel(text) && IsHooksKey(text) {
      HooksWhere(text);
    }
  }

  lemma HooksWhere(text: string)
    requires IsTopLevel(text) && IsHooksKey(text)
    ensures "hooks:" <= text
  {
    KeyLengthIs(text, KeyLength(text));
    assert |text[..KeyLength(text)]| == 5;
    assert text[..6] == text[..5] + [text[5]];
  }

  /** A line is the header of an event exactly when two spaces and a key start it. */
  lemma HeaderIff(hook: Hook, text: string)
    ensures Scan(hook, text).kind.Header? <==> "  " <= text && exists colon :: KeyAt(text, 2, colon)
    ensures Scan(hook, text).kind.Header? && Scan(hook, text).kind.preLlm <==> "  pre_llm_call:" <= text
  {
    hide KeyAt;
    ScanExact(hook, text);
    if "  " <= text {
      var n := KeyLength(text[2..]);
      KeyBehind(text, n);
      KeyLengthIs(text[2..], n);
      if colon: nat :| KeyAt(text, 2, colon) {
        AfterFirst(text, colon);
        KeyBehind(text, colon - 2);
        KeyLengthIs(text[2..], colon - 2);
      }
    }
    hide Scan;
    assert "  " + PRE_LLM_KEY + ":" == "  pre_llm_call:";
  }

  lemma AfterFirst(text: string, colon: nat)
    requires KeyAt(text, 2, colon)
    ensures colon > 2
  {
  }

  // ----- items and blank lines -----

  /** Nothing but white space from `first` up to `end`. */
  predicate SpaceBetween(text: string, first: nat, end: nat) {
    end <= |text| && forall i :: first <= i < end ==> IsSpace(text[i])
  }

  predicate ItemAt(text: string, hyphen: nat) {
    SpaceBetween(text, 0, hyphen) && hyphen + 1 < |text| && text[hyphen] == '-' && IsSpace(text[hyphen + 1])
  }

  /** A line starts a list item exactly when a hyphen stands behind its indentation, and white space behind the hyphen. */
  lemma ItemIff(hook: Hook, text: string)
    ensures Scan(hook, text).kind.Item? <==> exists hyphen :: ItemAt(text, hyphen)
    ensures Scan(hook, text).kind.Empty? <==> SpaceBetween(text, 0, |text|)
  {
    ScanExact(hook, text);
    IndentShape(text);
    hide Scan;
    if IsItem(text) {
      assert ItemAt(text, Indent(text));
    }
  }

  // ----- what a line says, comments and surrounding blanks aside -----

  /** Between blanks the line says `value`; then it ends, or a comment starts. */
  predicate SaysAt(text: string, value: string, first: nat, end: nat) {
    && first <= |text| && first + |value| <= end && value <= text[first..]
    && SpaceBetween(text, 0, first) && SpaceBetween(text, first + |value|, end)
    && (end < |text| ==> text[end] == '#')
  }

  ghost predicate Says(text: string, value: string) {
    exists first, end :: SaysAt(text, value, first, end)
  }

  /** A value with text at both ends and no comment. */
  predicate Bounded(value: string) {
    value != "" && '#' !in value && !IsSpace(value[0]) && !IsSpace(value[|value| - 1])
  }

  lemma {:induction false} BeforeIs(text: string, end: nat)
    requires end <= |text| && '#' !in text[..end] && (end < |text| ==> text[end] == '#')
    ensures Before(text, '#') == text[..end]
  {
    if end > 0 {
      assert text[..end] == [text[0]] + text[1..][..end - 1];
      BeforeIs(text[1..], end - 1);
    }
  }

  lemma {:induction false} BeforeShape(text: string) returns (end: nat)
    ensures end <= |text| && '#' !in text[..end] && (end < |text| ==> text[end] == '#')
    ensures Before(text, '#') == text[..end]
  {
    if text == "" || text[0] == '#' {
      end := 0;
    } else {
      end := BeforeShape(text[1..]);
      end := end + 1;
      assert text[..end] == [text[0]] + text[1..][..end - 1];
    }
  }

  lemma {:induction false} RStripShape(s: string)
    ensures forall i :: |RStrip(s)| <= i < |s| ==> IsSpace(s[i])
  {
    if s != "" && IsSpace(s[|s| - 1]) {
      RStripShape(s[..|s| - 1]);
    }
  }

  lemma {:induction false} RStripIs(s: string, n: nat)
    requires 0 < n <= |s| && !IsSpace(s[n - 1]) && forall i :: n <= i < |s| ==> IsSpace(s[i])
    ensures RStrip(s) == s[..n]
    decreases |s|
  {
    if n < |s| {
      RStripIs(s[..|s| - 1], n);
    }
  }

  lemma {:induction false} IndentIs(s: string, n: nat)
    requires n < |s| && !IsSpace(s[n]) && forall i :: 0 <= i < n ==> IsSpace(s[i])
    ensures Indent(s) == n
  {
    if n > 0 {
      IndentIs(s[1..], n - 1);
    }
  }

  /** What is left of a line without its comment and the blanks around is what the line says. */
  lemma SaysIff(text: string, value: string)
    requires Bounded(value)
    ensures WithoutComment(text) == value <==> Says(text, value)
  {
    if WithoutComment(text) == value {
      SaysWhere(text, value);
    }
    if first: nat, end: nat :| SaysAt(text, value, first, end) {
      SaidIs(text, value, first, end);
    }
  }

  /** The text without its comment is cut in three: blanks, what it says, and blanks. */
  lemma Stripped(text: string) returns (first: nat, last: nat, end: nat)
    ensures first <= last <= end <= |text| && WithoutComment(text) == text[first..last]
    ensures SpaceBetween(text, 0, first) && SpaceBetween(text, last, end)
    ensures '#' !in text[..end] && (end < |text| ==> text[end] == '#')
  {
    end := BeforeShape(text);
    first, last := StripCut(text[..end]);
    assert text[..end][first..last] == text[first..last];
    assert forall i :: 0 <= i < end ==> text[i] == text[..end][i];
  }

  lemma StripCut(s: string) returns (first: nat, last: nat)
    ensures first <= last <= |s| && Strip(s) == s[first..last]
    ensures SpaceBetween(s, 0, first) && SpaceBetween(s, last, |s|)
  {
    first := Indent(s);
    IndentShape(s);
    var rest := s[first..];
    RStripShape(rest);
    last := first + |RStrip(rest)|;
    assert forall i :: last <= i < |s| ==> s[i] == rest[i - first];
    assert rest[..last - first] == s[first..last];
  }

  lemma SaysWhere(text: string, value: string)
    requires Bounded(value) && WithoutComment(text) == value
    ensures Says(text, value)
  {
    hide WithoutComment;
    var first, last, end := Stripped(text);
    assert text[first..][..|value|] == value;
    assert SaysAt(text, value, first, end);
  }

  lemma SaidIs(text: string, value: string, first: nat, end: nat)
    requires Bounded(value) && SaysAt(text, value, first, end)
    ensures WithoutComment(text) == value
  {
    var s := text[..end];
    NoHash(text, value, first, end);
    BeforeIs(text, end);
    ValueInside(text, value, first, end);
    IndentIs(s, first);
    RStripIs(s[first..], |value|);
  }

  lemma NoHash(text: string, value: string, first: nat, end: nat)
    requires Bounded(value) && SaysAt(text, value, first, end)
    ensures end <= |text| && '#' !in text[..end]
  {
    assert !IsSpace('#');
    forall i | 0 <= i < end ensures text[i] != '#' {
      assert first <= i < first + |value| ==> text[first..][i - first] == value[i - first];
    }
  }

  lemma ValueInside(text: string, value: string, first: nat, end: nat)
    requires Bounded(value) && SaysAt(text, value, first, end)
    ensures end <= |text| && !IsSpace(text[first]) && !IsSpace(text[first + |value| - 1])
    ensures text[..end][first..][..|value|] == value
  {
    assert text[first..][0] == value[0] && text[first..][|value| - 1] == value[|value| - 1];
    assert text[..end][first..][..|value|] == text[first..][..|value|];
  }

  /** The values that the installer tells apart. */
  lemma HooksValueIff(line: Line)
    ensures IsEmptyValue(line, HOOKS_KEY) <==> Says(line.text, "hooks: {}") || Says(line.text, "hooks: null")
    ensures IsBareKey(line, HOOKS_KEY) <==> Says(line.text, "hooks:")
  {
    hide WithoutComment;
    hide Says;
    BoundedValue("hooks: {}");
    BoundedValue("hooks: null");
    BoundedValue("hooks:");
    assert HOOKS_KEY + ": {}" == "hooks: {}" && HOOKS_KEY + ": null" == "hooks: null" && HOOKS_KEY + ":" == "hooks:";
    SaysIff(line.text, "hooks: {}");
    SaysIff(line.text, "hooks: null");
    SaysIff(line.text, "hooks:");
  }

  lemma EventValueIff(line: Line)
    ensures IsEmptyList(line) <==> Says(line.text, "pre_llm_call: []") || Says(line.text, "pre_llm_call: null")
    ensures IsBareKey(line, PRE_LLM_KEY) <==> Says(line.text, "pre_llm_call:")
  {
    hide WithoutComment;
    hide Says;
    BoundedValue("pre_llm_call: []");
    BoundedValue("pre_llm_call: null");
    BoundedValue("pre_llm_call:");
    EventTexts();
    SaysIff(line.text, "pre_llm_call: []");
    SaysIff(line.text, "pre_llm_call: null");
    SaysIff(line.text, "pre_llm_call:");
  }

  lemma EventTexts()
    ensures PRE_LLM_KEY + ": []" == "pre_llm_call: []" && PRE_LLM_KEY + ": null" == "pre_llm_call: null"
    ensures PRE_LLM_KEY + ":" == "pre_llm_call:"
  {
  }

  /** What the installer does with a file free of managed lines, by what its `hooks:` line says and what the line of its
      first `pre_llm_call` event says. */
  lemma InsertDecides(hook: Hook, r: Document)
    requires r.Hooks?
    ensures Inserted(hook, r) ==
      if Says(r.header.text, "hooks: {}") || Says(r.header.text, "hooks: null") then
        Ok(r.before + ManagedBlock(hook) + r.body + r.after)
      else if !Says(r.header.text, "hooks:") then Inline(false)
      else
        match FindEvent(r.body)
        case NoEvent => Ok(r.before + [r.header] + (r.body + ManagedEvent(hook)) + r.after)
        case Event(head, h, list, tail) =>
          if Says(h.text, "pre_llm_call: []") || Says(h.text, "pre_llm_call: null") then
            Ok(r.before + [r.header] + (head + ManagedEvent(hook) + list + tail) + r.after)
          else if Says(h.text, "pre_llm_call:") then
            Ok(r.before + [r.header] + (head + [h] + list + ManagedLines(hook) + tail) + r.after)
          else Inline(true)
  {
    hide Says;
    hide IsEmptyValue;
    hide IsBareKey;
    hide IsEmptyList;
    hide ManagedBlock;
    hide ManagedEvent;
    hide ManagedLines;
    hide FindEvent;
    HooksValueIff(r.header);
    if FindEvent(r.body).Event? {
      EventValueIff(FindEvent(r.body).header);
    }
  }

  lemma BoundedValue(value: string)
    requires value != "" && !IsSpace(value[0]) && !IsSpace(value[|value| - 1]) && '#' !in value
    ensures Bounded(value)
  {
  }

  /** A colon, outside a comment, behind which nothing but blanks and a comment follow. */
  predicate OpenAt(text: string, colon: nat, end: nat) {
    && colon < end <= |text| && text[colon] == ':' && '#' !in text[..colon]
    && SpaceBetween(text, colon + 1, end) && (end < |text| ==> text[end] == '#')
  }

  /** A header is open exactly when its line ends in a colon. */
  lemma OpenIff(hook: Hook, text: string)
    requires Scan(hook, text).kind.Header?
    ensures Scan(hook, text).kind.open <==> exists colon, end :: OpenAt(text, colon, end)
  {
    ScanExact(hook, text);
    assert Scan(hook, text).kind.open <==> EndsWith(WithoutComment(text), ":");
    hide Scan;
    if EndsWith(WithoutComment(text), ":") {
      OpenWhere(text);
    }
    if colon: nat, end: nat :| OpenAt(text, colon, end) {
      OpenEnds(text, colon, end);
    }
  }

  lemma OpenWhere(text: string)
    requires EndsWith(WithoutComment(text), ":")
    ensures exists colon, end :: OpenAt(text, colon, end)
  {
    hide WithoutComment;
    var first, last, end := Stripped(text);
    var value := text[first..last];
    assert value[|value| - 1..][0] == ':';
    assert text[last - 1] == value[|value| - 1];
    assert forall i :: 0 <= i < last - 1 ==> text[..last - 1][i] == text[..end][i];
    assert OpenAt(text, last - 1, end);
  }

  lemma OpenEnds(text: string, colon: nat, end: nat)
    requires OpenAt(text, colon, end)
    ensures EndsWith(WithoutComment(text), ":")
  {
    var s := text[..end];
    assert !IsSpace('#') && !IsSpace(':');
    forall i | 0 <= i < end ensures text[i] != '#' {
      assert i < colon ==> text[..colon][i] == text[i];
    }
    BeforeIs(text, end);
    IndentShape(s);
    var first := Indent(s);
    assert s[colon] == ':';
    RStripIs(s[first..], colon + 1 - first);
    assert s[first..][..colon + 1 - first][colon - first] == ':';
  }

  // ----- the marker -----

  /** The marker stands at `key`, its value at `value`; behind it the line ends, or a comment starts at `end`. */
  predicate MarkerAt(text: string, key: nat, value: nat, end: nat) {
    && key + 15 <= value <= |text| && value + 4 <= end && SpaceBetween(text, 0, key) && SpaceBetween(text, key + 15, value)
    && "agpair_managed:" <= text[key..] && "true" <= text[value..]
    && SpaceBetween(text, value + 4, end) && (end < |text| ==> text[end] == '#')
  }

  /** A line is managed exactly if it is the command's or carries the marker, whatever its indentation and comment. */
  lemma MarkerIff(hook: Hook, text: string)
    ensures Scan(hook, text).managed <==>
      hook.isCommand(text) || exists key, value, end :: MarkerAt(text, key, value, end)
  {
    assert Scan(hook, text).managed <==> hook.isCommand(text) || IsMarker(text);
    hide Scan;
    hide IsMarker;
    if IsMarker(text) {
      MarkerWhere(text);
    }
    if key: nat, value: nat, end: nat :| MarkerAt(text, key, value, end) {
      MarkerIs(text, key, value, end);
    }
  }

  lemma StripWhere(text: string, from: nat)
    requires from <= |text|
    ensures var at := from + Indent(text[from..]);
      at <= |text| && LStrip(text[from..]) == text[at..] && SpaceBetween(text, from, at)
  {
    IndentShape(text[from..]);
    assert forall i :: from <= i < from + Indent(text[from..]) ==> text[i] == text[from..][i - from];
  }

  lemma MarkerWhere(text: string)
    requires IsMarker(text)
    ensures exists key, value, end :: MarkerAt(text, key, value, end)
  {
    var key := Indent(text);
    StripWhere(text, 0);
    assert text[0..] == text;
    var value := ValueWhere(text, key);
    var end := EndWhere(text, value);
    assert MarkerAt(text, key, value, end);
  }

  /** The pattern from its key on, and from its value on. */
  predicate IsValue(rest: string) {
    "true" <= LStrip(rest) && var tail := LStrip(LStrip(rest)[4..]); tail == "" || tail[0] == '#'
  }

  lemma MarkerIsValue(text: string)
    ensures IsMarker(text) <==> "agpair_managed:" <= LStrip(text) && IsValue(LStrip(text)[15..])
  {
    hide LStrip;
    assert MARKER_KEY == "agpair_managed:" && |MARKER_KEY| == 15;
  }

  lemma ValueWhere(text: string, key: nat) returns (value: nat)
    requires IsMarker(text) && key <= |text| && LStrip(text) == text[key..]
    ensures key + 15 <= value <= |text| && "agpair_managed:" <= text[key..] && "true" <= text[value..]
    ensures SpaceBetween(text, key + 15, value)
    ensures var tail := LStrip(text[value..][4..]); tail == "" || tail[0] == '#'
  {
    MarkerIsValue(text);
    hide LStrip;
    StripWhere(text, key + 15);
    assert text[key..][15..] == text[key + 15..];
    value := key + 15 + Indent(text[key + 15..]);
  }

  lemma EndWhere(text: string, value: nat) returns (end: nat)
    requires value <= |text| && "true" <= text[value..]
    requires var tail := LStrip(text[value..][4..]); tail == "" || tail[0] == '#'
    ensures value + 4 <= end && SpaceBetween(text, value + 4, end) && (end < |text| ==> text[end] == '#')
  {
    hide LStrip;
    assert text[value..][4..] == text[value + 4..];
    StripWhere(text, value + 4);
    end := value + 4 + Indent(text[value + 4..]);
    assert end < |text| ==> text[end..][0] == text[end];
  }

  /** Stripping stops where the text does not go on with white space. */
  lemma StripStops(text: string, from: nat, at: nat)
    requires from <= at <= |text| && SpaceBetween(text, from, at) && (at < |text| ==> !IsSpace(text[at]))
    ensures LStrip(text[from..]) == text[at..]
  {
    var rest := text[from..];
    assert forall i :: 0 <= i < at - from ==> rest[i] == text[from + i];
    if at < |text| {
      IndentIs(rest, at - from);
    } else {
      AllSpaces(rest);
    }
  }

  lemma {:induction false} AllSpaces(s: string)
    requires forall i :: 0 <= i < |s| ==> IsSpace(s[i])
    ensures Indent(s) == |s|
  {
    if s != "" {
      AllSpaces(s[1..]);
    }
  }

  lemma MarkerIs(text: string, key: nat, value: nat, end: nat)
    requires MarkerAt(text, key, value, end)
    ensures IsMarker(text)
  {
    MarkerIsValue(text);
    MarkerTail(text, value, end);
    KeyHere(text, key, value);
    assert text[0..] == text && text[key..][15..] == text[key + 15..];
    hide LStrip;
    hide IsMarker;
    StripStops(text, 0, key);
    StripStops(text, key + 15, value);
  }

  lemma KeyHere(text: string, key: nat, value: nat)
    requires key + 15 <= value <= |text| && "agpair_managed:" <= text[key..] && "true" <= text[value..]
    ensures value < |text| && !IsSpace(text[key]) && !IsSpace(text[value])
  {
    assert text[key..][0] == 'a' && text[value..][0] == 't' && !IsSpace('a') && !IsSpace('t');
  }

  lemma MarkerTail(text: string, value: nat, end: nat)
    requires value <= |text| && value + 4 <= end && "true" <= text[value..] && SpaceBetween(text, value + 4, end)
    requires end < |text| ==> text[end] == '#'
    ensures var tail := LStrip(text[value..][4..]); tail == "" || tail[0] == '#'
  {
    hide LStrip;
    assert !IsSpace('#');
    assert text[value..][4..] == text[value + 4..];
    StripStops(text, value + 4, end);
    assert end < |text| ==> text[end..][0] == text[end];
  }

  // ----- what is written -----

  /** A reader of double-quoted text: the text up to the closing quote, and what follows it. */
  function Quoted(s: string): (string, string) {
    if s == "" || s[0] == '"' then ("", s)
    else if s[0] == '\\' && |s| > 1 then
      var (text, rest) := Quoted(s[2..]);
      ([if s[1] == 'n' then '\n' else if s[1] == 'r' then '\r' else s[1]] + text, rest)
    else
      var (text, rest) := Quoted(s[1..]);
      ([s[0]] + text, rest)
  }

  /** How one character is written between the quotes. */
  lemma EscapeHead(command: string)
    requires command != ""
    ensures var c := command[0];
      Escape(command) ==
        (if c == '\\' then ['\\', '\\'] else if c == '"' then ['\\', '"'] else if c == '\n' then ['\\', 'n']
         else if c == '\r' then ['\\', 'r'] else [c]) + Escape(command[1..])
  {
    hide Escape;
    EscapeUnfolds(command);
  }

  lemma EscapeUnfolds(command: string)
    requires command != ""
    ensures Escape(command) ==
      (match command[0]
       case '\\' => "\\\\"
       case '"' => "\\\""
       case '\n' => "\\n"
       case '\r' => "\\r"
       case c => [c]) + Escape(command[1..])
  {
  }

  lemma QuotedPair(code: char, more: string)
    ensures Quoted(['\\', code] + more) ==
      var (text, rest) := Quoted(more);
      ([if code == 'n' then '\n' else if code == 'r' then '\r' else code] + text, rest)
  {
    assert (['\\', code] + more)[2..] == more;
  }

  lemma QuotedPlain(c: char, more: string)
    requires c != '\\' && c != '"'
    ensures Quoted([c] + more) == var (text, rest) := Quoted(more); ([c] + text, rest)
  {
    assert ([c] + more)[1..] == more;
  }

  /** Whatever the command is, it is read back from between the quotes it is written in. */
  lemma {:induction false} QuotedCommand(command: string, rest: string)
    requires rest != "" && rest[0] == '"'
    ensures Quoted(Escape(command) + rest) == (command, rest)
  {
    hide Escape;
    if command == "" {
      NothingEscaped();
      assert "" + rest == rest;
    } else {
      QuotedCommand(command[1..], rest);
      EscapeHead(command);
      hide Quoted;
      QuotedHead(command[0], Escape(command[1..]), rest);
      assert command == [command[0]] + command[1..];
    }
  }

  lemma NothingEscaped()
    ensures Escape("") == ""
  {
  }

  lemma QuotedHead(c: char, written: string, rest: string)
    ensures var head := if c == '\\' then ['\\', '\\'] else if c == '"' then ['\\', '"'] else if c == '\n' then ['\\', 'n']
        else if c == '\r' then ['\\', 'r'] else [c];
      Quoted(head + written + rest) == var (text, left) := Quoted(written + rest); ([c] + text, left)
  {
    hide Quoted;
    var more := written + rest;
    var code := if c == '\n' then 'n' else if c == '\r' then 'r' else c;
    assert ['\\', code] + written + rest == ['\\', code] + more && [c] + written + rest == [c] + more;
    QuotedPair(code, more);
    if c != '\\' && c != '"' {
      QuotedPlain(c, more);
    }
  }

  /** The file that installing writes where there was none, letter by letter. */
  lemma FreshFileText(hook: Hook)
    ensures MergedText(hook, "") == Ok(
      "hooks:" + "\n" + ("  pre_llm_call:" + "\n") + ("    - command: \"" + Escape(hook.command) + "\"" + "\n")
      + ("      timeout: 10" + "\n") + ("      agpair_managed: true" + "\n"))
  {
    FreshInstall(hook);
    BlockTexts(hook);
    WrittenTexts(hook);
    hide *;
    FiveLines("hooks:", "  pre_llm_call:", CommandText(hook), "      timeout: 10", "      agpair_managed: true");
  }

  lemma FiveLines(a: string, b: string, c: string, d: string, e: string)
    ensures Join([a, b, c, d, e]) + "\n" == a + "\n" + (b + "\n") + (c + "\n") + (d + "\n") + (e + "\n")
  {
    hide Join;
    JoinTwoMore(a, b, [c, d, e]);
    JoinThree(c, d, e);
    assert [a, b] + [c, d, e] == [a, b, c, d, e];
  }

  lemma WrittenTexts(hook: Hook)
    ensures HOOKS_TEXT == "hooks:" && PRE_LLM_TEXT == "  pre_llm_call:" && TIMEOUT_TEXT == "      timeout: 10"
    ensures MARKER_TEXT == "      agpair_managed: true"
    ensures CommandText(hook) == "    - command: \"" + Escape(hook.command) + "\""
  {
    hide Escape;
    assert "    - " + ("command: \"" + Escape(hook.command) + "\"") == "    - command: \"" + Escape(hook.command) + "\"";
  }
}
