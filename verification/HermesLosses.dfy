/** Files on which the editor does not do what one would hope: hooks it overwrites, and second runs that change
    something. Each failure comes with its exact condition and with a file that shows it. */
module HermesLosses {
  import opened Text
  import opened HermesLines
  import opened HermesConfig
  import opened HermesShape
  import opened HermesLaws
  import opened HermesRemoval

  // ----- an inline `hooks:` value -----

  /** Nothing but blank lines is left under the `hooks:` line after a removal. */
  predicate LeftBlank(body: seq<Line>) {
    AllBlank(Pruned(CleanBody(body)))
  }

  /** Removal overwrites the `hooks:` line, whatever its value, exactly when it leaves the block blank. */
  lemma OverwrittenIff(hook: Hook, d: Document)
    requires d.Hooks? && d.header != NoHooksLine(hook)
    ensures Removed(hook, d).header != d.header <==> LeftBlank(d.body)
    ensures LeftBlank(d.body) ==> Removed(hook, d) == d.(header := NoHooksLine(hook), body := [])
  {
    hide Pruned;
    hide CleanBody;
    hide AllBlank;
  }

  /** The guard against clobbering an inline `hooks:` value works exactly when the block is not left blank; otherwise
      the value is lost and the managed block stands in its place. */
  lemma GuardedIff(hook: Hook, d: Document)
    requires d.Hooks? && d.Valid() && !IsBareKey(d.header, HOOKS_KEY) && !IsEmptyValue(d.header, HOOKS_KEY)
    ensures Merged(hook, d.Lines()) == if LeftBlank(d.body) then Ok(d.before + ManagedBlock(hook) + d.after) else Inline(false)
  {
    hide Pruned;
    hide CleanBody;
    hide AllBlank;
    hide Scan;
    hide IsBareKey;
    hide IsEmptyValue;
    hide ManagedBlock;
    hide InsertedBody;
    HeaderValues(hook, NoHooksLine(hook));
    ParseUnique(d);
    OverwrittenIff(hook, d);
    var r := d.(header := NoHooksLine(hook), body := []);
    assert d.before + ManagedBlock(hook) + [] + d.after == d.before + ManagedBlock(hook) + d.after;
  }

  const INLINE_TEXT: string := HOOKS_KEY + ": {post: [x]}"

  /** A file that is one inline `hooks:` line: installing replaces it, and no error is raised. */
  lemma InlineHooksAreLost(hook: Hook)
    ensures var lines := [Scan(hook, INLINE_TEXT)];
      Merged(hook, lines) == Ok(ManagedBlock(hook)) && Scan(hook, INLINE_TEXT) !in ManagedBlock(hook)
  {
    var line := Scan(hook, INLINE_TEXT);
    var d := Hooks([], line, [], []);
    HermesLines.HooksKey(hook, ": {post: [x]}");
    InlineValue(hook);
    hide Scan;
    hide IsBareKey;
    hide IsEmptyValue;
    hide ManagedBlock;
    assert d.Lines() == [line];
    NothingThere();
    GuardedIff(hook, d);
    assert [] + ManagedBlock(hook) + [] == ManagedBlock(hook);
    NotInBlock(hook, line);
  }

  lemma NothingThere()
    ensures LeftBlank([])
  {
  }

  lemma InlineValue(hook: Hook)
    ensures var line := Scan(hook, INLINE_TEXT);
      !IsBareKey(line, HOOKS_KEY) && !IsEmptyValue(line, HOOKS_KEY) && line.text != HOOKS_TEXT
  {
    assert INLINE_TEXT[0] == HOOKS_KEY[0];
    PlainValue(INLINE_TEXT);
    assert |INLINE_TEXT| != |HOOKS_TEXT| && |INLINE_TEXT| != |HOOKS_KEY + ": {}"| && |INLINE_TEXT| != |HOOKS_KEY + ": null"|;
  }

  /** The kinds and the first text of the five lines of the managed block. */
  lemma BlockLines(hook: Hook)
    ensures var b := ManagedBlock(hook);
      && |b| == 5 && b[0].kind == TopLevel(true) && b[0].text == HOOKS_TEXT && b[1].kind == Header(true, true)
      && b[2].kind.Item? && b[2].indent == 4 && b[3].kind.Other? && b[4].kind.Other?
  {
    hide *;
    ManagedLinesItem(hook);
    ManagedShape(hook);
    HooksShape(hook);
    BlockIs(hook);
  }

  lemma BlockIs(hook: Hook)
    ensures var m := ManagedLines(hook);
      ManagedBlock(hook) == [HooksLine(hook), PreLlmLine(hook), m[0], m[1], m[2]] && HooksLine(hook).text == HOOKS_TEXT
  {
    var m := ManagedLines(hook);
    assert m == [m[0], m[1], m[2]];
  }

  lemma NotInBlock(hook: Hook, line: Line)
    requires (line.kind == TopLevel(true) && line.text != HOOKS_TEXT) || (line.kind.Item? && line.indent != 4)
    ensures line !in ManagedBlock(hook)
  {
    hide *;
    BlockLines(hook);
  }

  // ----- an inline empty list -----

  /** An inline empty list in front of another event: the first install puts the managed event in its place, the
      second moves it to the end of the block. */
  lemma EmptyListMoves(hook: Hook, lines: seq<Line>)
    requires var r := Removed(hook, ParseDocument(lines));
      && r.Hooks? && IsBareKey(r.header, HOOKS_KEY)
      && var e := FindEvent(r.body);
      e.Event? && IsEmptyList(e.header) && AllBlank(e.list) && e.tail != [] && Free(e.tail, PreLlmHeader)
    ensures var r := Removed(hook, ParseDocument(lines));
      var e := FindEvent(r.body);
      var once := Merged(hook, lines);
      && once == Ok(r.before + [r.header] + (e.head + ManagedEvent(hook) + e.list + e.tail) + r.after)
      && Merged(hook, once.value) == Ok(r.before + [r.header] + (e.head + e.tail + ManagedEvent(hook)) + r.after)
      && Merged(hook, once.value) != once
  {
    hide Pruned;
    hide Unmanaged;
    hide Scan;
    hide IsBareKey;
    hide IsEmptyValue;
    hide IsEmptyList;
    hide FindEvent;
    hide ParseDocument;
    hide Removed;
    hide AllBlank;
    ParseOf(lines);
    var p := ParseDocument(lines);
    RemovedShape(hook, p);
    var r := Removed(hook, p);
    FindOf(r.body);
    var e := FindEvent(r.body);
    HeaderValues(hook, r.header);
    FrontPutFirst(hook, r, e);
    FrontGoesLast(hook, r, e);
  }

  lemma FrontPutFirst(hook: Hook, r: Document, e: Event)
    requires r.Hooks? && IsBareKey(r.header, HOOKS_KEY) && FindEvent(r.body) == e && e.Event? && IsEmptyList(e.header)
    ensures Inserted(hook, r) == Ok(r.(body := FrontBody(hook, e.head, e.list, e.tail)).Lines())
  {
    hide IsBareKey;
    hide IsEmptyValue;
    hide IsEmptyList;
    hide FindEvent;
    hide ManagedEvent;
    HeaderValues(hook, r.header);
  }

  lemma {:induction false} BlankTail(list: seq<Line>, indent: nat)
    requires AllBlank(list)
    ensures ItemTail(list, indent) == |list|
  {
    if list != [] {
      BlankTail(list[1..], indent);
    }
  }

  /** The managed event in front, as the first event of its block. */
  lemma FrontIsEvent(hook: Hook, head: seq<Line>, list: seq<Line>, tail: seq<Line>)
    requires FrontParts(head, list, tail)
    ensures Event(head, PreLlmLine(hook), ManagedLines(hook) + list, tail).Of(FrontBody(hook, head, list, tail))
  {
    hide Scan;
    hide Free;
    ManagedLinesItem(hook);
    FreeBoth(ManagedLines(hook), list, AnyHeader);
    assert FrontBody(hook, head, list, tail) == head + [PreLlmLine(hook)] + (ManagedLines(hook) + list) + tail;
  }

  lemma BlankIsIdle(hook: Hook)
    ensures Idle(PreLlmLine(hook), [])
  {
    hide Scan;
    ManagedLinesItem(hook);
  }

  /** Removal takes the managed event in front out again, with the blank lines under it. */
  lemma FrontRemoved(hook: Hook, d: Document, head: seq<Line>, list: seq<Line>, tail: seq<Line>)
    requires d.Hooks? && d.body == FrontBody(hook, head, list, tail) && FrontParts(head, list, tail)
    requires Pruned(head) == head && Pruned(tail) == tail && AllBlank(list) && tail != [] && StartsWithGoal(tail, AnyHeader)
    ensures Removed(hook, d) == d.(body := head + tail)
  {
    hide *;
    ManagedLinesItem(hook);
    SwallowsBlanks(ManagedLines(hook), list);
    FrontIsEvent(hook, head, list, tail);
    RemovedBlock(hook, d, head, PreLlmLine(hook), ManagedLines(hook) + list, tail);
    BlankIsIdle(hook);
    NotBlankTail(head, tail);
  }

  lemma SwallowsBlanks(m: seq<Line>, list: seq<Line>)
    requires ManagedItem(m) && AllBlank(list)
    ensures Unmanaged(m + list) == []
  {
    hide Unmanaged;
    hide ManagedItem;
    BlankTail(list, 4);
    ManagedInFront(m, list);
    NothingUnmanaged();
  }

  lemma FrontGoesLast(hook: Hook, r: Document, e: Event)
    requires r.Hooks? && r.Valid() && IsPruned(hook, r) && IsBareKey(r.header, HOOKS_KEY)
    requires FindEvent(r.body) == e && e.Event? && e.Of(r.body) && AllBlank(e.list) && e.tail != [] && Free(e.tail, PreLlmHeader)
    ensures var d := r.(body := FrontBody(hook, e.head, e.list, e.tail));
      && Merged(hook, d.Lines()) == Ok(r.before + [r.header] + (e.head + e.tail + ManagedEvent(hook)) + r.after)
      && Merged(hook, d.Lines()) != Ok(d.Lines())
  {
    hide Pruned;
    hide FindEvent;
    hide IsBareKey;
    hide AllBlank;
    hide ParseDocument;
    hide Removed;
    hide Inserted;
    hide FrontBody;
    hide ManagedEvent;
    var d := r.(body := FrontBody(hook, e.head, e.list, e.tail));
    BackValid(hook, r, e.head, e.header, e.list, e.tail);
    FrontValid(hook, r, e);
    ParseUnique(d);
    FrontRemoved(hook, d, e.head, e.list, e.tail);
    FreeBoth(e.head, e.tail, PreLlmHeader);
    AppendedEvent(hook, d.(body := e.head + e.tail));
    FrontMovedAway(hook, d, e.head, e.list, e.tail);
  }

  lemma NothingUnmanaged()
    ensures Unmanaged([]) == [] && AllBlank([])
  {
  }

  lemma NotBlankTail(head: seq<Line>, tail: seq<Line>)
    requires tail != [] && StartsWithGoal(tail, AnyHeader)
    ensures !AllBlank(head + tail)
  {
    assert (head + tail)[|head|] == tail[0];
  }

  lemma FrontValid(hook: Hook, r: Document, e: Event)
    requires r.Hooks? && r.Valid() && e.Event? && e.Of(r.body)
    ensures r.(body := FrontBody(hook, e.head, e.list, e.tail)).Valid()
  {
    hide ManagedEvent;
    hide Free;
    EventFree(hook);
    var event := ManagedEvent(hook);
    FreeBoth(e.head + [e.header] + e.list, e.tail, AnyTopLevel);
    FreeBoth(e.head + [e.header], e.list, AnyTopLevel);
    FreeBoth(e.head, [e.header], AnyTopLevel);
    FreeBoth(e.head, event, AnyTopLevel);
    FreeBoth(e.head + event, e.list, AnyTopLevel);
    FreeBoth(e.head + event + e.list, e.tail, AnyTopLevel);
  }

  lemma AppendedEvent(hook: Hook, r: Document)
    requires r.Hooks? && IsBareKey(r.header, HOOKS_KEY) && Free(r.body, PreLlmHeader)
    ensures Inserted(hook, r) == Ok(r.before + [r.header] + (r.body + ManagedEvent(hook)) + r.after)
  {
    hide IsBareKey;
    hide IsEmptyValue;
    hide FindEvent;
    hide ManagedEvent;
    HeaderValues(hook, r.header);
    FindUnique(r.body, NoEvent);
  }

  lemma FrontMovedAway(hook: Hook, d: Document, head: seq<Line>, list: seq<Line>, tail: seq<Line>)
    requires d.Hooks? && IsBareKey(d.header, HOOKS_KEY) && d.body == FrontBody(hook, head, list, tail)
    requires FrontParts(head, list, tail) && tail != [] && Free(tail, PreLlmHeader)
    ensures d.before + [d.header] + (head + tail + ManagedEvent(hook)) + d.after != d.Lines()
  {
    hide Scan;
    ManagedLinesItem(hook);
    var a, b := head + tail + ManagedEvent(hook), d.body;
    assert a[|head|] == tail[0] && b[|head|] == ManagedEvent(hook)[0];
    Cancel(d.before + [d.header], a, b, d.after);
  }

  const EMPTY_LIST_TEXT: string := "  " + (PRE_LLM_KEY + ": []")
  const OTHER_EVENT_TEXT: string := "  post: x"

  lemma EmptyListLine(hook: Hook)
    ensures var line := Scan(hook, EMPTY_LIST_TEXT);
      line.kind == Header(true, false) && IsEmptyList(line)
  {
    var text, value := EMPTY_LIST_TEXT, PRE_LLM_KEY + ": []";
    assert text[2] == PRE_LLM_KEY[0];
    IndentAfterSpaces(text, 2);
    NoComment(text);
    assert LStrip(text) == value;
    assert RStrip(value) == value;
    assert text[..|"  " + PRE_LLM_KEY + ":"|] == "  " + PRE_LLM_KEY + ":";
    ScanExact(hook, text);
    PreLlmIsHeader(text);
    assert value[|value| - 1] == ']';
  }

  lemma OtherEventLine(hook: Hook)
    ensures Scan(hook, OTHER_EVENT_TEXT).kind == Header(false, false)
  {
    var text := OTHER_EVENT_TEXT;
    OtherEventHeader();
    OtherEventValue();
    hide Indent;
    hide KeyLength;
    ScanExact(hook, text);
  }

  lemma OtherEventHeader()
    ensures IsHeader(OTHER_EVENT_TEXT) && !IsPreLlm(OTHER_EVENT_TEXT)
  {
    var text := OTHER_EVENT_TEXT;
    assert text[2..] == "post" + ": x";
    KeyIs("post", ": x");
    assert text[3] == 'o' && PRE_LLM_TEXT[3] == 'r';
  }

  lemma OtherEventValue()
    ensures !EndsWith(WithoutComment(OTHER_EVENT_TEXT), ":")
  {
    var value := "post: x";
    assert "  " + value == OTHER_EVENT_TEXT && value[0] == 'p' && value[6] == 'x';
    hide *;
    NotSpaces();
    IndentedValue(value);
    NotAtEnd(value, 'x');
  }

  lemma NotSpaces()
    ensures !IsSpace('p') && !IsSpace('x')
  {
  }

  lemma NotAtEnd(value: string, last: char)
    requires value != "" && value[|value| - 1] == last != ':'
    ensures !EndsWith(value, ":")
  {
  }

  /** The value of a line indented by two, when it holds no comment. */
  lemma IndentedValue(value: string)
    requires '#' !in value && value != "" && !IsSpace(value[0]) && !IsSpace(value[|value| - 1])
    ensures WithoutComment("  " + value) == value
  {
    hide Indent;
    hide Before;
    NoComment("  " + value);
    IndentAfterSpaces("  " + value, 2);
    assert ("  " + value)[2..] == value;
  }

  /** A block with an inline empty list and one other event: the second install swaps the two events. */
  lemma EmptyListSwaps(hook: Hook)
    ensures var other := Scan(hook, OTHER_EVENT_TEXT);
      var lines := [HooksLine(hook), Scan(hook, EMPTY_LIST_TEXT), other];
      && Merged(hook, lines) == Ok([HooksLine(hook)] + ManagedEvent(hook) + [other])
      && Merged(hook, Merged(hook, lines).value) == Ok([HooksLine(hook), other] + ManagedEvent(hook))
  {
    hide *;
    EmptyListLine(hook);
    OtherEventLine(hook);
    HooksShape(hook);
    HeaderValues(hook, HooksLine(hook));
    var h, other := Scan(hook, EMPTY_LIST_TEXT), Scan(hook, OTHER_EVENT_TEXT);
    var d := Hooks([], HooksLine(hook), [h, other], []);
    TwoEvents(d, h, other);
    TwoEventsStay(hook, d, h, other);
    SwapsTo(hook, [HooksLine(hook), h, other], d, Event([], h, [], [other]));
  }

  /** How a block with an inline empty list and one other event is divided. */
  lemma TwoEvents(d: Document, h: Line, other: Line)
    requires d.Hooks? && d.before == d.after == [] && d.header.kind == TopLevel(true) && d.body == [h, other]
    requires h.kind == Header(true, false) && other.kind == Header(false, false)
    ensures ParseDocument([d.header, h, other]) == d && FindEvent(d.body) == Event([], h, [], [other])
    ensures Free([other], PreLlmHeader)
  {
    assert d.Lines() == [d.header, h, other];
    ParseUnique(d);
    assert [] + [h] + [] + [other] == [h, other];
    FindUnique(d.body, Event([], h, [], [other]));
  }

  lemma SwapsTo(hook: Hook, lines: seq<Line>, d: Document, e: Event)
    requires ParseDocument(lines) == d && d.Hooks? && Removed(hook, d) == d && d.before == d.after == []
    requires FindEvent(d.body) == e && e.Event? && e.head == e.list == [] && |e.tail| == 1
    requires IsBareKey(d.header, HOOKS_KEY) && IsEmptyList(e.header) && Free(e.tail, PreLlmHeader)
    ensures Merged(hook, lines) == Ok([d.header] + ManagedEvent(hook) + e.tail)
    ensures Merged(hook, Merged(hook, lines).value) == Ok([d.header, e.tail[0]] + ManagedEvent(hook))
  {
    hide *;
    NothingBlank(e.list);
    EmptyListMoves(hook, lines);
    var event := ManagedEvent(hook);
    assert d.before + [d.header] + (e.head + event + e.list + e.tail) + d.after == [d.header] + event + e.tail;
    assert d.before + [d.header] + (e.head + e.tail + event) + d.after == [d.header, e.tail[0]] + event;
  }

  lemma NothingBlank(list: seq<Line>)
    requires list == []
    ensures AllBlank(list)
  {
  }

  lemma TwoEventsStay(hook: Hook, d: Document, h: Line, other: Line)
    requires d.Hooks? && d.body == [h, other] && FindEvent(d.body) == Event([], h, [], [other])
    requires h.kind.Header? && other.kind.Header? && !h.kind.open && !other.kind.open
    ensures Removed(hook, d) == d
  {
    hide FindEvent;
    assert [] + [h] + [] + [other] == [h, other];
    PrunedEvent(h, [], [other]);
    PrunedEvent(other, [], []);
    assert [h] + [] + [other] == [h, other] && [other] + [] + [] == [other];
    assert Pruned([]) == [];
    assert !AllBlank([h, other]);
  }

  // ----- a list item indented by less than four -----

  lemma ItemAt2(hook: Hook)
    requires !hook.isCommand("  - x")
    ensures Scan(hook, "  - x") == Line("  - x", Item, 2, false)
  {
    var text := "  - x";
    IndentAfterSpaces(text, 2);
    assert text[2..][0] == '-';
    assert LStrip(text)[0] == '-' && MARKER_KEY[0] == 'a';
    assert IsItem(text);
  }

  /** A list item indented by two takes the managed item in: the second install deletes the two together, and nothing
      of the user's is left. */
  lemma ShallowItemIsLost(hook: Hook)
    requires !hook.isCommand("  - x")
    ensures var lines := [HooksLine(hook), PreLlmLine(hook), Scan(hook, "  - x")];
      && Merged(hook, lines) == Ok(lines + ManagedLines(hook))
      && Merged(hook, lines + ManagedLines(hook)) == Ok(ManagedBlock(hook))
      && Scan(hook, "  - x") !in ManagedBlock(hook)
  {
    ItemAt2(hook);
    ManagedLinesItem(hook);
    HooksShape(hook);
    PreLlmShape(hook);
    HeaderValues(hook, HooksLine(hook));
    HeaderValues(hook, PreLlmLine(hook));
    var item := Scan(hook, "  - x");
    NotInBlock(hook, item);
    hide Scan;
    ShallowOnce(hook, item);
    ShallowTwice(hook, item);
  }

  predicate Plainly(hook: Hook, item: Line) {
    && item.kind.Item? && item.indent == 2 && !item.managed
    && HooksLine(hook).kind == TopLevel(true) && PreLlmLine(hook).kind == Header(true, true)
    && IsBareKey(HooksLine(hook), HOOKS_KEY) && IsBareKey(PreLlmLine(hook), PRE_LLM_KEY)
  }

  lemma LoneItem(item: Line)
    requires item.kind.Item? && !item.managed
    ensures Unmanaged([item]) == [item] && !AllBlank([item])
  {
    var list := [item];
    assert list[..1] == list && list[1..] == [];
    assert !Managed(list);
    UnmanagedItem(list, []);
    assert list + [] == list && Unmanaged([]) == [];
  }

  lemma ShallowOnce(hook: Hook, item: Line)
    requires Plainly(hook, item)
    ensures Merged(hook, [HooksLine(hook), PreLlmLine(hook), item]) ==
      Ok([HooksLine(hook), PreLlmLine(hook), item] + ManagedLines(hook))
  {
    ItemIsPlain(hook, item);
    PlainKeys(hook);
    hide *;
    var h, pre, m := HooksLine(hook), PreLlmLine(hook), ManagedLines(hook);
    LoneItem(item);
    ListGrows(hook, h, pre, [item], [item]);
    ThreeLines(h, pre, item, m);
  }

  lemma ThreeLines(h: Line, pre: Line, item: Line, m: seq<Line>)
    ensures [h] + ([pre] + [item]) == [h, pre, item]
    ensures [h] + ([pre] + [item] + m) == [h, pre, item] + m == [h] + ([pre] + ([item] + m))
  {
  }

  lemma PlainKeys(hook: Hook)
    ensures IsBareKey(HooksLine(hook), HOOKS_KEY) && IsBareKey(PreLlmLine(hook), PRE_LLM_KEY)
  {
    HeaderValues(hook, HooksLine(hook));
  }

  /** A block with one event: the managed item goes behind what removal leaves of the list. */
  lemma ListGrows(hook: Hook, h: Line, pre: Line, list: seq<Line>, kept: seq<Line>)
    requires h.kind == TopLevel(true) && pre.kind == Header(true, true) && Free(list, AnyHeader) && Free(list, AnyTopLevel)
    requires IsBareKey(h, HOOKS_KEY) && IsBareKey(pre, PRE_LLM_KEY) && Unmanaged(list) == kept && !AllBlank(kept)
    requires Free(kept, AnyHeader)
    ensures Merged(hook, [h] + ([pre] + list)) == Ok([h] + ([pre] + kept + ManagedLines(hook)))
  {
    hide *;
    var d := Hooks([], h, [pre] + list, []);
    ItemBlock(d, pre, list);
    NothingPruned();
    RemovedBlock(hook, d, [], pre, list, []);
    NotIdle(pre, kept);
    KeptEvent(hook, d, pre, kept);
    MergedIs(hook, [h] + ([pre] + list), d, d.(body := [pre] + kept));
  }

  lemma KeptEvent(hook: Hook, d: Document, pre: Line, kept: seq<Line>)
    requires d.Hooks? && d.before == d.after == [] && IsBareKey(d.header, HOOKS_KEY) && IsBareKey(pre, PRE_LLM_KEY)
    requires pre.kind == Header(true, true) && Free(kept, AnyHeader)
    ensures [] + [pre] + kept + [] == [pre] + kept
    ensures Inserted(hook, d.(body := [pre] + kept)) == Ok([d.header] + ([pre] + kept + ManagedLines(hook)))
  {
    var r := d.(body := [pre] + kept);
    assert [] + [pre] + kept + [] == r.body;
    FindUnique(r.body, Event([], pre, kept, []));
    hide *;
    AddedLast(hook, r, pre, kept);
  }

  lemma MergedIs(hook: Hook, lines: seq<Line>, d: Document, r: Document)
    requires ParseDocument(lines) == d && Removed(hook, d) == r
    ensures Merged(hook, lines) == Inserted(hook, r)
  {
  }

  lemma ItemIsPlain(hook: Hook, item: Line)
    requires Plainly(hook, item)
    ensures item.kind.Item? && !item.managed && HooksLine(hook).kind == TopLevel(true) && PreLlmLine(hook).kind == Header(true, true)
    ensures Free([item], AnyHeader) && Free([item], AnyTopLevel)
  {
    hide Scan;
  }

  lemma NotIdle(pre: Line, list: seq<Line>)
    requires !AllBlank(list)
    ensures !Idle(pre, list)
  {
    hide AllBlank;
  }

  /** The managed item goes behind the list of the one event of a block. */
  lemma AddedLast(hook: Hook, d: Document, pre: Line, list: seq<Line>)
    requires d.Hooks? && d.before == d.after == [] && IsBareKey(d.header, HOOKS_KEY) && IsBareKey(pre, PRE_LLM_KEY)
    requires FindEvent(d.body) == Event([], pre, list, [])
    ensures Inserted(hook, d) == Ok([d.header] + ([pre] + list + ManagedLines(hook)))
  {
    hide IsBareKey;
    hide IsEmptyValue;
    hide IsEmptyList;
    hide FindEvent;
    hide ManagedLines;
    HeaderValues(hook, d.header);
    HeaderValues(hook, pre);
    assert [] + [pre] + list + ManagedLines(hook) + [] == [pre] + list + ManagedLines(hook);
    assert [] + [d.header] + ([pre] + list + ManagedLines(hook)) + [] == [d.header] + ([pre] + list + ManagedLines(hook));
  }

  /** How a block with one event and its list is divided. */
  lemma ItemBlock(d: Document, pre: Line, list: seq<Line>)
    requires d.Hooks? && d.before == d.after == [] && d.header.kind == TopLevel(true) && d.body == [pre] + list
    requires pre.kind == Header(true, true) && Free(list, AnyHeader) && Free(list, AnyTopLevel)
    ensures ParseDocument([d.header] + d.body) == d && FindEvent(d.body) == Event([], pre, list, [])
    ensures Event([], pre, list, []).Of(d.body)
  {
    ItemBlockIsValid(d, pre, list);
    assert [] + [pre] + list + [] == d.body;
    assert [] + [d.header] + d.body + [] == [d.header] + d.body;
    hide *;
    ParseUnique(d);
    FindUnique(d.body, Event([], pre, list, []));
  }

  lemma ItemBlockIsValid(d: Document, pre: Line, list: seq<Line>)
    requires d.Hooks? && d.before == d.after == [] && d.header.kind == TopLevel(true) && d.body == [pre] + list
    requires pre.kind.Header? && Free(list, AnyTopLevel)
    ensures d.Valid()
  {
  }

  lemma NothingPruned()
    ensures Pruned([]) == []
  {
  }

  /** The item at indent two reaches over the managed lines and goes with them. */
  lemma Swallowed(item: Line, m: seq<Line>)
    requires item.kind.Item? && item.indent == 2 && ManagedItem(m)
    ensures Unmanaged([item] + m) == []
  {
    hide Unmanaged;
    ItemTailAll(m, 2);
    assert ([item] + m)[1..] == m;
    ManagedWider(m, [item], []);
    assert [item] + m + [] == [item] + m;
    UnmanagedItem([item] + m, []);
    NothingUnmanaged();
  }

  lemma ShallowTwice(hook: Hook, item: Line)
    requires Plainly(hook, item)
    ensures Merged(hook, [HooksLine(hook), PreLlmLine(hook), item] + ManagedLines(hook)) == Ok(ManagedBlock(hook))
  {
    ItemIsPlain(hook, item);
    ItemAtTwo(hook, item);
    hide *;
    var h, pre, m := HooksLine(hook), PreLlmLine(hook), ManagedLines(hook);
    ManagedLinesItem(hook);
    FreeBoth([item], m, AnyHeader);
    FreeBoth([item], m, AnyTopLevel);
    Swallowed(item, m);
    ListGoes(hook, h, pre, [item] + m);
    ThreeLines(h, pre, item, m);
  }

  /** A block with one event and nothing but managed items in its list goes as a whole, and the managed block is put
      in its place. */
  lemma ListGoes(hook: Hook, h: Line, pre: Line, list: seq<Line>)
    requires h.kind == TopLevel(true) && pre.kind == Header(true, true) && Free(list, AnyHeader) && Free(list, AnyTopLevel)
    requires Unmanaged(list) == []
    ensures Merged(hook, [h] + ([pre] + list)) == Ok(ManagedBlock(hook))
  {
    hide *;
    var d := Hooks([], h, [pre] + list, []);
    ItemBlock(d, pre, list);
    NothingPruned();
    RemovedBlock(hook, d, [], pre, list, []);
    EmptiedBlock(hook, d, pre);
    MergedIntoEmpty(hook, [h] + ([pre] + list), d);
  }

  lemma ItemAtTwo(hook: Hook, item: Line)
    requires Plainly(hook, item)
    ensures item.indent == 2
  {
  }

  lemma EmptiedBlock(hook: Hook, d: Document, pre: Line)
    requires pre.kind.Header? && pre.kind.open
    ensures Idle(pre, []) && AllBlank([] + [])
  {
  }

  lemma EmptyInserted(hook: Hook, d: Document)
    requires d.Hooks?
    ensures Inserted(hook, d.(header := NoHooksLine(hook), body := [])) == Ok(d.before + ManagedBlock(hook) + d.after)
  {
    hide IsEmptyValue;
    hide ManagedBlock;
    HeaderValues(hook, d.header);
    assert d.before + ManagedBlock(hook) + [] + d.after == d.before + ManagedBlock(hook) + d.after;
  }

  lemma MergedIntoEmpty(hook: Hook, lines: seq<Line>, d: Document)
    requires d.Hooks? && d.before == d.after == []
    requires ParseDocument(lines) == d && Removed(hook, d) == d.(header := NoHooksLine(hook), body := [])
    ensures Merged(hook, lines) == Ok(ManagedBlock(hook))
  {
    EmptyInserted(hook, d);
    hide *;
    MergedIs(hook, lines, d, Removed(hook, d));
    assert [] + ManagedBlock(hook) + [] == ManagedBlock(hook);
  }

  // ----- two `pre_llm_call` keys -----

  /** A block with the managed event twice: the first removal takes the first of them, the second the other. */
  lemma SecondEventReappears(hook: Hook, d: Document)
    requires d.Hooks? && d.Valid() && d.body == ManagedEvent(hook) + ManagedEvent(hook)
    ensures Removed(hook, d) == d.(body := ManagedEvent(hook))
    ensures Removed(hook, Removed(hook, d)) == d.(header := NoHooksLine(hook), body := [])
    ensures !OneRemovalSuffices(d.body)
  {
    hide Scan;
    hide Unmanaged;
    hide Pruned;
    hide FindEvent;
    var pre, m := PreLlmLine(hook), ManagedLines(hook);
    var event := ManagedEvent(hook);
    ManagedLinesItem(hook);
    LoneManaged(m);
    EventIsNotIdle(pre, m);
    NothingPruned();
    assert event == [pre] + m && d.body == [] + [pre] + m + event && event == [] + [pre] + m + [];
    FindUnique(d.body, Event([], pre, m, event));
    FindUnique(event, Event([], pre, m, []));
    NotBlank([], pre, m);
    assert [] + event == event;
    RemovedBlock(hook, d, [], pre, m, event);
    var r := d.(body := event);
    assert AllBlank([] + []);
    RemovedBlock(hook, r, [], pre, m, []);
  }

  /** The file that consists of such a block. */
  lemma TwoManagedEvents(hook: Hook)
    ensures var d := ParseDocument(ManagedBlock(hook) + ManagedEvent(hook));
      && Removed(hook, d).Lines() == ManagedBlock(hook)
      && Removed(hook, Removed(hook, d)).Lines() == [NoHooksLine(hook)]
  {
    hide *;
    var d := Hooks([], HooksLine(hook), ManagedEvent(hook) + ManagedEvent(hook), []);
    TwiceIsValid(hook);
    ParseUnique(d);
    SecondEventReappears(hook, d);
    BlockLinesOf(HooksLine(hook), ManagedEvent(hook));
    BlockLinesOf(NoHooksLine(hook), []);
    BlockIsEvent(hook);
  }

  lemma TwiceIsValid(hook: Hook)
    ensures var d := Hooks([], HooksLine(hook), ManagedEvent(hook) + ManagedEvent(hook), []);
      d.Valid() && d.Lines() == ManagedBlock(hook) + ManagedEvent(hook)
  {
    hide Scan;
    hide ManagedEvent;
    HooksShape(hook);
    EventFree(hook);
    FreeBoth(ManagedEvent(hook), ManagedEvent(hook), AnyTopLevel);
    BlockLinesOf(HooksLine(hook), ManagedEvent(hook) + ManagedEvent(hook));
  }

  lemma BlockLinesOf(header: Line, body: seq<Line>)
    ensures Hooks([], header, body, []).Lines() == [header] + body
  {
  }

  lemma BlockIsEvent(hook: Hook)
    ensures ManagedBlock(hook) == [HooksLine(hook)] + ManagedEvent(hook) && [NoHooksLine(hook)] + [] == [NoHooksLine(hook)]
  {
  }

  lemma LoneManaged(m: seq<Line>)
    requires ManagedItem(m)
    ensures Unmanaged(m) == [] && m != []
  {
    ManagedInFront(m, []);
    assert m + [] == m;
  }

  lemma EventIsNotIdle(pre: Line, m: seq<Line>)
    requires Found(pre, AnyHeader) && ManagedItem(m) && Free(m, AnyHeader)
    ensures Pruned([pre] + m) == [pre] + m && !Idle(pre, m)
  {
    assert !AllBlank(m);
    PrunedEvent(pre, m, []);
    assert [pre] + m + [] == [pre] + m && Pruned([]) == [];
  }
}
