/** Installing the hook in a file that has no `hooks:` block yet, or an empty one, whatever the hook command is. */
module HermesFresh {
  import opened Text
  import opened HermesLines
  import opened HermesConfig
  import opened HermesShape
  import opened HermesLaws
  import opened HermesRemoval
  import opened HermesTexts
  import opened HermesLosses
  import opened HermesCommands

  /** The managed item as it is read back: a command that holds line separators takes several lines. */
  function Written(hook: Hook): seq<Line> {
    ScanAll(hook, SplitLines(ToText(ManagedLines(hook))))
  }

  /** The lines are one list, and removal takes all of them out. */
  predicate Clean(lines: seq<Line>) {
    Free(lines, AnyTopLevel) && Free(lines, AnyHeader) && AllBlank(Unmanaged(lines))
  }

  /** No `hooks:` key, or an empty value with nothing under it. */
  predicate FreshFile(d: Document) {
    d.Plain? || (IsEmptyValue(d.header, HOOKS_KEY) && d.body == [])
  }

  // ----- reading back what was written -----

  /** A text that is empty or ends with a line feed. */
  predicate Ended(text: string) {
    text == "" || text[|text| - 1] == '\n'
  }

  lemma {:induction false} SplitEnded(text: string, rest: string)
    requires Ended(text)
    ensures SplitLines(text + rest) == SplitLines(text) + SplitLines(rest)
    decreases |text|
  {
    hide SplitLines;
    if text == "" {
      NoText();
      assert text + rest == rest;
    } else {
      var n := LineLength(text);
      SameLength(text, rest);
      var next := NextLine(text, n);
      assert (text + rest)[..n] == text[..n] && (text + rest)[next..] == text[next..] + rest;
      OneSplit(text);
      OneSplit(text + rest);
      SplitEnded(text[next..], rest);
    }
  }

  lemma NoText()
    ensures SplitLines("") == []
  {
  }

  /** Where the line after the break at `n` starts. */
  function NextLine(text: string, n: nat): (next: nat)
    requires n < |text|
    ensures n < next <= |text|
  {
    if text[n] == '\r' && n + 1 < |text| && text[n + 1] == '\n' then n + 2 else n + 1
  }

  lemma OneSplit(text: string)
    requires LineLength(text) < |text|
    ensures var n := LineLength(text); SplitLines(text) == [text[..n]] + SplitLines(text[NextLine(text, n)..])
  {
  }

  lemma SameLength(text: string, rest: string)
    requires text != "" && Ended(text)
    ensures var n := LineLength(text);
      n < |text| && LineLength(text + rest) == n && NextLine(text + rest, n) == NextLine(text, n)
      && (NextLine(text, n) < |text| ==> text[NextLine(text, n)..][|text| - 1 - NextLine(text, n)] == '\n')
  {
    var n, k := LineLength(text), LineLength(text + rest);
    NoBreakBelow(text, n);
    NoBreakBelow(text + rest, k);
    assert IsBreak(text[|text| - 1]);
    BreakAt(text, text + rest, n, k);
  }

  lemma NoBreakBelow(s: string, n: nat)
    requires n <= |s| && !HasBreak(s[..n])
    ensures forall i :: 0 <= i < n ==> !IsBreak(s[i])
  {
    assert forall i :: 0 <= i < n ==> s[..n][i] == s[i];
  }

  lemma BreakAt(text: string, longer: string, n: nat, k: nat)
    requires text <= longer && n < |text| && IsBreak(text[n]) && forall i :: 0 <= i < n ==> !IsBreak(text[i])
    requires k <= |longer| && (forall i :: 0 <= i < k ==> !IsBreak(longer[i])) && (k < |longer| ==> IsBreak(longer[k]))
    ensures k == n
  {
    assert longer[n] == text[n];
    assert forall i :: 0 <= i < n ==> longer[i] == text[i];
  }

  function TextOf(lines: seq<Line>): string {
    if lines == [] then "" else ToText(lines)
  }

  lemma TextConcat(a: seq<Line>, b: seq<Line>)
    requires a != []
    ensures ToText(a + b) == ToText(a) + TextOf(b)
  {
    if b == [] {
      assert a + b == a;
    } else {
      JoinConcat(Texts(a), Texts(b));
      assert Texts(a + b) == Texts(a) + Texts(b);
    }
  }

  lemma TextOfEnds(lines: seq<Line>)
    ensures Ended(TextOf(lines)) && (lines != [] ==> Ended(ToText(lines)))
  {
  }

  lemma ScanConcat(hook: Hook, a: seq<string>, b: seq<string>)
    ensures ScanAll(hook, a + b) == ScanAll(hook, a) + ScanAll(hook, b)
  {
    hide Scan;
  }

  /** Lines that were read from a text are read again from what they are written as. */
  lemma ReadAgain(hook: Hook, lines: seq<Line>)
    requires FromText(hook, lines)
    ensures ScanAll(hook, SplitLines(TextOf(lines))) == lines
  {
    if lines != [] {
      WriteRead(hook, lines);
    } else {
      assert SplitLines("") == [];
    }
  }

  lemma ReadBackParts(hook: Hook, a: seq<Line>, m: seq<Line>, b: seq<Line>)
    requires a != [] && m != [] && FromText(hook, a) && FromText(hook, b)
    ensures ScanAll(hook, SplitLines(ToText(a + m + b))) == a + ScanAll(hook, SplitLines(ToText(m))) + b
  {
    hide *;
    NonEmpty(a, m);
    TextConcat(a + m, b);
    TextConcat(a, m);
    TextOfIs(a);
    TextOfIs(m);
    TextOfIs(a + m);
    TextOfEnds(a);
    TextOfEnds(m);
    TextOfEnds(a + m);
    SplitEnded(ToText(a + m), TextOf(b));
    SplitEnded(ToText(a), ToText(m));
    ScanConcat(hook, SplitLines(ToText(a + m)), SplitLines(TextOf(b)));
    ScanConcat(hook, SplitLines(ToText(a)), SplitLines(ToText(m)));
    ReadAgain(hook, a);
    ReadAgain(hook, b);
  }

  lemma NonEmpty(a: seq<Line>, b: seq<Line>)
    ensures a != [] ==> a + b != []
  {
  }

  lemma TextOfIs(lines: seq<Line>)
    requires lines != []
    ensures TextOf(lines) == ToText(lines)
  {
  }

  /** The last line read back is the marker. */
  lemma WrittenEnds(hook: Hook)
    ensures var w := Written(hook);
      w != [] && w[|w| - 1] == Scan(hook, MARKER_TEXT) && FromText(hook, w)
  {
    var m := ManagedLines(hook);
    assert m == m[..2] + [m[2]] && m[2] == Scan(hook, MARKER_TEXT);
    MarkerFromText(hook);
    SplitFromText(hook, ToText(m));
    hide *;
    TextConcat(m[..2], [m[2]]);
    TextOfEnds(m[..2]);
    SplitEnded(ToText(m[..2]), TextOf([m[2]]));
    ScanConcat(hook, SplitLines(ToText(m[..2])), SplitLines(TextOf([m[2]])));
    ReadAgain(hook, [m[2]]);
    WrittenIs(hook);
  }

  lemma WrittenIs(hook: Hook)
    ensures Written(hook) == ScanAll(hook, SplitLines(ToText(ManagedLines(hook))))
  {
  }

  lemma MarkerFromText(hook: Hook)
    ensures FromText(hook, [Scan(hook, MARKER_TEXT)])
  {
    hide HasBreak;
    hide IsMarker;
    MarkerOneLine();
  }

  // ----- what a second install makes of the lines -----

  /** A last line that is no header and not blank outlives pruning. */
  lemma {:induction false} LastStays(body: seq<Line>)
    requires body != [] && body[|body| - 1].kind.Other?
    ensures body[|body| - 1] in Pruned(body)
    decreases |body|
  {
    var last := body[|body| - 1];
    var rest := body[1..];
    if rest != [] {
      assert rest[|rest| - 1] == last;
    }
    if !Found(body[0], AnyHeader) {
      if rest != [] {
        LastStays(rest);
      }
    } else {
      var n := CountUntil(rest, AnyHeader);
      if n == |rest| {
        assert rest[..n][|rest| - 1] == last;
      } else {
        LastStays(rest[n..]);
      }
    }
  }

  /** The lines up to the first one sought, and the others. */
  lemma Cut(lines: seq<Line>, goal: Goal) returns (a: seq<Line>, b: seq<Line>)
    ensures lines == a + b && Free(a, goal) && StartsWithGoal(b, goal)
  {
    CountShape(lines, goal);
    var n := CountUntil(lines, goal);
    a, b := lines[..n], lines[n..];
  }

  lemma FreePart(a: seq<Line>, b: seq<Line>, goal: Goal)
    requires Free(a + b, goal)
    ensures Free(a, goal) && Free(b, goal)
  {
    FreeBoth(a, b, goal);
  }

  /** The block that the first install wrote, as read back: its own lines `w` fall into the list `a`, further events `b`
      and top-level keys `c`. */
  datatype Fresh = Fresh(before: seq<Line>, a: seq<Line>, b: seq<Line>, c: seq<Line>, after: seq<Line>)
  {
    function Lines(hook: Hook): seq<Line> {
      before + [HooksLine(hook)] + ([PreLlmLine(hook)] + a + b) + (c + after)
    }

    predicate Valid() {
      && Free(before, HooksKey) && StartsWithGoal(after, AnyTopLevel)
      && Free(a, AnyHeader) && Free(a, AnyTopLevel) && StartsWithGoal(b, AnyHeader) && Free(b, AnyTopLevel)
      && StartsWithGoal(c, AnyTopLevel)
    }

    function Block(hook: Hook): Document {
      Hooks(before, HooksLine(hook), [PreLlmLine(hook)] + a + b, c + after)
    }
  }

  lemma FreshDivides(hook: Hook, f: Fresh)
    requires f.Valid()
    ensures ParseDocument(f.Lines(hook)) == f.Block(hook)
    ensures Event([], PreLlmLine(hook), f.a, f.b).Of(f.Block(hook).body)
  {
    FreshEvent(hook, f);
    HooksShape(hook);
    assert Found(HooksLine(hook), HooksKey);
    FreshBody(hook, f);
    FreshValid(hook, f);
    hide *;
    ParseUnique(f.Block(hook));
  }

  lemma FreshEvent(hook: Hook, f: Fresh)
    requires f.Valid()
    ensures Event([], PreLlmLine(hook), f.a, f.b).Of(f.Block(hook).body)
  {
    PreLlmShape(hook);
    hide Scan;
    assert [PreLlmLine(hook)] + f.a + f.b == [] + [PreLlmLine(hook)] + f.a + f.b;
  }

  lemma FreshBody(hook: Hook, f: Fresh)
    requires f.Valid()
    ensures Free([PreLlmLine(hook)] + f.a + f.b, AnyTopLevel)
  {
    PreLlmShape(hook);
    hide Scan;
    hide Free;
    var pre := [PreLlmLine(hook)];
    LoneHeader(PreLlmLine(hook));
    FreeBoth(pre, f.a, AnyTopLevel);
    FreeBoth(pre + f.a, f.b, AnyTopLevel);
  }

  lemma LoneHeader(line: Line)
    requires line.kind.Header?
    ensures Free([line], AnyTopLevel)
  {
  }

  lemma FreshValid(hook: Hook, f: Fresh)
    requires f.Valid() && Found(HooksLine(hook), HooksKey) && Free([PreLlmLine(hook)] + f.a + f.b, AnyTopLevel)
    ensures f.Block(hook).Valid() && f.Block(hook).Lines() == f.Lines(hook)
  {
    hide Scan;
    hide Free;
  }

  /** What removal leaves of the body. */
  function Left(hook: Hook, f: Fresh): seq<Line> {
    (if Idle(PreLlmLine(hook), Unmanaged(f.a)) then [] else [PreLlmLine(hook)] + Unmanaged(f.a)) + Pruned(f.b)
  }

  lemma LeftIs(hook: Hook, f: Fresh)
    requires f.Valid()
    ensures Pruned(CleanBody(f.Block(hook).body)) == Left(hook, f)
  {
    FreshDivides(hook, f);
    FreshParts(f);
    hide *;
    EventIs(f.Block(hook).body, [], PreLlmLine(hook), f.a, f.b);
    KeptIsFree(f.a);
    PrunedSplit([], PreLlmLine(hook), Unmanaged(f.a), f.b);
    NothingPruned();
    LeftUnfolds(hook, f);
  }

  lemma FreshParts(f: Fresh)
    requires f.Valid()
    ensures Free(f.a, AnyHeader) && StartsWithGoal(f.b, AnyHeader)
  {
  }

  lemma LeftUnfolds(hook: Hook, f: Fresh)
    ensures [] + (if Idle(PreLlmLine(hook), Unmanaged(f.a)) then [] else [PreLlmLine(hook)] + Unmanaged(f.a)) + Pruned(f.b)
      == Left(hook, f)
  {
    hide Idle;
    hide Unmanaged;
    hide Pruned;
    hide Scan;
  }

  /** Unless the lines are clean, a line that is neither blank nor a header is left, in the block or behind it. */
  lemma SomethingLeft(hook: Hook, f: Fresh)
    requires f.Valid() && f.a + f.b + f.c != []
    requires var w := f.a + f.b + f.c; w[|w| - 1].kind.Other? && !Clean(w)
    ensures f.c != [] || exists x :: x in Left(hook, f) && !x.kind.Header? && !x.kind.Empty?
  {
    if f.c == [] {
      assert f.a + f.b + f.c == f.a + f.b;
      if f.b != [] {
        assert (f.a + f.b)[|f.a + f.b| - 1] == f.b[|f.b| - 1];
        hide Pruned;
        LastStays(f.b);
        assert f.b[|f.b| - 1] in Left(hook, f);
      } else {
        assert f.a + f.b == f.a;
        ListLeft(hook, f);
      }
    }
  }

  lemma ListLeft(hook: Hook, f: Fresh)
    requires Free(f.a, AnyHeader) && Free(f.a, AnyTopLevel) && !Clean(f.a)
    ensures exists x :: x in Left(hook, f) && !x.kind.Header? && !x.kind.Empty?
  {
    hide Unmanaged;
    hide Pruned;
    hide Scan;
    KeptIsFree(f.a);
    var kept := Unmanaged(f.a);
    var i :| 0 <= i < |kept| && !kept[i].kind.Empty?;
    assert !Found(kept[i], AnyHeader);
    assert kept[i] in Left(hook, f);
  }

  // ----- the sizes -----

  lemma SizeThree(a: seq<Line>, b: seq<Line>, c: seq<Line>)
    ensures Size(a + b + c) == Size(a) + Size(b) + Size(c)
  {
    SizeConcat(a + b, c);
    SizeConcat(a, b);
  }

  lemma SizeFour(a: seq<Line>, b: seq<Line>, c: seq<Line>, d: seq<Line>)
    ensures Size(a + b + c + d) == Size(a) + Size(b) + Size(c) + Size(d)
  {
    SizeConcat(a + b + c, d);
    SizeThree(a, b, c);
  }

  lemma SizePositive(a: seq<Line>)
    ensures Size(a) > 0 <==> a != []
  {
  }

  /** Inserting adds the managed event, or the managed item under a header no shorter than the event's own. */
  lemma InsertedSize(hook: Hook, body: seq<Line>)
    requires FromText(hook, body) && InsertedBody(hook, body).Ok?
    ensures var b := InsertedBody(hook, body).value;
      && Size(b) >= Size(ManagedEvent(hook))
      && ((exists x :: x in body && !x.kind.Header?) ==> Size(b) > Size(ManagedEvent(hook)))
  {
    hide Scan;
    hide IsEmptyList;
    hide IsBareKey;
    hide FindEvent;
    hide Size;
    hide ManagedLines;
    hide PreLlmLine;
    hide FromText;
    FindOf(body);
    var m := ManagedLines(hook);
    SizeConcat([PreLlmLine(hook)], m);
    match FindEvent(body)
    case NoEvent =>
      SizeConcat(body, ManagedEvent(hook));
      SizePositive(body);
    case Event(head, header, list, tail) =>
      SizeFour(head, ManagedEvent(hook), list, tail);
      SizeFour(head, [header], list, m);
      SizeConcat(head + [header] + list + m, tail);
      HeaderSize(hook, body, head, header, list, tail);
      SizePositive(head);
      SizePositive(list);
      SizePositive(tail);
  }

  lemma HeaderSize(hook: Hook, body: seq<Line>, head: seq<Line>, header: Line, list: seq<Line>, tail: seq<Line>)
    requires FromText(hook, body) && Event(head, header, list, tail).Of(body)
    ensures Size([header]) >= Size([PreLlmLine(hook)]) > 0
    ensures (exists x :: x in body && !x.kind.Header?) ==> head != [] || list != [] || tail != []
  {
    assert header in body;
    ScanExact(hook, header.text);
    hide Scan;
    PreLlmTextIs(hook);
    assert [header][1..] == [] && [PreLlmLine(hook)][1..] == [];
    assert header.kind.Header?;
    assert head == [] && list == [] && tail == [] ==> body == [header];
  }

  lemma PreLlmTextIs(hook: Hook)
    ensures PreLlmLine(hook).text == PRE_LLM_TEXT
  {
  }

  lemma LeftFromText(hook: Hook, f: Fresh)
    requires FromText(hook, f.Lines(hook)) && f.Valid()
    ensures FromText(hook, Left(hook, f))
  {
    LeftIs(hook, f);
    hide Scan;
    hide Pruned;
    hide CleanBody;
    hide Left;
    var body := f.Block(hook).body;
    CleanBodyIsPart(body);
    PrunedIsPart(CleanBody(body));
    assert forall x :: x in body ==> x in f.Lines(hook);
  }

  // ----- the second install -----

  function Once(hook: Hook, f: Fresh): seq<Line> {
    f.before + ManagedBlock(hook) + f.after
  }

  lemma OnceSize(hook: Hook, f: Fresh)
    ensures Size(Once(hook, f)) == Size(f.before) + Size([HooksLine(hook)]) + Size(ManagedEvent(hook)) + Size(f.after)
  {
    hide ManagedEvent;
    hide Scan;
    SizeThree(f.before, ManagedBlock(hook), f.after);
    SizeConcat([HooksLine(hook)], ManagedEvent(hook));
  }

  /** When nothing is left of the block, the second install writes the whole of it again. */
  lemma EmptiedAgain(hook: Hook, f: Fresh)
    requires f.Valid() && AllBlank(Left(hook, f))
    ensures Merged(hook, f.Lines(hook)) == Ok(f.before + ManagedBlock(hook) + (f.c + f.after))
  {
    FreshDivides(hook, f);
    LeftIs(hook, f);
    RemovedIs(hook, f.Block(hook));
    EmptyInserted(hook, f.Block(hook));
    hide *;
    MergedIs(hook, f.Lines(hook), f.Block(hook), Removed(hook, f.Block(hook)));
    BlockParts(hook, f);
  }

  lemma BlockParts(hook: Hook, f: Fresh)
    ensures var d := f.Block(hook); d.Hooks? && d.before == f.before && d.header == HooksLine(hook) && d.after == f.c + f.after
  {
    hide Scan;
  }

  /** When something is left of the block, the managed event or item goes into it. */
  lemma LeftAgain(hook: Hook, f: Fresh)
    requires f.Valid() && !AllBlank(Left(hook, f))
    ensures Merged(hook, f.Lines(hook)) ==
      match InsertedBody(hook, Left(hook, f))
      case Ok(b) => Ok(f.before + [HooksLine(hook)] + b + (f.c + f.after))
      case Inline(event) => Inline(event)
  {
    FreshDivides(hook, f);
    LeftIs(hook, f);
    RemovedIs(hook, f.Block(hook));
    PlainKeys(hook);
    hide *;
    BlockParts(hook, f);
    MergedIs(hook, f.Lines(hook), f.Block(hook), Removed(hook, f.Block(hook)));
    BareInserted(hook, Removed(hook, f.Block(hook)));
  }

  lemma BareInserted(hook: Hook, d: Document)
    requires d.Hooks? && IsBareKey(d.header, HOOKS_KEY)
    ensures Inserted(hook, d) ==
      match InsertedBody(hook, d.body)
      case Ok(b) => Ok(d.before + [d.header] + b + d.after)
      case Inline(event) => Inline(event)
  {
    hide IsEmptyValue;
    hide IsBareKey;
    hide InsertedBody;
    HeaderValues(hook, d.header);
  }

  lemma CleanIsList(f: Fresh)
    requires f.Valid() && Clean(f.a + f.b + f.c)
    ensures f.b == [] && f.c == [] && AllBlank(Unmanaged(f.a))
  {
    hide Unmanaged;
    FreePart(f.a + f.b, f.c, AnyTopLevel);
    FreePart(f.a + f.b, f.c, AnyHeader);
    FreePart(f.a, f.b, AnyHeader);
    if f.b == [] && f.c == [] {
      assert f.a + f.b + f.c == f.a;
    }
  }

  lemma CleanAgain(hook: Hook, f: Fresh)
    requires f.Valid() && Clean(f.a + f.b + f.c)
    ensures Merged(hook, f.Lines(hook)) == Ok(Once(hook, f))
  {
    CleanIsList(f);
    CleanLeaves(hook, f);
    hide *;
    EmptiedAgain(hook, f);
    OnceIs(hook, f);
  }

  lemma OnceIs(hook: Hook, f: Fresh)
    requires f.c == []
    ensures f.before + ManagedBlock(hook) + (f.c + f.after) == Once(hook, f)
  {
    hide ManagedBlock;
    assert f.c + f.after == f.after;
  }

  lemma CleanLeaves(hook: Hook, f: Fresh)
    requires f.b == [] && AllBlank(Unmanaged(f.a))
    ensures AllBlank(Left(hook, f))
  {
    PreLlmShape(hook);
    hide Scan;
    hide Unmanaged;
    NothingPruned();
    assert Left(hook, f) == [];
  }

  lemma UncleanAgain(hook: Hook, f: Fresh)
    requires f.Valid() && FromText(hook, f.Lines(hook)) && f.a + f.b + f.c != []
    requires var w := f.a + f.b + f.c; w[|w| - 1].kind.Other? && !Clean(w)
    requires Merged(hook, f.Lines(hook)).Ok?
    ensures Size(Merged(hook, f.Lines(hook)).value) > Size(Once(hook, f))
  {
    hide *;
    SomethingLeft(hook, f);
    OnceSize(hook, f);
    SizeConcat(f.c, f.after);
    SizePositive(f.c);
    LeftFromText(hook, f);
    var left := Left(hook, f);
    if AllBlank(left) {
      EmptiedAgain(hook, f);
      BlankIsBlank(left);
      SizeThree(f.before, ManagedBlock(hook), f.c + f.after);
      BlockSize(hook);
    } else {
      LeftAgain(hook, f);
      InsertedSize(hook, left);
      SizeFour(f.before, [HooksLine(hook)], InsertedBody(hook, left).value, f.c + f.after);
    }
  }

  lemma BlankIsBlank(lines: seq<Line>)
    requires AllBlank(lines)
    ensures forall x :: x in lines ==> x.kind.Empty?
  {
  }

  lemma BlockSize(hook: Hook)
    ensures Size(ManagedBlock(hook)) == Size([HooksLine(hook)]) + Size(ManagedEvent(hook))
  {
    hide ManagedEvent;
    hide Scan;
    SizeConcat([HooksLine(hook)], ManagedEvent(hook));
  }

  // ----- on texts -----

  /** What the first install writes into such a file. */
  lemma FreshOnce(hook: Hook, current: string) returns (f: Fresh)
    requires FreshFile(Removed(hook, Parsed(hook, Rendered(current))))
    ensures f.Valid() && f.a + f.b + f.c == Written(hook)
    ensures FromText(hook, f.before) && FromText(hook, f.after)
    ensures MergedText(hook, current) == Ok(ToText(Once(hook, f)))
  {
    var d := Removed(hook, Parsed(hook, Rendered(current)));
    var rest: seq<Line>, others: seq<Line>, a: seq<Line>, b: seq<Line>, c: seq<Line>;
    rest, c := Cut(Written(hook), AnyTopLevel);
    a, b := Cut(rest, AnyHeader);
    hide *;
    var before, after := FreshPlace(hook, current);
    f := Fresh(before, a, b, c, after);
    FreePart(a, b, AnyTopLevel);
    FreshIsValid(f);
    MergedLines(hook, current);
    OnceUnfolds(hook, f);
  }

  lemma OnceUnfolds(hook: Hook, f: Fresh)
    ensures Once(hook, f) == f.before + ManagedBlock(hook) + f.after
  {
  }

  lemma FreshIsValid(f: Fresh)
    requires Free(f.before, HooksKey) && StartsWithGoal(f.after, AnyTopLevel)
    requires Free(f.a, AnyHeader) && Free(f.a, AnyTopLevel) && StartsWithGoal(f.b, AnyHeader) && Free(f.b, AnyTopLevel)
    requires StartsWithGoal(f.c, AnyTopLevel)
    ensures f.Valid()
  {
  }

  /** Where the block goes: behind a file without one, or in the place of an empty one. */
  lemma FreshPlace(hook: Hook, current: string) returns (before: seq<Line>, after: seq<Line>)
    requires FreshFile(Removed(hook, Parsed(hook, Rendered(current))))
    ensures Free(before, HooksKey) && StartsWithGoal(after, AnyTopLevel) && FromText(hook, before) && FromText(hook, after)
    ensures Merged(hook, ScanAll(hook, SplitLines(Rendered(current)))) == Ok(before + ManagedBlock(hook) + after)
  {
    var lines := ScanAll(hook, SplitLines(Rendered(current)));
    assert Parsed(hook, Rendered(current)) == ParseDocument(lines);
    assert Merged(hook, lines) == Inserted(hook, Removed(hook, ParseDocument(lines)));
    hide *;
    var d := Removed(hook, ParseDocument(lines));
    ParseOf(lines);
    RemovedShape(hook, ParseDocument(lines));
    RemovedLinesFromText(hook, current);
    before, after := PlaceIn(hook, d);
  }

  lemma PlaceIn(hook: Hook, d: Document) returns (before: seq<Line>, after: seq<Line>)
    requires FreshFile(d) && d.Valid() && FromText(hook, d.Lines())
    ensures Free(before, HooksKey) && StartsWithGoal(after, AnyTopLevel) && FromText(hook, before) && FromText(hook, after)
    ensures Inserted(hook, d) == Ok(before + ManagedBlock(hook) + after)
  {
    match d
    case Plain(lines) =>
      before, after := PlaceBehind(hook, lines);
    case Hooks(b, header, body, a) =>
      hide Scan;
      hide ManagedBlock;
      hide IsEmptyValue;
      before, after := b, a;
      assert b + ManagedBlock(hook) + [] + a == b + ManagedBlock(hook) + a;
  }

  lemma PlaceBehind(hook: Hook, lines: seq<Line>) returns (before: seq<Line>, after: seq<Line>)
    requires Free(lines, HooksKey) && FromText(hook, lines)
    ensures Free(before, HooksKey) && after == [] && FromText(hook, before)
    ensures Inserted(hook, Plain(lines)) == Ok(before + ManagedBlock(hook) + after)
  {
    var blank := [Scan(hook, "")];
    SpaceFromText(hook);
    BlankIsNoKey(hook);
    hide Scan;
    hide ManagedBlock;
    hide FromText;
    hide Free;
    var space := if lines == [] || lines[|lines| - 1].kind.Empty? then [] else blank;
    FreeBoth(lines, blank, HooksKey);
    FromTextBoth(hook, lines, blank);
    before, after := lines + space, [];
    assert lines + [] == lines && before + ManagedBlock(hook) + after == lines + space + ManagedBlock(hook);
  }

  lemma BlankIsNoKey(hook: Hook)
    ensures Free([Scan(hook, "")], HooksKey)
  {
    assert Scan(hook, "").kind.Empty?;
  }

  lemma FromTextBoth(hook: Hook, a: seq<Line>, b: seq<Line>)
    requires FromText(hook, a) && FromText(hook, b)
    ensures FromText(hook, a + b)
  {
  }

  lemma SpaceFromText(hook: Hook)
    ensures FromText(hook, [Scan(hook, "")])
  {
    hide HasBreak;
    EmptyOneLine();
  }

  /** What the second install reads. */
  lemma FreshRead(hook: Hook, f: Fresh)
    requires f.a + f.b + f.c == Written(hook) && FromText(hook, f.before) && FromText(hook, f.after)
    ensures ScanAll(hook, SplitLines(ToText(Once(hook, f)))) == f.Lines(hook) && Once(hook, f) != []
  {
    KeysFromText(hook, f.before);
    var top := f.before + [HooksLine(hook), PreLlmLine(hook)];
    OnceJoins(hook, f);
    LinesJoin(hook, f);
    WrittenIs(hook);
    assert top != [] && ManagedLines(hook) != [];
    hide *;
    ReadBackParts(hook, top, ManagedLines(hook), f.after);
  }

  lemma KeysFromText(hook: Hook, before: seq<Line>)
    requires FromText(hook, before)
    ensures FromText(hook, before + [HooksLine(hook), PreLlmLine(hook)])
  {
    ConstantsFromText(hook);
    hide Scan;
    var consts := [PreLlmLine(hook), HooksLine(hook), NoHooksLine(hook), Scan(hook, "")];
    assert PreLlmLine(hook) in consts && HooksLine(hook) in consts;
  }

  lemma OnceJoins(hook: Hook, f: Fresh)
    ensures Once(hook, f) == f.before + [HooksLine(hook), PreLlmLine(hook)] + ManagedLines(hook) + f.after && Once(hook, f) != []
  {
    hide Scan;
    hide ManagedLines;
  }

  lemma LinesJoin(hook: Hook, f: Fresh)
    ensures f.Lines(hook) == f.before + [HooksLine(hook), PreLlmLine(hook)] + (f.a + f.b + f.c) + f.after
  {
    hide Scan;
  }

  /** Whatever the command: in a file without a `hooks:` block, or with an empty one, installing twice gives the text of
      installing once exactly when the managed item, as it is read back, is one list that removal takes out. */
  lemma FreshInstallTwice(hook: Hook, current: string)
    requires FreshFile(Removed(hook, Parsed(hook, Rendered(current))))
    ensures var once := MergedText(hook, current);
      once.Ok? && (MergedText(hook, once.value) == once <==> Clean(Written(hook)))
  {
    MarkerIsOther(hook);
    hide *;
    var f := FreshOnce(hook, current);
    var text := ToText(Once(hook, f));
    FreshRead(hook, f);
    SplitFromText(hook, text);
    WrittenEnds(hook);
    TextEnds(Once(hook, f));
    MergedLines(hook, text);
    TextSize(Once(hook, f));
    var again := Merged(hook, f.Lines(hook));
    if Clean(Written(hook)) {
      CleanAgain(hook, f);
    } else if again.Ok? {
      UncleanAgain(hook, f);
      SizePositive(again.value);
      TextSize(again.value);
    }
  }

  lemma MarkerIsOther(hook: Hook)
    ensures Scan(hook, MARKER_TEXT).kind.Other?
  {
    MarkerShape(hook);
  }

  /** A command without separators, or with none but those that the quoting escapes, is written cleanly. */
  lemma OneLineIsClean(hook: Hook)
    requires OneLine(hook.command)
    ensures Clean(Written(hook))
  {
    hide *;
    var m := ManagedLines(hook);
    ManagedFromText(hook);
    ManagedLinesItem(hook);
    LoneManaged(m);
    WrittenIs(hook);
    WriteRead(hook, m);
    NothingIsBlank();
    CleanIs(m);
  }

  lemma NothingIsBlank()
    ensures AllBlank([])
  {
  }

  lemma CleanIs(lines: seq<Line>)
    ensures Clean(lines) <==> Free(lines, AnyTopLevel) && Free(lines, AnyHeader) && AllBlank(Unmanaged(lines))
  {
  }
}
