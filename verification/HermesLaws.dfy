/** The laws of installing the managed Hermes hook: what a removal leaves of a file, and when a second install changes
    nothing. */
module HermesLaws {
  import opened HermesLines
  import opened HermesConfig
  import opened HermesShape

  // ----- installing twice -----

  predicate IsPruned(hook: Hook, d: Document) {
    d.Hooks? ==> Pruned(d.body) == d.body && (AllBlank(d.body) ==> d.header == NoHooksLine(hook) && d.body == [])
  }

  lemma CleanBodyIsPart(body: seq<Line>)
    ensures forall x :: x in CleanBody(body) ==> x in body
  {
    FindOf(body);
    var e := FindEvent(body);
    if e.Event? { UnmanagedIsPart(e.list); }
  }

  /** Removal leaves a well-divided file in which no event is idle. */
  lemma RemovedShape(hook: Hook, d: Document)
    requires d.Valid()
    ensures Removed(hook, d).Valid() && IsPruned(hook, Removed(hook, d))
  {
    if d.Hooks? {
      var clean := CleanBody(d.body);
      HooksShape(hook);
      CleanBodyIsPart(d.body);
      PrunedIsPart(clean);
      PrunedTwice(clean);
      assert forall x :: x in d.body ==> !x.kind.TopLevel?;
    }
  }

  lemma HeaderValues(hook: Hook, line: Line)
    ensures !(IsBareKey(line, HOOKS_KEY) && IsEmptyValue(line, HOOKS_KEY))
    ensures !(IsBareKey(line, PRE_LLM_KEY) && IsEmptyList(line))
    ensures IsBareKey(HooksLine(hook), HOOKS_KEY) && IsEmptyValue(NoHooksLine(hook), HOOKS_KEY)
    ensures IsBareKey(PreLlmLine(hook), PRE_LLM_KEY)
  {
    HooksValues();
    PreLlmShape(hook);
  }

  lemma ManagedLinesItem(hook: Hook)
    ensures ManagedItem(ManagedLines(hook)) && Free(ManagedLines(hook), AnyHeader) && Free(ManagedLines(hook), AnyTopLevel)
    ensures PreLlmLine(hook).kind == Header(true, true)
  {
    hide *;
    ManagedShape(hook);
    PreLlmShape(hook);
    ThreeLines(ManagedLines(hook));
  }

  lemma ThreeLines(m: seq<Line>)
    requires |m| == 3 && m[0].kind.Item? && m[0].indent == 4 && m[2].managed
    requires m[1].kind.Other? && m[1].indent == 6 && m[2].kind.Other? && m[2].indent == 6
    ensures ManagedItem(m) && Free(m, AnyHeader) && Free(m, AnyTopLevel)
  {
  }

  lemma ManagedDistinct(hook: Hook)
    ensures var m := ManagedLines(hook); m[0] != m[1] && m[0] != m[2]
  {
    ManagedShape(hook);
  }

  /** Inserting adds three lines under an event that is there, and else four at the end. */
  lemma InsertedLength(hook: Hook, body: seq<Line>)
    requires InsertedBody(hook, body).Ok?
    ensures var r := InsertedBody(hook, body).value;
      if FindEvent(body).NoEvent? then r == body + ManagedEvent(hook) else |r| == |body| + 3
  {
    FindOf(body);
  }

  lemma PrunedBlock(head: seq<Line>, header: Line, kept: seq<Line>, tail: seq<Line>)
    requires Pruned(head) == head && Pruned(tail) == tail
    requires Found(header, AnyHeader) && Free(kept, AnyHeader) && StartsWithGoal(tail, AnyHeader)
    ensures Pruned(head + [header] + kept + tail) ==
      if Idle(header, kept) then head + tail else head + [header] + kept + tail
  {
    hide Pruned;
    var event := [header] + kept + tail;
    assert head + [header] + kept + tail == head + event;
    PrunedAppend(head, event);
    PrunedEvent(header, kept, tail);
    if Idle(header, kept) {
      assert [] + tail == tail;
    }
  }

  lemma NotBlank(a: seq<Line>, header: Line, b: seq<Line>)
    requires Found(header, AnyHeader)
    ensures !AllBlank(a + [header] + b)
  {
    assert (a + [header] + b)[|a|] == header;
  }

  /** What is left of a block after removal, when the other events are not idle. */
  lemma RemovedBlock(hook: Hook, d: Document, head: seq<Line>, header: Line, list: seq<Line>, tail: seq<Line>)
    requires d.Hooks? && Event(head, header, list, tail).Of(d.body)
    requires Pruned(head) == head && Pruned(tail) == tail
    ensures var kept := Unmanaged(list);
      Removed(hook, d) ==
        if !Idle(header, kept) then d.(body := head + [header] + kept + tail)
        else if AllBlank(head + tail) then d.(header := NoHooksLine(hook), body := [])
        else d.(body := head + tail)
  {
    EventIs(d.body, head, header, list, tail);
    RemovedIs(hook, d);
    hide *;
    KeptIsFree(list);
    PrunedBlock(head, header, Unmanaged(list), tail);
    BlockNotBlank(head, header, Unmanaged(list), tail);
  }

  lemma KeptIsFree(list: seq<Line>)
    requires Free(list, AnyHeader)
    ensures Free(Unmanaged(list), AnyHeader)
  {
    hide *;
    assert list[0..] == list;
    UnmanagedFree(list, 0, AnyHeader);
  }

  lemma BlockNotBlank(head: seq<Line>, header: Line, list: seq<Line>, tail: seq<Line>)
    requires Found(header, AnyHeader)
    ensures !AllBlank(head + [header] + list + tail)
  {
    hide *;
    NotBlank(head, header, list + tail);
    assert head + [header] + list + tail == head + [header] + (list + tail);
  }

  lemma EventIs(body: seq<Line>, head: seq<Line>, header: Line, list: seq<Line>, tail: seq<Line>)
    requires Event(head, header, list, tail).Of(body)
    ensures CleanBody(body) == head + [header] + Unmanaged(list) + tail
    ensures Found(header, AnyHeader) && Free(list, AnyHeader) && StartsWithGoal(tail, AnyHeader)
  {
    hide Unmanaged;
    hide FindEvent;
    FindUnique(body, Event(head, header, list, tail));
  }

  lemma RemovedIs(hook: Hook, d: Document)
    requires d.Hooks?
    ensures var body := Pruned(CleanBody(d.body));
      Removed(hook, d) == if AllBlank(body) then d.(header := NoHooksLine(hook), body := []) else d.(body := body)
  {
    hide Pruned;
    hide CleanBody;
    hide AllBlank;
  }

  /** Three lines that a list can be moved past: the list starts with them. */
  lemma Rotated(m: seq<Line>, list: seq<Line>)
    requires |m| == 3 && m[0] != m[1] && m[0] != m[2] && list != [] && list + m == m + list
    ensures |list| >= 3 && list == m + list[3..]
  {
    assert (list + m)[0] == m[0] && (list + m)[1] == m[1] && (list + m)[2] == m[2];
    if |list| >= 3 {
      assert list[..3] == m;
    }
  }

  /** A list cannot be moved past the managed lines without a change: its own first item would go. */
  lemma NoRotation(m: seq<Line>, list: seq<Line>, kept: seq<Line>)
    requires ManagedItem(m) && |m| == 3 && m[0] != m[1] && m[0] != m[2]
    requires list != [] && kept == Unmanaged(list[ItemTail(list, 4)..])
    ensures kept + m != m + list
  {
    hide *;
    if kept + m == m + list {
      assert |kept + m| == |m + list|;
      assert list[0..] == list;
      UnmanagedIsPart(list);
      Rotated(m, list);
      ManagedInFront(m, list[3..]);
    }
  }

  lemma Cancel(a: seq<Line>, x: seq<Line>, y: seq<Line>, b: seq<Line>)
    ensures a + x + b == a + y + b <==> x == y
  {
    if a + x + b == a + y + b {
      assert |a + x + b| == |a + y + b|;
      assert (a + x + b)[|a|..|a| + |x|] == x;
      assert (a + y + b)[|a|..|a| + |y|] == y;
    }
  }

  /** A second install gives the file back exactly when it gives the block body back. */
  lemma SameBlock(hook: Hook, d: Document, body: seq<Line>)
    requires d.Hooks? && IsBareKey(d.header, HOOKS_KEY)
    ensures Inserted(hook, d.(body := body)) == Ok(d.Lines()) <==> InsertedBody(hook, body) == Ok(d.body)
  {
    HeaderValues(hook, d.header);
    var r := InsertedBody(hook, body);
    if r.Ok? { Cancel(d.before + [d.header], r.value, d.body, d.after); }
  }

  /** The managed event put in front of `list`, in the block that continues with `tail`. */
  function FrontBody(hook: Hook, head: seq<Line>, list: seq<Line>, tail: seq<Line>): seq<Line> {
    head + ManagedEvent(hook) + list + tail
  }

  predicate FrontParts(head: seq<Line>, list: seq<Line>, tail: seq<Line>) {
    Free(head, PreLlmHeader) && Free(list, AnyHeader) && StartsWithGoal(tail, AnyHeader)
  }

  lemma KeptNonempty(list: seq<Line>)
    ensures list == [] ==> Unmanaged(list[ItemTail(list, 4)..]) == []
  {
  }

  lemma FrontKept(hook: Hook, head: seq<Line>, list: seq<Line>, tail: seq<Line>, kept: seq<Line>)
    requires FrontParts(head, list, tail)
    requires kept == Unmanaged(list[ItemTail(list, 4)..]) && !AllBlank(kept)
    ensures list != [] && InsertedBody(hook, head + [PreLlmLine(hook)] + kept + tail) != Ok(FrontBody(hook, head, list, tail))
  {
    hide Scan;
    hide IsBareKey;
    hide IsEmptyList;
    hide Unmanaged;
    hide FindEvent;
    var m, pre := ManagedLines(hook), PreLlmLine(hook);
    ManagedLinesItem(hook);
    HeaderValues(hook, pre);
    KeptNonempty(list);
    UnmanagedFree(list, ItemTail(list, 4), AnyHeader);
    FindUnique(head + [pre] + kept + tail, Event(head, pre, kept, tail));
    ManagedDistinct(hook);
    NoRotation(m, list, kept);
    assert head + [pre] + kept + m + tail == head + [pre] + (kept + m) + tail;
    assert FrontBody(hook, head, list, tail) == head + [pre] + (m + list) + tail;
    Cancel(head + [pre], kept + m, m + list, tail);
  }

  lemma FrontMoved(hook: Hook, head: seq<Line>, list: seq<Line>, tail: seq<Line>)
    requires FrontParts(head, list, tail)
    ensures InsertedBody(hook, head + tail) == Ok(FrontBody(hook, head, list, tail)) <==> list == [] && tail == []
  {
    hide Scan;
    hide IsBareKey;
    hide IsEmptyList;
    var event := ManagedEvent(hook);
    ManagedLinesItem(hook);
    var r := InsertedBody(hook, head + tail);
    FindOf(head + tail);
    if list == [] && tail == [] {
      assert head + tail == head;
      FindUnique(head, NoEvent);
      assert FrontBody(hook, head, list, tail) == head + event;
    } else if r.Ok? {
      InsertedLength(hook, head + tail);
      if tail != [] {
        assert (head + tail + event)[|head|] == (head + tail)[|head|];
        assert FrontBody(hook, head, list, tail)[|head|] == event[0];
      }
    }
  }

  lemma FrontEmpty(hook: Hook, d: Document, head: seq<Line>, list: seq<Line>, tail: seq<Line>)
    requires d.Hooks? && d.body == FrontBody(hook, head, list, tail) && FrontParts(head, list, tail)
    requires AllBlank(head + tail)
    ensures Inserted(hook, d.(header := NoHooksLine(hook), body := [])) == Ok(d.Lines()) <==> Front(hook, d.header, head, list, tail)
  {
    hide Scan;
    hide IsBareKey;
    hide IsEmptyValue;
    HeaderValues(hook, d.header);
    var event := ManagedEvent(hook);
    assert head + tail == head + tail + [];
    assert AllBlank(head) by { assert forall i :: 0 <= i < |head| ==> (head + tail)[i] == head[i]; }
    var r := d.before + ManagedBlock(hook) + [] + d.after;
    if head == [] && list == [] && tail == [] {
      assert d.body == event;
      assert r == d.before + [HooksLine(hook)] + event + d.after;
      assert r[|d.before|] == HooksLine(hook) && d.Lines()[|d.before|] == d.header;
    } else {
      assert |r| < |d.Lines()|;
    }
  }

  predicate Front(hook: Hook, header: Line, head: seq<Line>, list: seq<Line>, tail: seq<Line>) {
    list == [] && tail == [] && (AllBlank(head) ==> head == [] && header == HooksLine(hook))
  }

  /** The managed event put in front of `list`: a second install gives the same lines exactly
      when nothing follows the event in its block and, if nothing but blank lines precede it,
      there are none and the block's header is plain. */
  lemma FrontTwice(hook: Hook, d: Document, head: seq<Line>, list: seq<Line>, tail: seq<Line>)
    requires d.Hooks? && d.Valid() && d.body == FrontBody(hook, head, list, tail) && FrontParts(head, list, tail)
    requires IsBareKey(d.header, HOOKS_KEY)
    requires Pruned(head) == head && Pruned(tail) == tail
    ensures Merged(hook, d.Lines()) == Ok(d.Lines()) <==> Front(hook, d.header, head, list, tail)
  {
    hide Pruned;
    hide Unmanaged;
    hide Scan;
    hide IsBareKey;
    hide IsEmptyValue;
    hide Inserted;
    hide InsertedBody;
    var m, pre := ManagedLines(hook), PreLlmLine(hook);
    ManagedLinesItem(hook);
    assert d.body == head + [pre] + (m + list) + tail;
    RemovedBlock(hook, d, head, pre, m + list, tail);
    ParseUnique(d);
    ManagedInFront(m, list);
    var kept := Unmanaged(list[ItemTail(list, 4)..]);
    if !AllBlank(kept) {
      FrontKept(hook, head, list, tail, kept);
      SameBlock(hook, d, head + [pre] + kept + tail);
    } else if AllBlank(head + tail) {
      FrontEmpty(hook, d, head, list, tail);
    } else {
      FrontMoved(hook, head, list, tail);
      SameBlock(hook, d, head + tail);
      assert tail == [] ==> head + tail == head;
    }
  }

  /** The managed item put behind the list of an event that is there: a second install gives
      the same lines exactly when that list is settled. */
  lemma BackTwice(hook: Hook, r: Document, head: seq<Line>, header: Line, list: seq<Line>, tail: seq<Line>)
    requires r.Hooks? && r.Valid() && IsPruned(hook, r) && Event(head, header, list, tail).Of(r.body)
    requires IsBareKey(r.header, HOOKS_KEY) && IsBareKey(header, PRE_LLM_KEY)
    ensures var d := r.(body := head + [header] + list + ManagedLines(hook) + tail);
      d.Valid() && Inserted(hook, r) == Ok(d.Lines())
      && (Merged(hook, d.Lines()) == Ok(d.Lines()) <==> Settled(list))
  {
    hide Pruned;
    hide Unmanaged;
    hide Settled;
    hide Scan;
    hide IsBareKey;
    hide IsEmptyValue;
    hide IsEmptyList;
    hide FindEvent;
    var m := ManagedLines(hook);
    var d := r.(body := head + [header] + list + m + tail);
    ManagedLinesItem(hook);
    BackValid(hook, r, head, header, list, tail);
    HeaderValues(hook, r.header);
    HeaderValues(hook, header);
    FindUnique(r.body, Event(head, header, list, tail));
    assert d.body == head + [header] + (list + m) + tail;
    RemovedBlock(hook, d, head, header, list + m, tail);
    ParseUnique(d);
    ManagedBehind(list, m);
    var kept := Unmanaged(list + m);
    if kept == list {
      assert Removed(hook, d).body == r.body;
      assert Removed(hook, d) == r;
    } else {
      assert (list + m)[0..] == list + m;
      UnmanagedFree(list + m, 0, AnyHeader);
      BackShorter(hook, d, head, header, list, tail, kept);
    }
  }

  /** The parts of a pruned block are pruned, its event is not idle, and the managed lines fit in it. */
  lemma BackValid(hook: Hook, r: Document, head: seq<Line>, header: Line, list: seq<Line>, tail: seq<Line>)
    requires r.Hooks? && r.Valid() && IsPruned(hook, r) && Event(head, header, list, tail).Of(r.body)
    ensures Pruned(head) == head && Pruned(tail) == tail && !Idle(header, list)
    ensures r.(body := head + [header] + list + ManagedLines(hook) + tail).Valid()
  {
    hide Pruned;
    hide AllBlank;
    ManagedLinesItem(hook);
    var event := [header] + list + tail;
    assert r.body == head + event;
    PrunedParts(head, event);
    PrunedEvent(header, list, tail);
    PrunedIsPart(tail);
    assert event == [header] + list + tail + [] && [header] + list + Pruned(tail) == [header] + list + Pruned(tail) + [];
    Cancel([header] + list, Pruned(tail), tail, []);
    BodyParts(head, header, list, tail);
  }

  lemma FreeBoth(a: seq<Line>, b: seq<Line>, goal: Goal)
    ensures Free(a + b, goal) <==> Free(a, goal) && Free(b, goal)
  {
    assert forall i :: 0 <= i < |a| ==> (a + b)[i] == a[i];
    assert forall i :: 0 <= i < |b| ==> (a + b)[|a| + i] == b[i];
  }

  lemma BodyParts(head: seq<Line>, header: Line, list: seq<Line>, tail: seq<Line>)
    requires Free(head + [header] + list + tail, AnyTopLevel)
    ensures forall m :: Free(m, AnyTopLevel) ==> Free(head + [header] + list + m + tail, AnyTopLevel)
  {
    hide *;
    FreeBoth(head + [header] + list, tail, AnyTopLevel);
    forall m | Free(m, AnyTopLevel) ensures Free(head + [header] + list + m + tail, AnyTopLevel) {
      FreeBoth(head + [header] + list, m, AnyTopLevel);
      FreeBoth(head + [header] + list + m, tail, AnyTopLevel);
    }
  }

  lemma BackShorter(hook: Hook, d: Document, head: seq<Line>, header: Line, list: seq<Line>, tail: seq<Line>, kept: seq<Line>)
    requires d.Hooks? && IsBareKey(d.header, HOOKS_KEY)
    requires d.body == head + [header] + list + ManagedLines(hook) + tail
    requires IsBareKey(header, PRE_LLM_KEY) && Event(head, header, kept, tail).Of(head + [header] + kept + tail)
    requires |kept| < |list|
    ensures Inserted(hook, d.(body := head + [header] + kept + tail)) != Ok(d.Lines())
    ensures Inserted(hook, d.(body := head + tail)) != Ok(d.Lines())
    ensures Inserted(hook, d.(header := NoHooksLine(hook), body := [])) != Ok(d.Lines())
  {
    hide Scan;
    hide IsBareKey;
    hide IsEmptyValue;
    hide IsEmptyList;
    hide FindEvent;
    HeaderValues(hook, d.header);
    FindUnique(head + [header] + kept + tail, Event(head, header, kept, tail));
    if InsertedBody(hook, head + [header] + kept + tail).Ok? { InsertedLength(hook, head + [header] + kept + tail); }
    if InsertedBody(hook, head + tail).Ok? { InsertedLength(hook, head + tail); }
    SameBlock(hook, d, head + [header] + kept + tail);
    SameBlock(hook, d, head + tail);
    assert |ManagedBlock(hook)| == 5;
    assert |d.before + ManagedBlock(hook) + [] + d.after| < |d.Lines()|;
  }

  lemma EventFree(hook: Hook)
    ensures Free(ManagedEvent(hook), AnyTopLevel) && Pruned([]) == [] && Found(HooksLine(hook), HooksKey)
  {
    ManagedLinesItem(hook);
    HooksShape(hook);
  }

  lemma PlainTwice(hook: Hook, lines: seq<Line>)
    requires Free(lines, HooksKey)
    ensures var once := Inserted(hook, Plain(lines)); Merged(hook, once.value) == once
  {
    var space := if lines == [] || lines[|lines| - 1].kind.Empty? then [] else [Scan(hook, "")];
    HooksShape(hook);
    EventFree(hook);
    PlainValid(hook, lines, space, HooksLine(hook), ManagedEvent(hook));
    assert Inserted(hook, Plain(lines)) == Ok(lines + space + ManagedBlock(hook));
    hide *;
    BlockTwice(hook, lines + space);
  }

  /** The managed block behind lines without hooks stays where it is. */
  lemma BlockTwice(hook: Hook, before: seq<Line>)
    requires Hooks(before, HooksLine(hook), ManagedEvent(hook), []).Valid()
    ensures Merged(hook, before + ManagedBlock(hook)) == Ok(before + ManagedBlock(hook))
  {
    hide Pruned;
    hide IsBareKey;
    hide IsEmptyValue;
    hide Merged;
    hide Scan;
    HeaderValues(hook, HooksLine(hook));
    var d := Hooks(before, HooksLine(hook), ManagedEvent(hook), []);
    assert ManagedEvent(hook) == FrontBody(hook, [], [], []);
    assert d.Lines() == before + ManagedBlock(hook);
    FrontTwice(hook, d, [], [], []);
  }

  lemma PlainValid(hook: Hook, lines: seq<Line>, space: seq<Line>, header: Line, body: seq<Line>)
    requires Free(lines, HooksKey) && (space == [] || space == [Scan(hook, "")])
    requires Found(header, HooksKey) && Free(body, AnyTopLevel)
    ensures Hooks(lines + space, header, body, []).Valid()
  {
    assert Scan(hook, "").kind.Empty?;
  }

  lemma EmptyTwice(hook: Hook, r: Document)
    requires r.Hooks? && r.Valid() && IsPruned(hook, r) && IsEmptyValue(r.header, HOOKS_KEY)
    ensures var once := Inserted(hook, r); Merged(hook, once.value) == once <==> r.body == []
  {
    hide Pruned;
    hide IsBareKey;
    hide IsEmptyValue;
    hide Scan;
    HeaderValues(hook, HooksLine(hook));
    EventFree(hook);
    CountShape(r.body, AnyHeader);
    var n := CountUntil(r.body, AnyHeader);
    var list, tail := r.body[..n], r.body[n..];
    var d := r.(header := HooksLine(hook), body := FrontBody(hook, [], list, tail));
    PrunedParts(list, tail);
    assert d.body == ManagedEvent(hook) + r.body;
    assert d.Lines() == r.before + ManagedBlock(hook) + r.body + r.after;
    FrontTwice(hook, d, [], list, tail);
  }

  lemma NoEventTwice(hook: Hook, r: Document)
    requires r.Hooks? && r.Valid() && IsPruned(hook, r) && IsBareKey(r.header, HOOKS_KEY) && FindEvent(r.body).NoEvent?
    ensures var once := Inserted(hook, r); Merged(hook, once.value) == once
  {
    hide Pruned;
    hide IsBareKey;
    hide IsEmptyValue;
    hide Scan;
    hide FindEvent;
    HeaderValues(hook, r.header);
    HeaderValues(hook, NoHooksLine(hook));
    EventFree(hook);
    FindOf(r.body);
    var d := r.(body := FrontBody(hook, r.body, [], []));
    assert d.body == r.body + ManagedEvent(hook);
    FrontTwice(hook, d, r.body, [], []);
  }

  lemma ListTwice(hook: Hook, r: Document, head: seq<Line>, header: Line, list: seq<Line>, tail: seq<Line>)
    requires r.Hooks? && r.Valid() && IsPruned(hook, r) && IsBareKey(r.header, HOOKS_KEY)
    requires Event(head, header, list, tail).Of(r.body) && IsEmptyList(header)
    ensures var once := Inserted(hook, r);
      once.Ok? && (Merged(hook, once.value) == once <==> Front(hook, r.header, head, list, tail))
  {
    hide Pruned;
    hide IsBareKey;
    hide IsEmptyValue;
    hide IsEmptyList;
    hide Scan;
    hide FindEvent;
    HeaderValues(hook, r.header);
    EventFree(hook);
    FindUnique(r.body, Event(head, header, list, tail));
    BackValid(hook, r, head, header, list, tail);
    BodyParts(head, header, list, tail);
    var d := r.(body := FrontBody(hook, head, list, tail));
    assert Free(d.body, AnyTopLevel) by { FrontFree(hook, head, header, list, tail); }
    FrontTwice(hook, d, head, list, tail);
  }

  lemma FrontFree(hook: Hook, head: seq<Line>, header: Line, list: seq<Line>, tail: seq<Line>)
    requires Free(head + [header] + list + tail, AnyTopLevel)
    ensures Free(FrontBody(hook, head, list, tail), AnyTopLevel)
  {
    EventFree(hook);
    var body := head + [header] + list + tail;
    assert forall i :: 0 <= i < |head| ==> body[i] == head[i];
    assert forall i :: 0 <= i < |list| ==> body[|head| + 1 + i] == list[i];
    assert forall i :: 0 <= i < |tail| ==> body[|head| + 1 + |list| + i] == tail[i];
  }

  /** When the hook installed in a file, which `r` is once rid of managed lines, stays as it is
      under a second install. */
  predicate InstallStable(hook: Hook, r: Document) {
    r.Plain?
    || (if IsEmptyValue(r.header, HOOKS_KEY) then r.body == []
        else
          match FindEvent(r.body)
          case NoEvent => true
          case Event(head, header, list, tail) =>
            if IsEmptyList(header) then Front(hook, r.header, head, list, tail) else Settled(list))
  }

  /** Installing is idempotent on a file exactly when InstallStable holds of the file
      without its managed lines. */
  lemma InstallTwice(hook: Hook, lines: seq<Line>)
    requires Merged(hook, lines).Ok?
    ensures var once := Merged(hook, lines);
      Merged(hook, once.value) == once <==> InstallStable(hook, Removed(hook, ParseDocument(lines)))
  {
    hide Pruned;
    hide Unmanaged;
    hide Settled;
    hide Scan;
    hide IsBareKey;
    hide IsEmptyValue;
    hide IsEmptyList;
    hide FindEvent;
    hide Removed;
    hide ParseDocument;
    ParseOf(lines);
    var r := Removed(hook, ParseDocument(lines));
    RemovedShape(hook, ParseDocument(lines));
    HeaderValues(hook, HooksLine(hook));
    match r
    case Plain(plain) =>
      PlainTwice(hook, plain);
    case Hooks(before, header, body, after) =>
      if IsEmptyValue(header, HOOKS_KEY) {
        EmptyTwice(hook, r);
      } else {
        FindOf(body);
        match FindEvent(body)
        case NoEvent => NoEventTwice(hook, r);
        case Event(head, eventHeader, list, tail) =>
          if IsEmptyList(eventHeader) {
            ListTwice(hook, r, head, eventHeader, list, tail);
          } else {
            BackTwice(hook, r, head, eventHeader, list, tail);
          }
      }
  }
}
