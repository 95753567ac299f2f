/** What removing the managed Hermes hook keeps, and when removing it again changes nothing. */
module HermesRemoval {
  import opened HermesLines
  import opened HermesConfig
  import opened HermesShape
  import opened HermesLaws

  // ----- what a removal takes out -----

  /** A stretch of lines that an edit kept or dropped. */
  datatype Part = Kept(lines: seq<Line>) | Dropped(lines: seq<Line>)

  function Whole(parts: seq<Part>): seq<Line> {
    if parts == [] then [] else parts[0].lines + Whole(parts[1..])
  }

  function Remaining(parts: seq<Part>): seq<Line> {
    if parts == [] then [] else (if parts[0].Kept? then parts[0].lines else []) + Remaining(parts[1..])
  }

  predicate Stops(lines: seq<Line>, indent: nat) {
    lines == [] || (!lines[0].kind.Empty? && lines[0].indent <= indent)
  }

  lemma {:induction false} ItemTailStops(lines: seq<Line>, indent: nat)
    ensures Stops(lines[ItemTail(lines, indent)..], indent)
  {
    if !Stops(lines, indent) {
      ItemTailStops(lines[1..], indent);
      assert lines[ItemTail(lines, indent)..] == lines[1..][ItemTail(lines[1..], indent)..];
    }
  }

  /** A list item: its first line, and the blank or deeper lines under it. */
  predicate WholeItem(lines: seq<Line>) {
    && lines != [] && lines[0].kind.Item?
    && forall i :: 1 <= i < |lines| ==> !Stops(lines[i..], lines[0].indent)
  }

  /** Parts of a list, an item with all its lines or one line outside items: managed items are
      dropped, the rest is kept. */
  predicate ListParts(parts: seq<Part>) {
    forall i :: 0 <= i < |parts| ==>
      var lines := parts[i].lines;
      && lines != []
      && (parts[i].Dropped? <==> lines[0].kind.Item? && Managed(lines))
      && if lines[0].kind.Item? then WholeItem(lines) && Stops(Whole(parts[i + 1..]), lines[0].indent) else |lines| == 1
  }

  lemma {:induction false} ItemTailInside(lines: seq<Line>, indent: nat)
    ensures forall i :: 0 <= i < ItemTail(lines, indent) ==> !Stops(lines[i..], indent)
  {
    if lines != [] && !Stops(lines, indent) {
      ItemTailInside(lines[1..], indent);
      assert forall i :: 1 <= i < ItemTail(lines, indent) ==> lines[i..] == lines[1..][i - 1..];
    }
  }

  lemma ItemShape(lines: seq<Line>)
    requires lines != [] && lines[0].kind.Item?
    ensures var n := ItemLength(lines); WholeItem(lines[..n]) && Stops(lines[n..], lines[0].indent)
  {
    var n := ItemLength(lines);
    ItemTailInside(lines[1..], lines[0].indent);
    ItemTailStops(lines[1..], lines[0].indent);
    assert lines[n..] == lines[1..][n - 1..];
    forall i | 1 <= i < n ensures !Stops(lines[..n][i..], lines[0].indent) {
      assert lines[1..][i - 1..][0] == lines[i] == lines[..n][i..][0];
    }
  }

  lemma ConsPart(p: Part, others: seq<Part>)
    requires ListParts(others) && p.lines != []
    requires p.Dropped? <==> p.lines[0].kind.Item? && Managed(p.lines)
    requires if p.lines[0].kind.Item? then WholeItem(p.lines) && Stops(Whole(others), p.lines[0].indent) else |p.lines| == 1
    ensures ListParts([p] + others)
    ensures Whole([p] + others) == p.lines + Whole(others)
    ensures Remaining([p] + others) == (if p.Kept? then p.lines else []) + Remaining(others)
  {
    var parts := [p] + others;
    assert parts[1..] == others;
    assert forall i :: 0 <= i < |others| ==> parts[i + 1] == others[i] && parts[i + 2..] == others[i + 1..];
  }

  /** Removal divides the list into parts and takes out the managed items, nothing else. */
  lemma {:induction false} UnmanagedParts(lines: seq<Line>) returns (parts: seq<Part>)
    ensures ListParts(parts) && Whole(parts) == lines && Remaining(parts) == Unmanaged(lines)
    decreases |lines|
  {
    hide Managed;
    hide ListParts;
    hide WholeItem;
    hide Stops;
    hide Whole;
    hide Remaining;
    hide Unmanaged;
    if lines == [] {
      parts := [];
      NoParts();
    } else {
      var n := if lines[0].kind.Item? then ItemLength(lines) else 1;
      var first := lines[..n];
      var p := if lines[0].kind.Item? && Managed(first) then Dropped(first) else Kept(first);
      if lines[0].kind.Item? { ItemShape(lines); }
      var others := UnmanagedParts(lines[n..]);
      ConsPart(p, others);
      UnmanagedStep(lines);
      parts := [p] + others;
      assert lines == first + lines[n..];
    }
  }

  lemma UnmanagedStep(lines: seq<Line>)
    requires lines != []
    ensures var n := if lines[0].kind.Item? then ItemLength(lines) else 1;
      Unmanaged(lines) == (if lines[0].kind.Item? && Managed(lines[..n]) then [] else lines[..n]) + Unmanaged(lines[n..])
  {
    hide Managed;
    assert lines[..1] == [lines[0]];
  }

  lemma NoParts()
    ensures ListParts([]) && Whole([]) == [] && Remaining([]) == [] && Unmanaged([]) == []
  {
  }

  /** Parts of a block body, a whole event with all its lines or one line before the first: idle
      events are dropped, the rest is kept. */
  predicate BodyEvents(parts: seq<Part>) {
    forall i :: 0 <= i < |parts| ==>
      var lines := parts[i].lines;
      && lines != []
      && (parts[i].Dropped? <==> Idle(lines[0], lines[1..]))
      && if Found(lines[0], AnyHeader) then Free(lines[1..], AnyHeader) && StartsWithGoal(Whole(parts[i + 1..]), AnyHeader)
         else |lines| == 1
  }

  lemma ConsEvent(p: Part, others: seq<Part>)
    requires BodyEvents(others) && p.lines != []
    requires p.Dropped? <==> Idle(p.lines[0], p.lines[1..])
    requires if Found(p.lines[0], AnyHeader) then Free(p.lines[1..], AnyHeader) && StartsWithGoal(Whole(others), AnyHeader)
             else |p.lines| == 1
    ensures BodyEvents([p] + others)
    ensures Whole([p] + others) == p.lines + Whole(others)
    ensures Remaining([p] + others) == (if p.Kept? then p.lines else []) + Remaining(others)
  {
    hide Idle;
    hide Free;
    hide StartsWithGoal;
    var parts := [p] + others;
    assert parts[1..] == others;
    assert forall i :: 0 <= i < |others| ==> parts[i + 1] == others[i] && parts[i + 2..] == others[i + 1..];
  }

  lemma NoEvents()
    ensures BodyEvents([]) && Whole([]) == [] && Remaining([]) == [] && Pruned([]) == []
  {
  }

  lemma PrunedLine(body: seq<Line>)
    requires body != [] && !Found(body[0], AnyHeader)
    ensures Pruned(body) == [body[0]] + Pruned(body[1..]) && body == [body[0]] + body[1..] && !Idle(body[0], [])
  {
  }

  /** Pruning divides the body into whole events and loose lines and takes out the idle events, nothing else. */
  lemma {:induction false} PrunedEvents(body: seq<Line>) returns (parts: seq<Part>)
    ensures BodyEvents(parts) && Whole(parts) == body && Remaining(parts) == Pruned(body)
    decreases |body|
  {
    hide *;
    if body == [] {
      parts := [];
      NoEvents();
    } else if !Found(body[0], AnyHeader) {
      PrunedLine(body);
      var others := PrunedEvents(body[1..]);
      assert [body[0]][1..] == [];
      ConsEvent(Kept([body[0]]), others);
      parts := [Kept([body[0]])] + others;
    } else {
      var list, tail := DivideBody(body);
      PrunedEvent(body[0], list, tail);
      var others := PrunedEvents(tail);
      var event := [body[0]] + list;
      assert event[1..] == list;
      var p := if Idle(body[0], list) then Dropped(event) else Kept(event);
      ConsEvent(p, others);
      parts := [p] + others;
    }
  }

  /** Removal touches nothing outside the body of the first `hooks:` block. In the body it
      takes managed items out of the first `pre_llm_call` list, then the events left idle;
      only when no more than blank lines remain do these go too, and the header becomes `hooks: {}`. */
  lemma RemovalKeeps(hook: Hook, d: Document) returns (items: seq<Part>, events: seq<Part>)
    requires d.Hooks? && d.Valid()
    ensures var r := Removed(hook, d);
      && r.Hooks? && r.before == d.before && r.after == d.after
      && ListParts(items) && BodyEvents(events)
      && (match FindEvent(d.body)
          case NoEvent => items == [] && Whole(events) == d.body
          case Event(head, header, list, tail) =>
            && d.body == head + [header] + Whole(items) + tail
            && Whole(events) == head + [header] + Remaining(items) + tail)
      && (if AllBlank(Remaining(events)) then r.header == NoHooksLine(hook) && r.body == []
          else r.header == d.header && r.body == Remaining(events))
  {
    hide Pruned;
    hide Unmanaged;
    FindOf(d.body);
    items := [];
    match FindEvent(d.body) {
      case NoEvent =>
      case Event(_, _, list, _) => items := UnmanagedParts(list);
    }
    events := PrunedEvents(CleanBody(d.body));
  }

  // ----- removing twice -----

  lemma DivideItem(lines: seq<Line>) returns (item: seq<Line>, rest: seq<Line>)
    requires lines != [] && lines[0].kind.Item?
    ensures lines == item + rest && item != [] && item[0] == lines[0] && |item| == ItemLength(lines)
    ensures Stops(rest, lines[0].indent)
    ensures ItemTail(item[1..], lines[0].indent) == |item| - 1
    ensures Unmanaged(lines) == (if Managed(item) then [] else item) + Unmanaged(rest)
  {
    hide Unmanaged;
    hide Managed;
    hide Stops;
    hide ItemTail;
    var n := ItemLength(lines);
    item, rest := lines[..n], lines[n..];
    ItemCutAt(lines, item, rest);
    UnmanagedItem(item, rest);
    ItemTailStops(lines[1..], lines[0].indent);
    ItemTailAppend(item[1..], rest, lines[0].indent);
  }

  lemma ItemCutAt(lines: seq<Line>, item: seq<Line>, rest: seq<Line>)
    requires lines != [] && item == lines[..ItemLength(lines)] && rest == lines[ItemLength(lines)..]
    ensures lines == item + rest && lines[1..] == item[1..] + rest && item[0] == lines[0]
    ensures ItemLength(lines) == 1 + ItemTail(lines[1..], lines[0].indent)
    ensures rest == lines[1..][ItemLength(lines) - 1..]
  {
    hide ItemTail;
  }

  lemma {:induction false} UnmanagedStops(lines: seq<Line>, indent: nat)
    requires Stops(lines, indent)
    ensures Stops(Unmanaged(lines), indent)
    decreases |lines|
  {
    if lines != [] && lines[0].kind.Item? {
      var item, rest := DivideItem(lines);
      if Managed(item) {
        UnmanagedStops(rest, indent);
        assert Unmanaged(lines) == Unmanaged(rest);
      } else {
        assert Unmanaged(lines)[0] == item[0];
      }
    }
  }

  lemma {:induction false} UnmanagedTwice(lines: seq<Line>)
    ensures Unmanaged(Unmanaged(lines)) == Unmanaged(lines)
    decreases |lines|
  {
    if lines == [] {
    } else if !lines[0].kind.Item? {
      UnmanagedTwice(lines[1..]);
      assert Unmanaged(lines)[1..] == Unmanaged(lines[1..]);
    } else {
      var item, rest := DivideItem(lines);
      UnmanagedTwice(rest);
      if Managed(item) {
        assert Unmanaged(lines) == Unmanaged(rest);
      } else {
        KeptItem(item, rest);
      }
    }
  }

  lemma KeptItem(item: seq<Line>, rest: seq<Line>)
    requires item != [] && item[0].kind.Item? && !Managed(item)
    requires ItemTail(item[1..], item[0].indent) == |item| - 1 && Stops(rest, item[0].indent)
    requires Unmanaged(Unmanaged(rest)) == Unmanaged(rest)
    ensures Unmanaged(item + Unmanaged(rest)) == item + Unmanaged(rest)
  {
    hide Unmanaged;
    hide Managed;
    UnmanagedStops(rest, item[0].indent);
    ItemLengthAppend(item, Unmanaged(rest));
    UnmanagedItem(item, Unmanaged(rest));
  }

  /** Whether one removal is enough: when the first `pre_llm_call` event goes, an event of the
      same name further down must not have managed items either. */
  predicate OneRemovalSuffices(body: seq<Line>) {
    match FindEvent(body)
    case NoEvent => true
    case Event(head, header, list, tail) =>
      Idle(header, Unmanaged(list)) ==>
        match FindEvent(Pruned(tail))
        case NoEvent => true
        case Event(_, _, second, _) => Unmanaged(second) == second
  }

  /** Removing is idempotent on a file exactly when one removal suffices. */
  lemma RemoveTwice(hook: Hook, d: Document)
    requires d.Hooks? && d.Valid()
    ensures Removed(hook, Removed(hook, d)) == Removed(hook, d) <==> OneRemovalSuffices(d.body)
  {
    hide Pruned;
    hide Unmanaged;
    hide FindEvent;
    hide AllBlank;
    FindOf(d.body);
    RemovedShape(hook, d);
    match FindEvent(d.body)
    case NoEvent =>
      PrunedFree(d.body);
      SettledTwice(hook, d, NoEvent);
    case Event(head, header, list, tail) =>
      var kept := Unmanaged(list);
      assert list[0..] == list;
      UnmanagedFree(list, 0, AnyHeader);
      PrunedFree(head);
      PrunedTwice(head);
      PrunedTwice(tail);
      PrunedSplit(head, header, kept, tail);
      if !Idle(header, kept) {
        UnmanagedTwice(list);
        SettledTwice(hook, d, Event(Pruned(head), header, kept, Pruned(tail)));
      } else {
        SecondEvent(hook, d, Pruned(head), Pruned(tail));
      }
  }

  lemma PrunedFree(body: seq<Line>)
    requires Free(body, PreLlmHeader)
    ensures Free(Pruned(body), PreLlmHeader)
  {
    hide Pruned;
    PrunedIsPart(body);
    var r := Pruned(body);
    forall i | 0 <= i < |r| ensures !Found(r[i], PreLlmHeader) {
      assert r[i] in body;
    }
  }

  lemma PrunedSplit(head: seq<Line>, header: Line, kept: seq<Line>, tail: seq<Line>)
    requires Found(header, AnyHeader) && Free(kept, AnyHeader) && StartsWithGoal(tail, AnyHeader)
    ensures Pruned(head + [header] + kept + tail) ==
      Pruned(head) + (if Idle(header, kept) then [] else [header] + kept) + Pruned(tail)
  {
    hide Pruned;
    var event := [header] + kept + tail;
    assert head + [header] + kept + tail == head + event;
    PrunedAppend(head, event);
    PrunedEvent(header, kept, tail);
  }

  /** Removing again from a pruned body whose event `e` has no managed item left changes nothing. */
  lemma SettledTwice(hook: Hook, d: Document, e: Event)
    requires d.Hooks? && IsPruned(hook, Removed(hook, d))
    requires e.Of(Pruned(CleanBody(d.body))) && (e.Event? ==> Unmanaged(e.list) == e.list)
    ensures Removed(hook, Removed(hook, d)) == Removed(hook, d)
  {
    hide Pruned;
    hide Unmanaged;
    hide FindEvent;
    var body := Pruned(CleanBody(d.body));
    var r := Removed(hook, d);
    if AllBlank(body) {
      FindUnique([], NoEvent);
    } else {
      FindUnique(body, e);
    }
  }

  lemma SecondEvent(hook: Hook, d: Document, head: seq<Line>, tail: seq<Line>)
    requires d.Hooks? && IsPruned(hook, Removed(hook, d))
    requires Free(head, PreLlmHeader) && Pruned(CleanBody(d.body)) == head + [] + tail
    ensures Removed(hook, Removed(hook, d)) == Removed(hook, d) <==>
      match FindEvent(tail) case NoEvent => true case Event(_, _, second, _) => Unmanaged(second) == second
  {
    hide Pruned;
    hide Unmanaged;
    hide FindEvent;
    FindOf(tail);
    assert head + [] + tail == head + tail;
    match FindEvent(tail)
    case NoEvent =>
      SettledTwice(hook, d, NoEvent);
    case Event(h, header, second, t) =>
      var e := Event(head + h, header, second, t);
      assert head + tail == head + h + [header] + second + t;
      if Unmanaged(second) == second {
        SettledTwice(hook, d, e);
      } else {
        FindUnique(head + tail, e);
        NotBlank(head + h, header, second + t);
        assert head + tail == head + h + [header] + (second + t);
        SecondShrinks(hook, d, e);
      }
  }

  lemma SecondShrinks(hook: Hook, d: Document, e: Event)
    requires d.Hooks? && e.Event? && FindEvent(Pruned(CleanBody(d.body))) == e
    requires e.Of(Pruned(CleanBody(d.body))) && !AllBlank(Pruned(CleanBody(d.body))) && Unmanaged(e.list) != e.list
    ensures Removed(hook, Removed(hook, d)) != Removed(hook, d)
  {
    hide Pruned;
    hide Unmanaged;
    hide FindEvent;
    var body := Pruned(CleanBody(d.body));
    UnmanagedIsPart(e.list);
    PrunedIsPart(CleanBody(body));
    assert |CleanBody(body)| < |body|;
  }
}
