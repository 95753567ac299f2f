/** The ordinary config file, on which installing the hook again changes nothing. */
module HermesBlockStyle {
  import opened HermesLines
  import opened HermesConfig
  import opened HermesShape
  import opened HermesLaws
  import opened HermesRemoval
  import opened HermesLosses

  /** Every item of the list is indented at least as far as the managed item is. */
  predicate DeepItems(list: seq<Line>) {
    forall i :: 0 <= i < |list| && list[i].kind.Item? ==> list[i].indent >= 4
  }

  /** A file in block style: no `hooks:` key; or an empty `hooks:` value over nothing; or a plain `hooks:` line, and
      under it either no `pre_llm_call` event or one, a plain line over items indented by four or more. */
  predicate BlockStyle(d: Document) {
    d.Plain?
    || (IsEmptyValue(d.header, HOOKS_KEY) && AllBlank(d.body))
    || (IsBareKey(d.header, HOOKS_KEY)
        && match FindEvent(d.body)
           case NoEvent => true
           case Event(_, header, list, tail) =>
             IsBareKey(header, PRE_LLM_KEY) && DeepItems(list) && Free(tail, PreLlmHeader))
  }

  lemma {:induction false} DeepIsSettled(list: seq<Line>)
    requires DeepItems(list) && Unmanaged(list) == list
    ensures Settled(list)
    decreases |list|
  {
    if list == [] {
    } else if !list[0].kind.Item? {
      assert list == [list[0]] + list[1..];
      DeepIsSettled(list[1..]);
    } else {
      var n := ItemLength(list);
      assert list == list[..n] + list[n..];
      assert |Unmanaged(list[n..])| <= |list| - n;
      DeepIsSettled(list[n..]);
    }
  }

  /** What removal leaves of a list in block style is settled. */
  lemma KeptIsSettled(list: seq<Line>)
    requires DeepItems(list)
    ensures Settled(Unmanaged(list))
  {
    hide Unmanaged;
    hide Settled;
    UnmanagedIsPart(list);
    UnmanagedTwice(list);
    var kept := Unmanaged(list);
    forall i | 0 <= i < |kept| && kept[i].kind.Item? ensures kept[i].indent >= 4 {
      assert kept[i] in list;
    }
    DeepIsSettled(kept);
  }

  /** After removal: a plain `hooks:` line over what the removal left. */
  predicate Ready(hook: Hook, r: Document) {
    r.Plain?
    || (IsEmptyValue(r.header, HOOKS_KEY) && r.body == [])
    || (IsBareKey(r.header, HOOKS_KEY)
        && match FindEvent(r.body)
           case NoEvent => true
           case Event(_, header, list, _) => IsBareKey(header, PRE_LLM_KEY) && Settled(list))
  }

  lemma ReadyIsStable(hook: Hook, r: Document)
    requires Ready(hook, r)
    ensures InstallStable(hook, r) && Inserted(hook, r).Ok?
  {
    hide IsBareKey;
    hide IsEmptyValue;
    hide IsEmptyList;
    hide FindEvent;
    hide Settled;
    hide Scan;
    if r.Hooks? {
      HeaderValues(hook, r.header);
      if FindEvent(r.body).Event? {
        HeaderValues(hook, FindEvent(r.body).header);
      }
    }
  }

  /** The file after removal, when nothing or something is left of the block. */
  lemma LeftIsReady(hook: Hook, d: Document)
    requires d.Hooks?
    requires var body := Pruned(CleanBody(d.body));
      AllBlank(body) || (IsBareKey(d.header, HOOKS_KEY) && Ready(hook, d.(body := body)))
    ensures Ready(hook, Removed(hook, d))
  {
    hide *;
    RemovedIs(hook, d);
    HeaderValues(hook, d.header);
    EmptiedIsReady(hook, d);
  }

  lemma EmptiedIsReady(hook: Hook, d: Document)
    requires d.Hooks? && IsEmptyValue(NoHooksLine(hook), HOOKS_KEY)
    ensures Ready(hook, d.(header := NoHooksLine(hook), body := []))
  {
    hide IsEmptyValue;
  }

  lemma BlankIsLeft(body: seq<Line>)
    requires AllBlank(body)
    ensures AllBlank(Pruned(CleanBody(body)))
  {
    hide Pruned;
    CleanBodyIsPart(body);
    PrunedIsPart(CleanBody(body));
    var r := Pruned(CleanBody(body));
    forall i | 0 <= i < |r| ensures r[i].kind.Empty? {
      assert r[i] in body;
    }
  }

  lemma NoEventLeft(hook: Hook, d: Document)
    requires d.Hooks? && IsBareKey(d.header, HOOKS_KEY) && FindEvent(d.body).NoEvent?
    ensures Ready(hook, d.(body := Pruned(CleanBody(d.body))))
  {
    hide Pruned;
    hide IsBareKey;
    hide IsEmptyValue;
    hide FindEvent;
    FindOf(d.body);
    PrunedFree(d.body);
    FindUnique(Pruned(d.body), NoEvent);
  }

  lemma EventLeft(hook: Hook, d: Document, e: Event)
    requires d.Hooks? && IsBareKey(d.header, HOOKS_KEY) && FindEvent(d.body) == e && e.Event? && e.Of(d.body)
    requires IsBareKey(e.header, PRE_LLM_KEY) && DeepItems(e.list) && Free(e.tail, PreLlmHeader)
    ensures Ready(hook, d.(body := Pruned(CleanBody(d.body))))
  {
    EventParts(d.body, e);
    hide *;
    var head, kept, tail := Pruned(e.head), Unmanaged(e.list), Pruned(e.tail);
    EventIs(d.body, e.head, e.header, e.list, e.tail);
    KeptIsSettled(e.list);
    KeptIsFree(e.list);
    PrunedFree(e.head);
    PrunedFree(e.tail);
    PrunedTwice(e.tail);
    PrunedSplit(e.head, e.header, kept, e.tail);
    if Idle(e.header, kept) {
      EventGone(hook, d, head, tail);
    } else {
      EventStays(hook, d, head, e.header, kept, tail);
    }
  }

  lemma EventParts(body: seq<Line>, e: Event)
    requires e.Event? && e.Of(body)
    ensures body == e.head + [e.header] + e.list + e.tail && Event(e.head, e.header, e.list, e.tail).Of(body)
    ensures Free(e.head, PreLlmHeader) && Found(e.header, PreLlmHeader) && Free(e.list, AnyHeader) && StartsWithGoal(e.tail, AnyHeader)
  {
  }

  lemma EventGone(hook: Hook, d: Document, head: seq<Line>, tail: seq<Line>)
    requires d.Hooks? && IsBareKey(d.header, HOOKS_KEY) && Free(head, PreLlmHeader) && Free(tail, PreLlmHeader)
    ensures Ready(hook, d.(body := head + [] + tail))
  {
    hide IsBareKey;
    hide IsEmptyValue;
    hide FindEvent;
    FindUnique(head + [] + tail, NoEvent);
  }

  lemma EventStays(hook: Hook, d: Document, head: seq<Line>, header: Line, kept: seq<Line>, tail: seq<Line>)
    requires d.Hooks? && IsBareKey(d.header, HOOKS_KEY) && IsBareKey(header, PRE_LLM_KEY) && Settled(kept)
    requires Free(head, PreLlmHeader) && Found(header, PreLlmHeader) && Free(kept, AnyHeader) && StartsWithGoal(tail, AnyHeader)
    ensures Ready(hook, d.(body := head + ([header] + kept) + tail))
  {
    hide IsBareKey;
    hide IsEmptyValue;
    hide FindEvent;
    hide Settled;
    hide Free;
    assert head + ([header] + kept) + tail == head + [header] + kept + tail;
    FindUnique(head + [header] + kept + tail, Event(head, header, kept, tail));
  }

  lemma StyleIsReady(hook: Hook, d: Document)
    requires BlockStyle(d)
    ensures Ready(hook, Removed(hook, d))
  {
    hide AllBlank;
    hide Pruned;
    hide CleanBody;
    hide FindEvent;
    hide IsBareKey;
    hide IsEmptyValue;
    hide DeepItems;
    hide Ready;
    if d.Plain? {
      PlainIsReady(hook, d);
    } else if IsEmptyValue(d.header, HOOKS_KEY) && AllBlank(d.body) {
      BlankIsLeft(d.body);
      LeftIsReady(hook, d);
    } else {
      FindOf(d.body);
      if FindEvent(d.body).NoEvent? {
        NoEventLeft(hook, d);
      } else {
        EventLeft(hook, d, FindEvent(d.body));
      }
      LeftIsReady(hook, d);
    }
  }

  lemma PlainIsReady(hook: Hook, d: Document)
    requires d.Plain?
    ensures Ready(hook, Removed(hook, d))
  {
  }

  /** On a file in block style, which one can see before the first install, installing succeeds, and installing twice
      gives exactly the lines of installing once. */
  lemma BlockStyleTwice(hook: Hook, lines: seq<Line>)
    requires BlockStyle(ParseDocument(lines))
    ensures Merged(hook, lines).Ok? && Merged(hook, Merged(hook, lines).value) == Merged(hook, lines)
  {
    StyleIsReady(hook, ParseDocument(lines));
    assert Merged(hook, lines) == Inserted(hook, Removed(hook, ParseDocument(lines)));
    hide *;
    ReadyIsStable(hook, Removed(hook, ParseDocument(lines)));
    InstallTwice(hook, lines);
  }

  /** The file that the installer writes into an empty one is in block style. */
  lemma OwnFileIsBlockStyle(hook: Hook)
    ensures BlockStyle(ParseDocument(ManagedBlock(hook)))
  {
    var h, pre, m := HooksLine(hook), PreLlmLine(hook), ManagedLines(hook);
    HooksShape(hook);
    HeaderValues(hook, h);
    ManagedIsDeep(hook);
    assert ManagedBlock(hook) == [h] + ([pre] + m);
    hide *;
    ManagedLinesItem(hook);
    var d := Hooks([], h, [pre] + m, []);
    ItemBlock(d, pre, m);
    OneItem(d, pre, m);
  }

  lemma ManagedIsDeep(hook: Hook)
    ensures DeepItems(ManagedLines(hook))
  {
    hide Scan;
    ManagedShape(hook);
  }

  lemma OneItem(d: Document, pre: Line, list: seq<Line>)
    requires d.Hooks? && IsBareKey(d.header, HOOKS_KEY) && FindEvent(d.body) == Event([], pre, list, [])
    requires IsBareKey(pre, PRE_LLM_KEY) && DeepItems(list)
    ensures BlockStyle(d)
  {
    hide IsBareKey;
    hide IsEmptyValue;
    hide FindEvent;
    hide DeepItems;
  }
}
