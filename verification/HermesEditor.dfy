/** The editor itself: searches for line numbers and splices of the line list, each proved to do
    what the division of the file says. */
module HermesEditor {
  import opened Text
  import opened HermesLines
  import opened HermesConfig
  import opened HermesShape
  import opened HermesLaws

  lemma CountWindow(lines: seq<Line>, lo: nat, hi: nat, i: nat, goal: Goal)
    requires lo <= i <= hi <= |lines|
    requires forall j :: lo <= j < i ==> !Found(lines[j], goal)
    requires i < hi ==> Found(lines[i], goal)
    ensures CountUntil(lines[lo..hi], goal) == i - lo
  {
    assert lines[lo..hi] == lines[lo..i] + lines[i..hi];
    CountAt(lines[lo..i], lines[i..hi], goal);
  }

  /** The first line of `lines[lo..hi]` that meets the goal, or `hi`. */
  method Search(lines: seq<Line>, lo: nat, hi: nat, goal: Goal) returns (i: nat)
    requires lo <= hi <= |lines|
    ensures lo <= i <= hi && i == lo + CountUntil(lines[lo..hi], goal)
    ensures i < hi ==> Found(lines[i], goal)
  {
    i := lo;
    while i < hi && !Found(lines[i], goal)
      invariant lo <= i <= hi
      invariant forall j :: lo <= j < i ==> !Found(lines[j], goal)
    {
      i := i + 1;
    }
    CountWindow(lines, lo, hi, i, goal);
  }

  /** Line numbers of the `hooks:` block: its header and the first line past its body. */
  method TopLevelBlock(lines: seq<Line>) returns (found: bool, start: nat, end: nat)
    ensures var d := ParseDocument(lines);
      && (found <==> d.Hooks?)
      && (found ==> start < end <= |lines| && d == Hooks(lines[..start], lines[start], lines[start + 1..end], lines[end..]))
  {
    start := Search(lines, 0, |lines|, HooksKey);
    assert lines[0..|lines|] == lines;
    found, end := start < |lines|, 0;
    if found {
      end := Search(lines, start + 1, |lines|, AnyTopLevel);
      assert lines[start + 1..|lines|] == lines[start + 1..];
      assert lines[start + 1..][..end - start - 1] == lines[start + 1..end];
      assert lines[start + 1..][end - start - 1..] == lines[end..];
    }
  }

  // ----- deleting while walking -----

  /** The lines around the stretch from `first` to `end` are those around `original[first..last]`. */
  ghost predicate SameAround(lines: seq<Line>, first: nat, end: nat, original: seq<Line>, last: nat) {
    && first <= end <= |lines| && first <= last <= |original|
    && lines[..first] == original[..first] && lines[end..] == original[last..]
  }

  /** What `del lines[i:j]` does to the stretches around the deleted lines. */
  lemma Deletion(lines: seq<Line>, first: nat, i: nat, j: nat, end: nat)
    requires first <= i <= j <= end <= |lines|
    ensures var after := lines[..i] + lines[j..];
      && after[..first] == lines[..first] && after[first..i] == lines[first..i]
      && after[i..end - (j - i)] == lines[j..end] && after[end - (j - i)..] == lines[end..]
  {
  }

  /** Pruning `body` comes to the lines walked past and the pruning of those ahead. */
  ghost predicate PruningLeft(lines: seq<Line>, first: nat, i: nat, end: nat, original: seq<Line>, last: nat) {
    && SameAround(lines, first, end, original, last) && first <= i <= end
    && Pruned(original[first..last]) == lines[first..i] + Pruned(lines[i..end])
  }

  /** The event at line `i`, up to line `j`, is deleted or walked past. */
  lemma PruneStep(lines: seq<Line>, first: nat, i: nat, j: nat, end: nat, original: seq<Line>, last: nat)
    requires PruningLeft(lines, first, i, end, original, last) && i < j <= end
    requires if Found(lines[i], AnyHeader) then j == i + 1 + CountUntil(lines[i + 1..end], AnyHeader) else j == i + 1
    ensures if Idle(lines[i], lines[i + 1..j]) then PruningLeft(lines[..i] + lines[j..], first, i, end - (j - i), original, last)
            else PruningLeft(lines, first, j, end, original, last)
  {
    hide Pruned;
    hide AllBlank;
    hide Idle;
    PrunedAhead(lines, i, j, end);
    Deletion(lines, first, i, j, end);
    assert lines[first..j] == lines[first..i] + ([lines[i]] + lines[i + 1..j]);
  }

  lemma PrunedAhead(lines: seq<Line>, i: nat, j: nat, end: nat)
    requires i < j <= end <= |lines|
    requires if Found(lines[i], AnyHeader) then j == i + 1 + CountUntil(lines[i + 1..end], AnyHeader) else j == i + 1
    ensures Pruned(lines[i..end]) ==
      (if Idle(lines[i], lines[i + 1..j]) then [] else [lines[i]] + lines[i + 1..j]) + Pruned(lines[j..end])
  {
    hide Pruned;
    hide AllBlank;
    var rest, list, tail := lines[i..end], lines[i + 1..j], lines[j..end];
    assert rest[0] == lines[i] && rest[1..] == lines[i + 1..end] == list + tail;
    assert rest == [lines[i]] + list + tail;
    if Found(lines[i], AnyHeader) {
      CountShape(rest[1..], AnyHeader);
      assert rest[1..][..j - i - 1] == list && rest[1..][j - i - 1..] == tail;
      PrunedEvent(lines[i], list, tail);
    } else {
      PrunedOther(rest);
    }
  }

  /** Deletes the idle events among the lines from `first` to `last`. */
  method DropIdle(original: seq<Line>, first: nat, last: nat) returns (lines: seq<Line>, end: nat)
    requires first <= last <= |original|
    ensures SameAround(lines, first, end, original, last) && lines[first..end] == Pruned(original[first..last])
  {
    lines, end := original, last;
    var i := first;
    assert PruningLeft(lines, first, i, end, original, last);
    hide PruningLeft;
    hide SameAround;
    hide Pruned;
    hide AllBlank;
    hide CountUntil;
    while i < end
      invariant first <= i <= end <= |lines| && PruningLeft(lines, first, i, end, original, last)
      decreases end - i
    {
      if !Found(lines[i], AnyHeader) {
        PruneStep(lines, first, i, i + 1, end, original, last);
        i := i + 1;
        continue;
      }
      var eventEnd := Search(lines, i + 1, end, AnyHeader);
      PruneStep(lines, first, i, eventEnd, end, original, last);
      if !lines[i].kind.open || !AllBlank(lines[i + 1..eventEnd]) {
        i := eventEnd;
        continue;
      }
      lines, end := lines[..i] + lines[eventEnd..], end - (eventEnd - i);
    }
    PruneEnd(lines, first, end, original, last);
  }

  lemma PruneEnd(lines: seq<Line>, first: nat, end: nat, original: seq<Line>, last: nat)
    requires PruningLeft(lines, first, end, end, original, last)
    ensures SameAround(lines, first, end, original, last) && lines[first..end] == Pruned(original[first..last])
  {
  }

  /** Deletes the idle events of the block, and the block's content when only blank lines are left. */
  method PruneEmptyHooks(hook: Hook, original: seq<Line>) returns (text: string)
    ensures var d := ParseDocument(original); text == ToText(if d.Plain? then original else Prune(hook, d).Lines())
  {
    hide Pruned;
    hide ParseDocument;
    hide ToText;
    var lines := original;
    var found, start, end := TopLevelBlock(lines);
    if !found { return ToText(lines); }
    ghost var d := ParseDocument(lines);
    lines, end := DropIdle(lines, start + 1, end);
    assert lines[..start + 1] == d.before + [d.header];
    assert lines[..start] == lines[..start + 1][..start];
    assert lines == lines[..start + 1] + lines[start + 1..end] + lines[end..];
    if AllBlank(lines[start + 1..end]) {
      lines := lines[..start] + [NoHooksLine(hook)] + lines[end..];
      assert lines == d.before + [NoHooksLine(hook)] + [] + d.after;
    }
    return ToText(lines);
  }

  lemma PrunedOther(body: seq<Line>)
    requires body != [] && !Found(body[0], AnyHeader)
    ensures Pruned(body) == [body[0]] + Pruned(body[1..])
  {
  }

  /** The end of the list item that starts at line `i`. */
  method ItemEnd(lines: seq<Line>, i: nat, eventEnd: nat) returns (itemEnd: nat)
    requires i < eventEnd <= |lines|
    ensures i < itemEnd <= eventEnd && itemEnd == i + ItemLength(lines[i..eventEnd])
  {
    itemEnd := i + 1;
    assert lines[i..eventEnd][1..] == lines[itemEnd..eventEnd];
    while itemEnd < eventEnd
      invariant i < itemEnd <= eventEnd
      invariant ItemLength(lines[i..eventEnd]) == itemEnd - i + ItemTail(lines[itemEnd..eventEnd], lines[i].indent)
    {
      assert lines[itemEnd..eventEnd][0] == lines[itemEnd];
      assert lines[itemEnd..eventEnd][1..] == lines[itemEnd + 1..eventEnd];
      if !lines[itemEnd].kind.Empty? && lines[itemEnd].indent <= lines[i].indent { break; }
      itemEnd := itemEnd + 1;
    }
  }

  /** Cleaning `list` comes to the lines walked past and the cleaning of those ahead. */
  ghost predicate CleaningLeft(lines: seq<Line>, first: nat, i: nat, end: nat, original: seq<Line>, last: nat) {
    && SameAround(lines, first, end, original, last) && first <= i <= end
    && Unmanaged(original[first..last]) == lines[first..i] + Unmanaged(lines[i..end])
  }

  /** The item at line `i`, up to line `j`, or the one line there, is deleted or walked past. */
  lemma CleanStep(lines: seq<Line>, first: nat, i: nat, j: nat, end: nat, original: seq<Line>, last: nat)
    requires CleaningLeft(lines, first, i, end, original, last) && i < j <= end
    requires j == if lines[i].kind.Item? then i + ItemLength(lines[i..end]) else i + 1
    ensures if lines[i].kind.Item? && Managed(lines[i..j]) then CleaningLeft(lines[..i] + lines[j..], first, i, end - (j - i), original, last)
            else CleaningLeft(lines, first, j, end, original, last)
  {
    hide Unmanaged;
    hide Managed;
    var rest, item := lines[i..end], lines[i..j];
    assert rest[0] == lines[i] && rest == item + lines[j..end];
    if lines[i].kind.Item? {
      UnmanagedItem(item, lines[j..end]);
    } else {
      UnmanagedOther(rest);
      assert rest[1..] == lines[j..end] && item == [lines[i]];
    }
    Deletion(lines, first, i, j, end);
    assert lines[first..j] == lines[first..i] + item;
  }

  /** Deletes the managed items between `first` and `last`, line numbers of the event's list. */
  method DropManaged(original: seq<Line>, first: nat, last: nat) returns (lines: seq<Line>)
    requires first <= last <= |original|
    ensures lines == original[..first] + Unmanaged(original[first..last]) + original[last..]
  {
    lines := original;
    var i, eventEnd := first, last;
    assert CleaningLeft(lines, first, i, eventEnd, original, last);
    hide CleaningLeft;
    hide SameAround;
    hide Managed;
    hide Unmanaged;
    hide ItemLength;
    while i < eventEnd
      invariant first <= i <= eventEnd <= |lines| && CleaningLeft(lines, first, i, eventEnd, original, last)
      decreases eventEnd - i
    {
      if !lines[i].kind.Item? {
        CleanStep(lines, first, i, i + 1, eventEnd, original, last);
        i := i + 1;
        continue;
      }
      var itemEnd := ItemEnd(lines, i, eventEnd);
      CleanStep(lines, first, i, itemEnd, eventEnd, original, last);
      if Managed(lines[i..itemEnd]) {
        lines, eventEnd := lines[..i] + lines[itemEnd..], eventEnd - (itemEnd - i);
        continue;
      }
      i := itemEnd;
    }
    CleanEnd(lines, first, eventEnd, original, last);
  }

  lemma CleanEnd(lines: seq<Line>, first: nat, end: nat, original: seq<Line>, last: nat)
    requires CleaningLeft(lines, first, end, end, original, last)
    ensures first <= last <= |original|
    ensures lines == original[..first] + Unmanaged(original[first..last]) + original[last..]
  {
    assert lines == lines[..first] + lines[first..end] + lines[end..];
  }

  method RemoveManagedConfig(hook: Hook, current: string) returns (r: string)
    ensures r == RemovedText(hook, current)
  {
    hide ParseDocument;
    hide Removed;
    hide ScanAll;
    hide ToText;
    var text := Rendered(current);
    var lines := ScanAll(hook, SplitLines(text));
    var found, start, end := TopLevelBlock(lines);
    if !found { return text; }
    r := RemoveFromBlock(hook, lines, start, end);
  }

  method RemoveFromBlock(hook: Hook, original: seq<Line>, start: nat, end: nat) returns (text: string)
    requires start < end <= |original|
    requires ParseDocument(original) == Hooks(original[..start], original[start], original[start + 1..end], original[end..])
    ensures text == ToText(Removed(hook, ParseDocument(original)).Lines())
  {
    hide ParseDocument;
    hide Prune;
    hide FindEvent;
    hide Unmanaged;
    hide ToText;
    hide Found;
    hide CountUntil;
    var lines := original;
    ghost var d := ParseDocument(lines);
    ParseOf(lines);
    var eventStart := Search(lines, start + 1, end, PreLlmHeader);
    if eventStart == end {
      NoEventAt(d.body);
      assert d.(body := CleanBody(d.body)) == d;
      text := PruneEmptyHooks(hook, lines);
      return;
    }
    var eventEnd := Search(lines, eventStart + 1, end, AnyHeader);
    EventAt(lines, start, end, eventStart, eventEnd);
    CleanAt(hook, lines, d, start, end, eventStart, eventEnd);
    lines := DropManaged(lines, eventStart + 1, eventEnd);
    text := PruneEmptyHooks(hook, lines);
  }

  lemma NoEventAt(body: seq<Line>)
    ensures CountUntil(body, PreLlmHeader) == |body| <==> FindEvent(body) == NoEvent
  {
  }

  lemma EventAt(lines: seq<Line>, start: nat, end: nat, eventStart: nat, eventEnd: nat)
    requires start < eventStart < eventEnd <= end <= |lines|
    requires eventStart == start + 1 + CountUntil(lines[start + 1..end], PreLlmHeader)
    requires eventEnd == eventStart + 1 + CountUntil(lines[eventStart + 1..end], AnyHeader)
    ensures FindEvent(lines[start + 1..end]) ==
      Event(lines[start + 1..eventStart], lines[eventStart], lines[eventStart + 1..eventEnd], lines[eventEnd..end])
  {
    hide CountUntil;
    Cuts(lines, start + 1, eventStart, end);
    Cuts(lines, eventStart + 1, eventEnd, end);
    var body := lines[start + 1..end];
    assert body[eventStart - start - 1 + 1..] == lines[eventStart + 1..end];
  }

  /** Cutting a stretch of lines at line `j`. */
  lemma Cuts(lines: seq<Line>, i: nat, j: nat, k: nat)
    requires i <= j <= k <= |lines|
    ensures lines[i..k][..j - i] == lines[i..j] && lines[i..k][j - i..] == lines[j..k]
    ensures j < k ==> lines[i..k][j - i] == lines[j]
  {
  }

  lemma CleanAt(hook: Hook, lines: seq<Line>, d: Document, start: nat, end: nat, eventStart: nat, eventEnd: nat)
    requires start < eventStart < eventEnd <= end <= |lines|
    requires d == Hooks(lines[..start], lines[start], lines[start + 1..end], lines[end..]) && d.Valid()
    requires FindEvent(d.body) ==
      Event(lines[start + 1..eventStart], lines[eventStart], lines[eventStart + 1..eventEnd], lines[eventEnd..end])
    ensures ParseDocument(lines[..eventStart + 1] + Unmanaged(lines[eventStart + 1..eventEnd]) + lines[eventEnd..])
      == d.(body := CleanBody(d.body))
  {
    hide Unmanaged;
    hide FindEvent;
    var kept := Unmanaged(lines[eventStart + 1..eventEnd]);
    var clean := d.(body := CleanBody(d.body));
    CleanBodyIsPart(d.body);
    forall i | 0 <= i < |clean.body| ensures !Found(clean.body[i], AnyTopLevel) {
      assert clean.body[i] in d.body;
    }
    assert lines[..eventStart + 1] == d.before + [d.header] + (lines[start + 1..eventStart] + [lines[eventStart]]);
    assert lines[eventEnd..] == lines[eventEnd..end] + d.after;
    assert clean.Lines() == lines[..eventStart + 1] + kept + lines[eventEnd..];
    ParseUnique(clean);
  }

  /** The block of `lines`, its event from line `at` to line `to`. */
  predicate BlockAt(lines: seq<Line>, d: Document, start: nat, end: nat) {
    start < end <= |lines| && d == Hooks(lines[..start], lines[start], lines[start + 1..end], lines[end..])
  }

  lemma SpliceEnd(lines: seq<Line>, d: Document, start: nat, end: nat, piece: seq<Line>)
    requires BlockAt(lines, d, start, end)
    ensures lines[..end] + piece + lines[end..] == d.before + [d.header] + (d.body + piece) + d.after
  {
  }

  lemma SpliceHeader(lines: seq<Line>, d: Document, start: nat, end: nat, at: nat, to: nat, piece: seq<Line>)
    requires BlockAt(lines, d, start, end) && start < at < to <= end
    ensures lines[..at] + piece + lines[at + 1..] ==
      d.before + [d.header] + (lines[start + 1..at] + piece + lines[at + 1..to] + lines[to..end]) + d.after
  {
    assert lines[..at] == lines[..start] + [lines[start]] + lines[start + 1..at];
    assert lines[at + 1..] == lines[at + 1..to] + lines[to..end] + lines[end..];
  }

  lemma SpliceList(lines: seq<Line>, d: Document, start: nat, end: nat, at: nat, to: nat, piece: seq<Line>)
    requires BlockAt(lines, d, start, end) && start < at < to <= end
    ensures lines[..to] + piece + lines[to..] ==
      d.before + [d.header] + (lines[start + 1..at] + [lines[at]] + lines[at + 1..to] + piece + lines[to..end]) + d.after
  {
    assert lines[..to] == lines[..start] + [lines[start]] + (lines[start + 1..at] + [lines[at]] + lines[at + 1..to]);
    assert lines[to..] == lines[to..end] + lines[end..];
  }

  method MergeManagedConfig(hook: Hook, current: string) returns (r: Result<string>)
    ensures r == MergedText(hook, current)
  {
    hide RemovedText;
    hide ScanAll;
    hide ToText;
    var removed := RemoveManagedConfig(hook, current);
    var text := Rendered(removed);
    var lines := ScanAll(hook, SplitLines(text));
    var merged := InsertManaged(hook, lines);
    match merged
    case Ok(result) => return Ok(ToText(result));
    case Inline(event) => return Inline(event);
  }

  method InsertManaged(hook: Hook, original: seq<Line>) returns (r: Result<seq<Line>>)
    ensures r == Inserted(hook, ParseDocument(original))
  {
    hide ParseDocument;
    hide FindEvent;
    hide IsEmptyValue;
    hide IsBareKey;
    hide IsEmptyList;
    hide Scan;
    var lines := original;
    ghost var d := ParseDocument(lines);
    ParseOf(lines);
    var found, start, end := TopLevelBlock(lines);
    if !found {
      if lines != [] && !lines[|lines| - 1].kind.Empty? {
        lines := lines + [Scan(hook, "")];
      }
      assert original + [] == original;
      return Ok(lines + ManagedBlock(hook));
    }
    if IsEmptyValue(lines[start], HOOKS_KEY) {
      lines := lines[..start] + ManagedBlock(hook) + lines[start + 1..];
      assert lines == d.before + ManagedBlock(hook) + d.body + d.after;
      return Ok(lines);
    } else if !IsBareKey(lines[start], HOOKS_KEY) {
      return Inline(false);
    }
    var body := InsertEvent(hook, lines, start, end, d);
    return body;
  }

  method InsertEvent(hook: Hook, lines: seq<Line>, start: nat, end: nat, ghost d: Document) returns (r: Result<seq<Line>>)
    requires BlockAt(lines, d, start, end)
    ensures r == match InsertedBody(hook, d.body)
      case Ok(b) => Ok(d.before + [d.header] + b + d.after)
      case Inline(event) => Inline(event)
  {
    hide FindEvent;
    hide IsBareKey;
    hide IsEmptyList;
    hide ManagedEvent;
    hide ManagedLines;
    var eventStart := Search(lines, start + 1, end, PreLlmHeader);
    if eventStart == end {
      NoEventAt(d.body);
      SpliceEnd(lines, d, start, end, ManagedEvent(hook));
      return Ok(lines[..end] + ManagedEvent(hook) + lines[end..]);
    }
    var insertAt := Search(lines, eventStart + 1, end, AnyHeader);
    EventAt(lines, start, end, eventStart, insertAt);
    if IsEmptyList(lines[eventStart]) {
      SpliceHeader(lines, d, start, end, eventStart, insertAt, ManagedEvent(hook));
      return Ok(lines[..eventStart] + ManagedEvent(hook) + lines[eventStart + 1..]);
    } else if !IsBareKey(lines[eventStart], PRE_LLM_KEY) {
      return Inline(true);
    }
    SpliceList(lines, d, start, end, eventStart, insertAt, ManagedLines(hook));
    return Ok(lines[..insertAt] + ManagedLines(hook) + lines[insertAt..]);
  }
}
