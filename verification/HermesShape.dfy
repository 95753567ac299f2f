/** How the divisions of a Hermes config file behave: they are unique, removal works item
    by item, and pruning works event by event. */
module HermesShape {
  import opened HermesLines
  import opened HermesConfig

  // ----- the divisions are unique -----

  lemma {:induction false} CountAt(a: seq<Line>, b: seq<Line>, goal: Goal)
    requires Free(a, goal) && StartsWithGoal(b, goal)
    ensures CountUntil(a + b, goal) == |a|
  {
    if a == [] {
      assert a + b == b;
    } else {
      assert (a + b)[1..] == a[1..] + b;
      CountAt(a[1..], b, goal);
    }
  }

  /** A list of lines has one division around its `hooks:` block. */
  lemma ParseUnique(d: Document)
    requires d.Valid()
    ensures ParseDocument(d.Lines()) == d
  {
    match d
    case Plain(lines) =>
      assert lines + [] == lines;
      CountAt(lines, [], HooksKey);
    case Hooks(before, header, body, after) =>
      var rest := body + after;
      assert d.Lines() == before + ([header] + rest);
      CountAt(before, [header] + rest, HooksKey);
      assert d.Lines()[|before| + 1..] == rest;
      CountAt(body, after, AnyTopLevel);
      assert rest[..|body|] == body && rest[|body|..] == after;
  }

  lemma {:induction false} CountShape(lines: seq<Line>, goal: Goal)
    ensures var n := CountUntil(lines, goal);
      Free(lines[..n], goal) && StartsWithGoal(lines[n..], goal) && lines[..n] + lines[n..] == lines
  {
    if lines != [] && !Found(lines[0], goal) {
      CountShape(lines[1..], goal);
      var n := CountUntil(lines, goal);
      assert lines[..n] == [lines[0]] + lines[1..][..n - 1];
      assert lines[n..] == lines[1..][n - 1..];
    }
  }

  /** The block that follows a `hooks:` line. */
  lemma BlockOf(before: seq<Line>, header: Line, rest: seq<Line>)
    requires Free(before, HooksKey) && Found(header, HooksKey)
    ensures var n := CountUntil(rest, AnyTopLevel);
      var d := Hooks(before, header, rest[..n], rest[n..]);
      d.Valid() && d.Lines() == before + [header] + rest
  {
    hide CountUntil;
    CountShape(rest, AnyTopLevel);
    var n := CountUntil(rest, AnyTopLevel);
    assert before + [header] + rest[..n] + rest[n..] == before + [header] + (rest[..n] + rest[n..]);
  }

  lemma PlainOf(lines: seq<Line>)
    requires CountUntil(lines, HooksKey) == |lines|
    ensures Plain(lines).Valid() && ParseDocument(lines) == Plain(lines)
  {
    hide CountUntil;
    CountShape(lines, HooksKey);
    assert lines[..|lines|] == lines;
  }

  lemma ParseOf(lines: seq<Line>)
    ensures ParseDocument(lines).Valid() && ParseDocument(lines).Lines() == lines
  {
    hide *;
    var start := CountUntil(lines, HooksKey);
    if start < |lines| {
      CountShape(lines, HooksKey);
      FirstFound(lines[start..], HooksKey);
      BlockOf(lines[..start], lines[start], lines[start + 1..]);
      BlockParsed(lines);
      assert lines == lines[..start] + [lines[start]] + lines[start + 1..];
    } else {
      PlainOf(lines);
      PlainLines(lines);
    }
  }

  lemma PlainLines(lines: seq<Line>)
    ensures Plain(lines).Lines() == lines
  {
  }

  lemma FirstFound(lines: seq<Line>, goal: Goal)
    requires lines != [] && StartsWithGoal(lines, goal)
    ensures Found(lines[0], goal)
  {
  }

  lemma BlockParsed(lines: seq<Line>)
    requires CountUntil(lines, HooksKey) < |lines|
    ensures var start := CountUntil(lines, HooksKey);
      var rest := lines[start + 1..];
      var n := CountUntil(rest, AnyTopLevel);
      ParseDocument(lines) == Hooks(lines[..start], lines[start], rest[..n], rest[n..])
  {
    hide CountUntil;
  }

  lemma FindOf(body: seq<Line>)
    ensures FindEvent(body).Of(body)
  {
    var start := CountUntil(body, PreLlmHeader);
    CountShape(body, PreLlmHeader);
    if start < |body| {
      hide *;
      FirstFound(body[start..], PreLlmHeader);
      EventOf(body[..start], body[start], body[start + 1..]);
      EventParsed(body);
      assert body == body[..start] + [body[start]] + body[start + 1..];
    } else {
      hide CountUntil;
      assert body[..start] == body;
    }
  }

  /** The event that a `pre_llm_call` line opens. */
  lemma EventOf(head: seq<Line>, header: Line, rest: seq<Line>)
    requires Free(head, PreLlmHeader) && Found(header, PreLlmHeader)
    ensures var n := CountUntil(rest, AnyHeader);
      Event(head, header, rest[..n], rest[n..]).Of(head + [header] + rest)
  {
    hide CountUntil;
    CountShape(rest, AnyHeader);
    var n := CountUntil(rest, AnyHeader);
    assert head + [header] + rest[..n] + rest[n..] == head + [header] + (rest[..n] + rest[n..]);
  }

  lemma EventParsed(body: seq<Line>)
    requires CountUntil(body, PreLlmHeader) < |body|
    ensures var start := CountUntil(body, PreLlmHeader);
      var rest := body[start + 1..];
      var n := CountUntil(rest, AnyHeader);
      FindEvent(body) == Event(body[..start], body[start], rest[..n], rest[n..])
  {
    hide CountUntil;
  }

  /** A block body has one division around its first `pre_llm_call` event. */
  lemma FindUnique(body: seq<Line>, e: Event)
    requires e.Of(body)
    ensures FindEvent(body) == e
  {
    match e
    case NoEvent =>
      assert body + [] == body;
      CountAt(body, [], PreLlmHeader);
    case Event(head, header, list, tail) =>
      var rest := list + tail;
      assert body == head + ([header] + rest);
      CountAt(head, [header] + rest, PreLlmHeader);
      assert body[|head| + 1..] == rest;
      CountAt(list, tail, AnyHeader);
      assert rest[..|list|] == list && rest[|list|..] == tail;
  }

  // ----- list items -----

  lemma {:induction false} ItemTailAppend(a: seq<Line>, b: seq<Line>, indent: nat)
    ensures ItemTail(a + b, indent) == if ItemTail(a, indent) < |a| then ItemTail(a, indent) else |a| + ItemTail(b, indent)
  {
    if a == [] {
      assert a + b == b;
    } else {
      assert (a + b)[1..] == a[1..] + b;
      ItemTailAppend(a[1..], b, indent);
    }
  }

  lemma ItemLengthAppend(a: seq<Line>, b: seq<Line>)
    requires a != []
    ensures ItemLength(a + b) == if ItemLength(a) < |a| then ItemLength(a) else |a| + ItemTail(b, a[0].indent)
  {
    assert (a + b)[1..] == a[1..] + b;
    ItemTailAppend(a[1..], b, a[0].indent);
  }

  lemma {:induction false} ItemTailAll(lines: seq<Line>, indent: nat)
    requires forall i :: 0 <= i < |lines| ==> lines[i].indent > indent
    ensures ItemTail(lines, indent) == |lines|
  {
    if lines != [] { ItemTailAll(lines[1..], indent); }
  }

  /** Removal keeps lines in place or drops them; it never adds or changes one. */
  lemma {:induction false} UnmanagedIsPart(lines: seq<Line>)
    ensures forall x :: x in Unmanaged(lines) ==> x in lines
    ensures |Unmanaged(lines)| == |lines| ==> Unmanaged(lines) == lines
    decreases |lines|
  {
    if lines == [] {
    } else if !lines[0].kind.Item? {
      UnmanagedIsPart(lines[1..]);
      assert lines == [lines[0]] + lines[1..];
    } else {
      var n := ItemLength(lines);
      UnmanagedIsPart(lines[n..]);
      assert lines == lines[..n] + lines[n..];
    }
  }

  lemma UnmanagedFree(lines: seq<Line>, k: nat, goal: Goal)
    requires Free(lines, goal) && k <= |lines|
    ensures Free(Unmanaged(lines[k..]), goal)
  {
    hide Unmanaged;
    UnmanagedIsPart(lines[k..]);
    var r := Unmanaged(lines[k..]);
    forall i | 0 <= i < |r| ensures !Found(r[i], goal) {
      assert r[i] in lines[k..];
    }
  }

  /** A list item as the installer writes it: indented by 4, its other lines deeper. */
  predicate ManagedItem(m: seq<Line>) {
    && m != [] && m[0].kind.Item? && m[0].indent == 4
    && (forall i :: 1 <= i < |m| ==> m[i].indent > 4)
    && Managed(m)
  }

  lemma ManagedWider(item: seq<Line>, left: seq<Line>, right: seq<Line>)
    requires Managed(item)
    ensures Managed(left + item + right)
  {
    var i :| 0 <= i < |item| && item[i].managed;
    assert (left + item + right)[|left| + i] == item[i];
  }

  lemma UnmanagedItem(item: seq<Line>, rest: seq<Line>)
    requires item != [] && item[0].kind.Item? && ItemLength(item + rest) == |item|
    ensures Unmanaged(item + rest) == (if Managed(item) then [] else item) + Unmanaged(rest)
  {
    assert (item + rest)[..|item|] == item && (item + rest)[|item|..] == rest;
  }

  /** A managed item in front of a list goes, together with the blank and deeper lines behind it. */
  lemma ManagedInFront(m: seq<Line>, rest: seq<Line>)
    requires ManagedItem(m)
    ensures Unmanaged(m + rest) == Unmanaged(rest[ItemTail(rest, 4)..])
  {
    hide Unmanaged;
    hide Managed;
    hide ItemTail;
    ItemTailAll(m[1..], 4);
    ItemLengthAppend(m, rest);
    var k := ItemTail(rest, 4);
    var item := m + rest[..k];
    ManagedWider(m, [], rest[..k]);
    assert [] + m + rest[..k] == item;
    assert m + rest == item + rest[k..];
    UnmanagedItem(item, rest[k..]);
  }

  /** Every item is foreign, and an item that runs to the end of the list is indented
      at least as far as the managed item is. */
  predicate Settled(lines: seq<Line>)
    decreases |lines|
  {
    if lines == [] then true
    else if !lines[0].kind.Item? then Settled(lines[1..])
    else
      var n := ItemLength(lines);
      && !Managed(lines[..n])
      && (n == |lines| ==> lines[0].indent >= 4)
      && Settled(lines[n..])
  }

  /** A line that starts no item stays. */
  lemma UnmanagedOther(lines: seq<Line>)
    requires lines != [] && !lines[0].kind.Item?
    ensures Unmanaged(lines) == [lines[0]] + Unmanaged(lines[1..])
  {
  }

  /** The managed item placed behind a list is all that removal then takes out
      exactly when the list is settled. */
  lemma {:induction false} ManagedBehind(lines: seq<Line>, m: seq<Line>)
    requires ManagedItem(m)
    ensures if Settled(lines) then Unmanaged(lines + m) == lines else |Unmanaged(lines + m)| < |lines|
    decreases |lines|
  {
    hide Unmanaged;
    hide Managed;
    hide ManagedItem;
    if lines == [] {
      ManagedInFront(m, []);
      assert lines + m == m + [];
      NothingToClean();
    } else if !lines[0].kind.Item? {
      ManagedBehind(lines[1..], m);
      assert (lines + m)[1..] == lines[1..] + m;
      UnmanagedOther(lines + m);
      assert lines == [lines[0]] + lines[1..];
    } else if ItemLength(lines) == |lines| {
      LastItem(lines, m);
    } else {
      var n := ItemLength(lines);
      assert lines == lines[..n] + lines[n..];
      InnerItem(lines[..n], lines[n..], m);
      ManagedBehind(lines[n..], m);
    }
  }

  lemma NothingToClean()
    ensures Unmanaged([]) == []
  {
  }

  /** An item that ends before the end of its list ends at the same line when the list grows. */
  lemma InnerItem(item: seq<Line>, rest: seq<Line>, m: seq<Line>)
    requires item != [] && rest != [] && item[0].kind.Item? && ItemLength(item + rest) == |item|
    ensures Unmanaged(item + rest + m) == (if Managed(item) then [] else item) + Unmanaged(rest + m)
  {
    ItemLengthAppend(item + rest, m);
    assert item + rest + m == item + (rest + m);
    UnmanagedItem(item, rest + m);
  }

  lemma LastItem(lines: seq<Line>, m: seq<Line>)
    requires ManagedItem(m)
    requires lines != [] && lines[0].kind.Item? && ItemLength(lines) == |lines|
    ensures Unmanaged(lines + m) == if Settled(lines) then lines else []
  {
    ItemLengthAppend(lines, m);
    assert lines[..|lines|] == lines;
    if lines[0].indent >= 4 {
      ManagedInFront(m, []);
      assert m + [] == m;
      UnmanagedItem(lines, m);
    } else {
      ItemTailAll(m, lines[0].indent);
      ManagedWider(m, lines, []);
      assert lines + m + [] == lines + m;
      UnmanagedItem(lines + m, []);
    }
  }

  // ----- pruning -----

  /** One event: its header, the lines under it, and the rest of the body. */
  predicate Division(body: seq<Line>, header: Line, list: seq<Line>, tail: seq<Line>) {
    && body == [header] + list + tail
    && Found(header, AnyHeader) && Free(list, AnyHeader) && StartsWithGoal(tail, AnyHeader)
  }

  lemma DivideBody(body: seq<Line>) returns (list: seq<Line>, tail: seq<Line>)
    requires body != [] && Found(body[0], AnyHeader)
    ensures Division(body, body[0], list, tail)
  {
    var rest := body[1..];
    CountShape(rest, AnyHeader);
    var n := CountUntil(rest, AnyHeader);
    list, tail := rest[..n], rest[n..];
    assert body == [body[0]] + rest;
  }

  lemma PrunedEvent(header: Line, list: seq<Line>, tail: seq<Line>)
    requires Found(header, AnyHeader) && Free(list, AnyHeader) && StartsWithGoal(tail, AnyHeader)
    ensures Pruned([header] + list + tail) == (if Idle(header, list) then [] else [header] + list) + Pruned(tail)
  {
    var body := [header] + list + tail;
    var rest := list + tail;
    assert body[1..] == rest;
    CountAt(list, tail, AnyHeader);
    assert rest[..|list|] == list && rest[|list|..] == tail;
  }

  /** Pruning works on each event alone. */
  lemma {:induction false} PrunedAppend(a: seq<Line>, b: seq<Line>)
    requires StartsWithGoal(b, AnyHeader)
    ensures Pruned(a + b) == Pruned(a) + Pruned(b)
    decreases |a|
  {
    if a == [] {
      assert a + b == b;
    } else if !Found(a[0], AnyHeader) {
      PrunedAppend(a[1..], b);
      assert (a + b)[1..] == a[1..] + b;
    } else {
      var list, tail := DivideBody(a);
      PrunedAppend(tail, b);
      PrunedAppendEvent(a[0], list, tail, b);
    }
  }

  lemma PrunedAppendEvent(header: Line, list: seq<Line>, tail: seq<Line>, b: seq<Line>)
    requires Found(header, AnyHeader) && Free(list, AnyHeader)
    requires StartsWithGoal(tail, AnyHeader) && StartsWithGoal(b, AnyHeader)
    requires Pruned(tail + b) == Pruned(tail) + Pruned(b)
    ensures Pruned([header] + list + tail + b) == Pruned([header] + list + tail) + Pruned(b)
  {
    hide Pruned;
    var rest := tail + b;
    assert tail == [] ==> rest == b;
    PrunedEvent(header, list, tail);
    PrunedEvent(header, list, rest);
    assert [header] + list + tail + b == [header] + list + rest;
  }

  lemma {:induction false} PrunedTwice(body: seq<Line>)
    ensures Pruned(Pruned(body)) == Pruned(body)
    ensures StartsWithGoal(body, AnyHeader) ==> StartsWithGoal(Pruned(body), AnyHeader)
    decreases |body|
  {
    if body == [] {
    } else if !Found(body[0], AnyHeader) {
      PrunedTwice(body[1..]);
      assert Pruned(body)[1..] == Pruned(body[1..]);
    } else {
      var list, tail := DivideBody(body);
      PrunedEvent(body[0], list, tail);
      PrunedTwice(tail);
      if Idle(body[0], list) {
        assert Pruned(body) == Pruned(tail);
      } else {
        PrunedEvent(body[0], list, Pruned(tail));
      }
    }
  }

  lemma {:induction false} PrunedIsPart(body: seq<Line>)
    ensures forall x :: x in Pruned(body) ==> x in body
    ensures |Pruned(body)| == |body| ==> Pruned(body) == body
    decreases |body|
  {
    if body == [] {
    } else if !Found(body[0], AnyHeader) {
      PrunedIsPart(body[1..]);
      assert body == [body[0]] + body[1..];
    } else {
      var rest := body[1..];
      var n := CountUntil(rest, AnyHeader);
      PrunedIsPart(rest[n..]);
      assert body == [body[0]] + rest[..n] + rest[n..];
    }
  }

  /** A pruned body is made of pruned parts. */
  lemma PrunedParts(a: seq<Line>, b: seq<Line>)
    requires StartsWithGoal(b, AnyHeader) && Pruned(a + b) == a + b
    ensures Pruned(a) == a && Pruned(b) == b
  {
    PrunedAppend(a, b);
    PrunedIsPart(a);
    PrunedIsPart(b);
    assert |Pruned(a) + Pruned(b)| == |a| + |b|;
  }
}
