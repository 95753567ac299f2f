/** The one-pass scanner that cuts balanced JSON objects out of a noisy log. */
module ReceiptScanner {
  import opened Options

  /** What the scanner remembers inside an object. */
  datatype Lex = Lex(inString: bool, escape: bool, depth: nat)

  const OUTSIDE: Lex := Lex(false, false, 0)
  const OPENED: Lex := Lex(false, false, 1)

  function Next(s: Lex, c: char): Lex {
    if s.inString then
      if s.escape then s.(escape := false)
      else if c == '\\' then s.(escape := true)
      else if c == '"' then s.(inString := false)
      else s
    else if c == '"' then s.(inString := true)
    else if c == '{' then s.(depth := s.depth + 1)
    else if c == '}' && s.depth > 0 then s.(depth := s.depth - 1)
    else s
  }

  // ----- what it means to be an object of the text -----

  /** The state after reading the text. */
  function Read(text: string, s: Lex): Lex {
    if text == "" then s else Read(text[1..], Next(s, text[0]))
  }

  /** Opens with a brace, closes it with the last character and no earlier, and is outside strings there. */
  ghost predicate Balanced(text: string) {
    && |text| >= 2 && text[0] == '{' && Read(text, OUTSIDE) == OUTSIDE
    && forall k :: 0 < k < |text| ==> Read(text[..k], OUTSIDE).depth > 0
  }

  /** Opens with a brace that is never closed. */
  ghost predicate Unclosed(text: string) {
    text != "" && text[0] == '{' && forall k :: 0 < k <= |text| ==> Read(text[..k], OUTSIDE).depth > 0
  }

  predicate NoBrace(text: string) {
    forall i :: 0 <= i < |text| ==> text[i] != '{'
  }

  /** A stretch of text with an object at its end. */
  datatype Part = Part(gap: string, json: string)

  /** The parts, then a piece without braces, then an object that never closes (or nothing). */
  function Weave(parts: seq<Part>, gap: string, open: string): string {
    if parts == [] then gap + open else parts[0].gap + parts[0].json + Weave(parts[1..], gap, open)
  }

  function Jsons(parts: seq<Part>): seq<string> {
    if parts == [] then [] else [parts[0].json] + Jsons(parts[1..])
  }

  ghost predicate CleanParts(parts: seq<Part>) {
    forall i :: 0 <= i < |parts| ==> NoBrace(parts[i].gap) && Balanced(parts[i].json)
  }

  /** The text is cut into gaps, objects, and a rest that holds no complete object. */
  ghost predicate Cut(text: string, parts: seq<Part>, gap: string, open: string) {
    && text == Weave(parts, gap, open) && CleanParts(parts) && NoBrace(gap) && (open == "" || Unclosed(open))
  }

  // ----- the objects of a text, as a function -----

  /** Number of characters up to the brace that closes the object, read from inside it. */
  function Close(text: string, s: Lex): (r: Option<nat>)
    ensures r.Some? ==> 1 <= r.value <= |text|
  {
    if text == "" then None
    else if Next(s, text[0]).depth == 0 then Some(1)
    else
      match Close(text[1..], Next(s, text[0]))
      case None => None
      case Some(k) => Some(k + 1)
  }

  function Objects(text: string): seq<string>
    decreases |text|
  {
    if text == "" then []
    else if text[0] != '{' then Objects(text[1..])
    else
      match Close(text[1..], OPENED)
      case None => []
      case Some(k) => [text[..k + 1]] + Objects(text[k + 1..])
  }

  // ----- reading without closing -----

  /** Reading the text leads from one state to the other without closing the object. */
  predicate Passes(text: string, from: Lex, to: Lex) {
    if text == "" then from == to else Next(from, text[0]).depth > 0 && Passes(text[1..], Next(from, text[0]), to)
  }

  lemma {:induction false} PassesConcat(a: string, b: string, s: Lex, t: Lex, u: Lex)
    requires Passes(a, s, t) && Passes(b, t, u)
    ensures Passes(a + b, s, u)
  {
    if a == "" {
      assert a + b == b;
    } else {
      assert (a + b)[1..] == a[1..] + b;
      PassesConcat(a[1..], b, Next(s, a[0]), t, u);
    }
  }

  lemma {:induction false} CloseAfter(a: string, b: string, s: Lex, t: Lex)
    requires Passes(a, s, t)
    ensures Close(a + b, s) == match Close(b, t) case None => None case Some(k) => Some(|a| + k)
  {
    if a == "" {
      assert a + b == b;
    } else {
      assert (a + b)[1..] == a[1..] + b;
      CloseAfter(a[1..], b, Next(s, a[0]), t);
    }
  }

  // ----- the scanner finds exactly the objects of the text -----

  /** Outside strings nothing is escaped. */
  predicate Sane(s: Lex) {
    s.escape ==> s.inString
  }

  lemma PrefixRead(text: string, s: Lex, k: nat)
    requires 0 < k <= |text|
    ensures Read(text[..k], s) == Read(text[1..][..k - 1], Next(s, text[0]))
  {
    assert text[..k][1..] == text[1..][..k - 1];
  }

  lemma {:induction false} PassesIsRead(text: string, s: Lex, t: Lex)
    requires Sane(s)
    ensures Passes(text, s, t) <==> t == Read(text, s) && forall k :: 0 < k <= |text| ==> Read(text[..k], s).depth > 0
    ensures Passes(text, s, t) ==> Sane(t)
  {
    if text != "" {
      var next := Next(s, text[0]);
      PassesIsRead(text[1..], next, t);
      if Passes(text, s, t) {
        forall k | 0 < k <= |text| ensures Read(text[..k], s).depth > 0 {
          PrefixRead(text, s, k);
        }
      }
      if forall k :: 0 < k <= |text| ==> Read(text[..k], s).depth > 0 {
        forall k | 0 < k <= |text[1..]| ensures Read(text[1..][..k], next).depth > 0 {
          PrefixRead(text, s, k + 1);
        }
        PrefixRead(text, s, 1);
        assert Read(text[..1], s).depth > 0;
      }
    }
  }

  lemma {:induction false} ReadOn(a: string, c: char, s: Lex)
    ensures Read(a + [c], s) == Next(Read(a, s), c)
  {
    if a == "" {
      assert a + [c] == [c] && [c][1..] == "";
    } else {
      assert (a + [c])[1..] == a[1..] + [c];
      ReadOn(a[1..], c, Next(s, a[0]));
    }
  }

  lemma ReadOpened(inner: string)
    ensures Read("{" + inner, OUTSIDE) == Read(inner, OPENED)
  {
    assert ("{" + inner)[1..] == inner;
  }

  lemma OpenedPrefix(inner: string, k: nat)
    requires k <= |inner|
    ensures Read(("{" + inner)[..k + 1], OUTSIDE) == Read(inner[..k], OPENED)
  {
    assert ("{" + inner)[..k + 1] == "{" + inner[..k];
    ReadOpened(inner[..k]);
  }

  lemma UnclosedIsPasses(inner: string)
    ensures Unclosed("{" + inner) <==> Passes(inner, OPENED, Read(inner, OPENED))
  {
    hide Read;
    hide Passes;
    var text := "{" + inner;
    PassesIsRead(inner, OPENED, Read(inner, OPENED));
    if Unclosed(text) {
      forall k | 0 < k <= |inner| ensures Read(inner[..k], OPENED).depth > 0 {
        OpenedPrefix(inner, k);
        assert Read(text[..k + 1], OUTSIDE).depth > 0;
      }
    }
    if Passes(inner, OPENED, Read(inner, OPENED)) {
      forall k | 0 < k <= |text| ensures Read(text[..k], OUTSIDE).depth > 0 {
        OpenedPrefix(inner, k - 1);
        if k == 1 {
          ReadNothing(inner[..k - 1], OPENED);
        }
      }
    }
  }

  lemma ReadNothing(text: string, s: Lex)
    requires text == ""
    ensures Read(text, s) == s
  {
  }

  /** Neither the state nor any prefix of the text closes the object before its last character. */
  lemma BalancedIsPasses(inner: string, c: char)
    ensures Balanced("{" + inner + [c]) <==>
      Passes(inner, OPENED, Read(inner, OPENED)) && Next(Read(inner, OPENED), c).depth == 0
  {
    hide Read;
    hide Passes;
    var text := "{" + inner;
    var whole := text + [c];
    UnclosedIsPasses(inner);
    PassesIsRead(inner, OPENED, Read(inner, OPENED));
    ReadOpened(inner);
    ReadOn(text, c, OUTSIDE);
    forall k | 0 < k <= |text| ensures whole[..k] == text[..k] {
    }
    if Balanced(whole) {
      forall k | 0 < k <= |text| ensures Read(text[..k], OUTSIDE).depth > 0 {
        assert whole[..k] == text[..k];
      }
    }
    if Unclosed(text) && Next(Read(inner, OPENED), c).depth == 0 {
      assert text[..|text|] == text;
      assert c == '}' && Next(Read(inner, OPENED), c) == OUTSIDE;
    }
  }

  // ----- the loop -----

  /** The loop has emitted `found`, stands at `index`, and what is left starts at `from`. */
  ghost predicate Scanned(body: string, found: seq<string>, from: nat) {
    from <= |body| && Objects(body) == found + Objects(body[from..])
  }

  lemma SkipChar(body: string, found: seq<string>, index: nat)
    requires index < |body| && Scanned(body, found, index) && body[index] != '{'
    ensures Scanned(body, found, index + 1)
  {
    assert body[index..][1..] == body[index + 1..];
  }

  /** The text opens with an object. */
  lemma ObjectFirst(inner: string, c: char, rest: string, s: Lex)
    requires Passes(inner, OPENED, s) && Next(s, c).depth == 0
    ensures Objects("{" + inner + [c] + rest) == ["{" + inner + [c]] + Objects(rest)
  {
    var text := "{" + inner + [c] + rest;
    CloseAfter(inner, [c] + rest, OPENED, s);
    assert Close([c] + rest, s) == Some(1);
    assert text[1..] == inner + ([c] + rest);
    assert text[..|inner| + 2] == "{" + inner + [c] && text[|inner| + 2..] == rest;
  }

  lemma EmitObject(body: string, found: seq<string>, start: nat, index: nat, s: Lex)
    requires start < index < |body| && Scanned(body, found, start) && body[start] == '{'
    requires Passes(body[start + 1..index], OPENED, s) && Next(s, body[index]).depth == 0
    ensures Scanned(body, found + [body[start..index + 1]], index + 1)
  {
    hide Objects;
    hide Passes;
    var inner := body[start + 1..index];
    ObjectFirst(inner, body[index], body[index + 1..], s);
    assert body[start..] == "{" + inner + [body[index]] + body[index + 1..];
    assert body[start..index + 1] == "{" + inner + [body[index]];
  }

  lemma NeverClosed(body: string, found: seq<string>, start: nat, s: Lex)
    requires start < |body| && Scanned(body, found, start) && body[start] == '{'
    requires Passes(body[start + 1..], OPENED, s)
    ensures Objects(body) == found
  {
    CloseAfter(body[start + 1..], "", OPENED, s);
    assert body[start + 1..] + "" == body[start + 1..] == body[start..][1..];
  }

  lemma OneMoreChar(body: string, start: nat, index: nat, s: Lex)
    requires start < index < |body| && Passes(body[start + 1..index], OPENED, s) && Next(s, body[index]).depth > 0
    ensures Passes(body[start + 1..index + 1], OPENED, Next(s, body[index]))
  {
    assert [body[index]][1..] == "";
    assert body[start + 1..index + 1] == body[start + 1..index] + [body[index]];
    PassesConcat(body[start + 1..index], [body[index]], OPENED, s, Next(s, body[index]));
  }

  lemma EmptyPasses(s: Lex)
    ensures Passes("", s, s)
  {
  }

  method BalancedJsonObjectCandidates(body: string) returns (candidates: seq<string>)
    ensures candidates == Objects(body)
  {
    candidates := [];
    var inString, escape, start, depth := false, false, -1, 0;
    var index := 0;
    assert body[0..] == body;
    while index < |body|
      invariant 0 <= index <= |body| && -1 <= start < index && depth >= 0
      invariant start == -1 ==> Scanned(body, candidates, index)
      invariant start >= 0 ==>
        && Scanned(body, candidates, start) && body[start] == '{' && depth > 0
        && Passes(body[start + 1..index], OPENED, Lex(inString, escape, depth))
    {
      hide Scanned;
      hide Passes;
      var c := body[index];
      if start == -1 {
        if c == '{' {
          start, depth, inString, escape := index, 1, false, false;
          EmptyPasses(OPENED);
          assert body[index + 1..index + 1] == "";
        } else {
          SkipChar(body, candidates, index);
        }
        index := index + 1;
        continue;
      }
      ghost var s := Lex(inString, escape, depth);
      if inString {
        if escape {
          escape := false;
        } else if c == '\\' {
          escape := true;
        } else if c == '"' {
          inString := false;
        }
        OneMoreChar(body, start, index, s);
        index := index + 1;
        continue;
      }
      if c == '"' {
        inString := true;
      } else if c == '{' {
        depth := depth + 1;
      } else if c == '}' {
        depth := depth - 1;
        if depth == 0 {
          EmitObject(body, candidates, start, index, s);
          candidates := candidates + [body[start..index + 1]];
          start, index := -1, index + 1;
          continue;
        }
      }
      OneMoreChar(body, start, index, s);
      index := index + 1;
    }
    if start >= 0 {
      assert body[start + 1..index] == body[start + 1..];
      NeverClosed(body, candidates, start, Lex(inString, escape, depth));
    } else {
      assert body[index..] == "";
    }
  }

  // ----- correctness of the cut -----

  lemma {:induction false} SkipGap(gap: string, rest: string)
    requires NoBrace(gap)
    ensures Objects(gap + rest) == Objects(rest)
  {
    if gap == "" {
      assert gap + rest == rest;
    } else {
      assert (gap + rest)[1..] == gap[1..] + rest;
      SkipGap(gap[1..], rest);
    }
  }

  lemma TakeObject(json: string, rest: string)
    requires Balanced(json)
    ensures Objects(json + rest) == [json] + Objects(rest)
  {
    var inner, c := json[1..|json| - 1], json[|json| - 1];
    assert json == "{" + inner + [c];
    BalancedIsPasses(inner, c);
    ObjectFirst(inner, c, rest, Read(inner, OPENED));
    assert "{" + inner + [c] + rest == json + rest;
  }

  lemma NothingLeft(open: string)
    requires open == "" || Unclosed(open)
    ensures Objects(open) == []
  {
    if open != "" {
      var inner := open[1..];
      assert open == "{" + inner;
      UnclosedIsPasses(inner);
      CloseAfter(inner, "", OPENED, Read(inner, OPENED));
      assert inner + "" == inner;
    }
  }

  /** However a text is cut into gaps, balanced objects and a rest, those objects are the ones found. */
  lemma {:induction false} CutIsFound(text: string, parts: seq<Part>, gap: string, open: string)
    requires Cut(text, parts, gap, open)
    ensures Objects(text) == Jsons(parts)
    decreases |parts|
  {
    if parts == [] {
      SkipGap(gap, open);
      NothingLeft(open);
    } else {
      var rest := Weave(parts[1..], gap, open);
      CutIsFound(rest, parts[1..], gap, open);
      assert text == parts[0].gap + (parts[0].json + rest);
      SkipGap(parts[0].gap, parts[0].json + rest);
      TakeObject(parts[0].json, rest);
    }
  }

  lemma {:induction false} CloseIsPasses(text: string, s: Lex)
    ensures Close(text, s) == None ==> Passes(text, s, Read(text, s))
    ensures Close(text, s).Some? ==>
      var k := Close(text, s).value - 1;
      var t := Read(text[..k], s);
      Passes(text[..k], s, t) && Next(t, text[k]).depth == 0
  {
    if text == "" {
    } else if Next(s, text[0]).depth == 0 {
      assert text[..0] == "";
    } else {
      CloseIsPasses(text[1..], Next(s, text[0]));
      if Close(text, s).Some? {
        var k := Close(text, s).value - 1;
        assert text[..k][1..] == text[1..][..k - 1];
      }
    }
  }

  /** Splits off the object the text opens with. */
  lemma OpeningObject(text: string)
    requires text != "" && text[0] == '{'
    ensures Close(text[1..], OPENED) == None ==> Unclosed(text)
    ensures Close(text[1..], OPENED).Some? ==> Balanced(text[..Close(text[1..], OPENED).value + 1])
  {
    hide Read;
    hide Passes;
    hide Balanced;
    hide Unclosed;
    var inner := text[1..];
    CloseIsPasses(inner, OPENED);
    match Close(inner, OPENED)
    case None =>
      UnclosedIsPasses(inner);
      assert text == "{" + inner;
    case Some(n) =>
      BalancedIsPasses(inner[..n - 1], inner[n - 1]);
      assert text[..n + 1] == "{" + inner[..n - 1] + [inner[n - 1]];
  }

  lemma GapGrows(c: char, gap: string)
    requires c != '{' && NoBrace(gap)
    ensures NoBrace([c] + gap)
  {
  }

  /** One more character in front of the first gap. */
  lemma CutLonger(c: char, rest: string, parts: seq<Part>, gap: string, open: string)
    returns (moreParts: seq<Part>, moreGap: string)
    requires c != '{' && Cut(rest, parts, gap, open)
    ensures Cut([c] + rest, moreParts, moreGap, open)
  {
    if parts == [] {
      moreParts, moreGap := [], [c] + gap;
      GapGrows(c, gap);
      assert [c] + (gap + open) == moreGap + open;
    } else {
      GapGrows(c, parts[0].gap);
      moreParts, moreGap := [Part([c] + parts[0].gap, parts[0].json)] + parts[1..], gap;
      assert moreParts[1..] == parts[1..];
      assert [c] + rest == moreParts[0].gap + moreParts[0].json + Weave(parts[1..], gap, open);
    }
  }

  /** One more object in front. */
  lemma CutMore(json: string, rest: string, parts: seq<Part>, gap: string, open: string)
    requires Balanced(json) && Cut(rest, parts, gap, open)
    ensures Cut(json + rest, [Part("", json)] + parts, gap, open)
  {
    var more := [Part("", json)] + parts;
    assert more[1..] == parts;
    assert more[0].gap + more[0].json == json;
  }

  lemma {:induction false} EveryTextIsCut(text: string) returns (parts: seq<Part>, gap: string, open: string)
    ensures Cut(text, parts, gap, open)
    decreases |text|
  {
    hide Balanced;
    hide Unclosed;
    if text == "" {
      parts, gap, open := [], "", "";
    } else if text[0] != '{' {
      parts, gap, open := EveryTextIsCut(text[1..]);
      parts, gap := CutLonger(text[0], text[1..], parts, gap, open);
      assert text == [text[0]] + text[1..];
    } else {
      OpeningObject(text);
      match Close(text[1..], OPENED)
      case None =>
        parts, gap, open := [], "", text;
      case Some(n) =>
        parts, gap, open := EveryTextIsCut(text[n + 1..]);
        CutMore(text[..n + 1], text[n + 1..], parts, gap, open);
        parts := [Part("", text[..n + 1])] + parts;
        assert text == text[..n + 1] + text[n + 1..];
    }
  }

  /** On every text: the objects found are the objects of its one possible cut. */
  lemma FoundIffCut(text: string, found: seq<string>)
    ensures found == Objects(text) <==> exists parts, gap, open :: Cut(text, parts, gap, open) && Jsons(parts) == found
  {
    hide Cut;
    hide Objects;
    var parts, gap, open := EveryTextIsCut(text);
    CutIsFound(text, parts, gap, open);
    forall p, g, o | Cut(text, p, g, o) ensures Jsons(p) == Objects(text) {
      CutIsFound(text, p, g, o);
    }
  }
}
