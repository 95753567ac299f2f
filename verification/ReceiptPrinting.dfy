/** The scanner undoes the printer: objects printed into a noisy log are found again. */
module ReceiptPrinting {
  import opened Json
  import opened ReceiptScanner

  /** A printed object and the log text in front of it. */
  datatype Entry = Entry(noise: string, members: seq<Member>)

  function Log(entries: seq<Entry>, style: Style, tail: string): string {
    if entries == [] then tail
    else entries[0].noise + Print(Obj(entries[0].members), style) + Log(entries[1..], style, tail)
  }

  function Prints(entries: seq<Entry>, style: Style): seq<string> {
    if entries == [] then [] else [Print(Obj(entries[0].members), style)] + Prints(entries[1..], style)
  }

  /** No brace in the noise, no brace or quote in a number. */
  ghost predicate Clean(entries: seq<Entry>) {
    forall i :: 0 <= i < |entries| ==> NoBrace(entries[i].noise) && Printable(Obj(entries[i].members))
  }

  // ----- printed text is neutral for the scanner -----

  function Out(depth: nat): Lex {
    Lex(false, false, depth)
  }

  function In(depth: nat): Lex {
    Lex(true, false, depth)
  }

  /** The text leaves the state as it was. */
  predicate Neutral(text: string, s: Lex) {
    Passes(text, s, s)
  }

  lemma {:induction false} InertIsNeutral(text: string, depth: nat)
    requires Inert(text) && depth > 0
    ensures Neutral(text, Out(depth))
  {
    if text != "" {
      InertIsNeutral(text[1..], depth);
    }
  }

  lemma {:induction false} EscapedIsNeutral(text: string, depth: nat)
    requires Escaped(text) && depth > 0
    ensures Neutral(text, In(depth))
  {
    if text == "" {
    } else if text[0] == '\\' {
      EscapedIsNeutral(text[2..], depth);
      assert text[1..][1..] == text[2..];
    } else {
      EscapedIsNeutral(text[1..], depth);
    }
  }

  lemma ConcatIsNeutral(a: string, b: string, s: Lex)
    requires Neutral(a, s) && Neutral(b, s)
    ensures Neutral(a + b, s)
  {
    PassesConcat(a, b, s, s, s);
  }

  lemma {:induction false} ContentsAreNeutral(s: string, style: Style, depth: nat)
    requires style.Valid() && depth > 0
    ensures Neutral(Contents(s, style), In(depth))
  {
    if s != "" {
      EscapedIsNeutral(style.escape(s[0]), depth);
      ContentsAreNeutral(s[1..], style, depth);
      ConcatIsNeutral(style.escape(s[0]), Contents(s[1..], style), In(depth));
    }
  }

  lemma OneChar(c: char, s: Lex)
    requires Next(s, c).depth > 0
    ensures Passes([c], s, Next(s, c))
  {
    assert [c][1..] == "";
  }

  lemma QuotedIsNeutral(s: string, style: Style, depth: nat)
    requires style.Valid() && depth > 0
    ensures Neutral(Quoted(s, style), Out(depth))
  {
    hide Passes;
    ContentsAreNeutral(s, style, depth);
    OneChar('"', Out(depth));
    OneChar('"', In(depth));
    PassesConcat("\"", Contents(s, style), Out(depth), In(depth), In(depth));
    PassesConcat("\"" + Contents(s, style), "\"", Out(depth), In(depth), Out(depth));
  }

  lemma BracketsAreNeutral(inner: string, depth: nat)
    requires depth > 0 && Neutral(inner, Out(depth))
    ensures Neutral("[" + inner + "]", Out(depth))
  {
    hide Passes;
    OneChar('[', Out(depth));
    OneChar(']', Out(depth));
    ConcatIsNeutral("[", inner, Out(depth));
    ConcatIsNeutral("[" + inner, "]", Out(depth));
  }

  lemma BracesAreNeutral(inner: string, depth: nat)
    requires depth > 0 && Neutral(inner, Out(depth + 1))
    ensures Neutral("{" + inner + "}", Out(depth))
  {
    hide Passes;
    OneChar('{', Out(depth));
    OneChar('}', Out(depth + 1));
    PassesConcat("{", inner, Out(depth), Out(depth + 1), Out(depth + 1));
    PassesConcat("{" + inner, "}", Out(depth), Out(depth + 1), Out(depth));
  }

  lemma {:induction false} ValueIsNeutral(v: Value, style: Style, depth: nat)
    requires style.Valid() && Printable(v) && depth > 0
    ensures Neutral(Print(v, style), Out(depth))
    decreases v, 0
  {
    match v
    case Null => InertIsNeutral("null", depth);
    case Bool(b) => InertIsNeutral(if b then "true" else "false", depth);
    case Num(text, _) => InertIsNeutral(text, depth);
    case Str(s) => QuotedIsNeutral(s, style, depth);
    case Arr(items) =>
      ItemsAreNeutral(items, style, depth);
      BracketsAreNeutral(PrintItems(items, style), depth);
    case Obj(members) =>
      MembersAreNeutral(members, style, depth + 1);
      BracesAreNeutral(PrintMembers(members, style), depth);
  }

  lemma {:induction false} ItemsAreNeutral(items: seq<Value>, style: Style, depth: nat)
    requires style.Valid() && depth > 0 && forall i :: 0 <= i < |items| ==> Printable(items[i])
    ensures Neutral(PrintItems(items, style), Out(depth))
    decreases items, 1
  {
    hide Passes;
    hide Neutral;
    if items == [] {
      InertIsNeutral("", depth);
    } else {
      ValueIsNeutral(items[0], style, depth);
      if |items| == 1 {
        assert PrintItems(items, style) == Print(items[0], style);
      } else {
        ItemsAreNeutral(items[1..], style, depth);
        InertIsNeutral(style.comma, depth);
        ConcatIsNeutral(style.comma, PrintItems(items[1..], style), Out(depth));
        ConcatIsNeutral(Print(items[0], style), style.comma + PrintItems(items[1..], style), Out(depth));
      }
    }
  }

  lemma {:induction false} MembersAreNeutral(members: seq<Member>, style: Style, depth: nat)
    requires style.Valid() && depth > 0 && forall i :: 0 <= i < |members| ==> Printable(members[i].value)
    ensures Neutral(PrintMembers(members, style), Out(depth))
    decreases members, 1
  {
    hide Passes;
    hide Neutral;
    if members == [] {
      InertIsNeutral("", depth);
    } else {
      var first := Quoted(members[0].key, style) + style.colon + Print(members[0].value, style);
      QuotedIsNeutral(members[0].key, style, depth);
      InertIsNeutral(style.colon, depth);
      ValueIsNeutral(members[0].value, style, depth);
      ConcatIsNeutral(Quoted(members[0].key, style), style.colon, Out(depth));
      ConcatIsNeutral(Quoted(members[0].key, style) + style.colon, Print(members[0].value, style), Out(depth));
      if |members| == 1 {
        assert PrintMembers(members, style) == first;
      } else {
        MembersAreNeutral(members[1..], style, depth);
        InertIsNeutral(style.comma, depth);
        ConcatIsNeutral(style.comma, PrintMembers(members[1..], style), Out(depth));
        ConcatIsNeutral(first, style.comma + PrintMembers(members[1..], style), Out(depth));
      }
    }
  }

  // ----- the law -----

  lemma PrintedIsBalanced(members: seq<Member>, style: Style)
    requires style.Valid() && Printable(Obj(members))
    ensures Balanced(Print(Obj(members), style))
  {
    hide Balanced;
    var inner := PrintMembers(members, style);
    MembersAreNeutral(members, style, 1);
    PassesIsRead(inner, OPENED, OPENED);
    BalancedIsPasses(inner, '}');
    assert "}" == ['}'];
  }

  /** Any number of printed objects among noise without opening braces are found, each exactly, in order. */
  lemma {:induction false} ScannerUndoesPrinter(entries: seq<Entry>, style: Style, tail: string)
    requires style.Valid() && Clean(entries) && NoBrace(tail)
    ensures Objects(Log(entries, style, tail)) == Prints(entries, style)
  {
    hide Objects;
    if entries == [] {
      SkipGap(tail, "");
      NothingLeft("");
      assert tail + "" == tail;
    } else {
      var printed := Print(Obj(entries[0].members), style);
      var rest := Log(entries[1..], style, tail);
      PrintedIsBalanced(entries[0].members, style);
      ScannerUndoesPrinter(entries[1..], style, tail);
      SkipGap(entries[0].noise, printed + rest);
      TakeObject(printed, rest);
      assert entries[0].noise + printed + rest == entries[0].noise + (printed + rest);
    }
  }

  /** The escapes of RFC 8259 are a valid style. */
  lemma MinimalIsValid()
    ensures Style(", ", ": ", Minimal).Valid()
  {
    forall c: char ensures Escaped(Minimal(c)) {
      MinimalIsEscaped(c);
    }
  }

  lemma MinimalIsEscaped(c: char)
    ensures Escaped(Minimal(c))
  {
    var e := Minimal(c);
    if c != '"' && c != '\\' && c != '\n' && c != '\r' && c != '\t' && c as int < 0x20 {
      var h, l := HexDigit(c as int / 16), HexDigit(c as int % 16);
      assert e[2..] == ['0', '0', h, l] && e[2..][1..] == ['0', h, l];
      assert ['0', h, l][1..] == [h, l] && [h, l][1..] == [l] && [l][1..] == "";
      assert Escaped([h, l]);
      assert Escaped(['0', h, l]);
      assert Escaped(e[2..]);
    } else if |e| == 2 {
      assert e[2..] == "";
    } else {
      assert e[1..] == "";
    }
  }
}
