/** Python's text primitives the program leans on: `str.isspace`, `str.strip`,
    `str.splitlines` and newline joining, over Unicode scalar values. */
module Text {

  /** The characters `str.isspace` accepts, which are also what `\s` matches. */
  predicate IsSpace(c: char) {
    var n := c as int;
    || 0x09 <= n <= 0x0D || 0x1C <= n <= 0x20 || n == 0x85 || n == 0xA0 || n == 0x1680
    || 0x2000 <= n <= 0x200A || n == 0x2028 || n == 0x2029 || n == 0x202F || n == 0x205F || n == 0x3000
  }

  /** The characters at which `str.splitlines` ends a line. */
  predicate IsBreak(c: char) {
    var n := c as int;
    0x0A <= n <= 0x0D || 0x1C <= n <= 0x1E || n == 0x85 || n == 0x2028 || n == 0x2029
  }

  /** The two kinds of characters, one by one; every line break is white space. */
  lemma SpacesAre(c: char)
    ensures IsBreak(c) <==> c in {
      '\n', '\U{b}', '\U{c}', '\r', '\U{1c}', '\U{1d}', '\U{1e}', '\U{85}', '\U{2028}', '\U{2029}'}
    ensures IsSpace(c) <==> IsBreak(c) || c in {
      '\t', '\U{1f}', ' ', '\U{a0}', '\U{1680}', '\U{2000}', '\U{2001}', '\U{2002}', '\U{2003}', '\U{2004}', '\U{2005}',
      '\U{2006}', '\U{2007}', '\U{2008}', '\U{2009}', '\U{200a}', '\U{202f}', '\U{205f}', '\U{3000}'}
  {
    assert c == (c as int) as char;
  }

  predicate HasBreak(s: string) {
    exists i :: 0 <= i < |s| && IsBreak(s[i])
  }

  predicate NoBreaks(lines: seq<string>) {
    forall i :: 0 <= i < |lines| ==> !HasBreak(lines[i])
  }

  /** Number of leading whitespace characters: `len(s) - len(s.lstrip())`. */
  function Indent(s: string): (n: nat)
    ensures n <= |s|
  {
    if s == "" || !IsSpace(s[0]) then 0 else 1 + Indent(s[1..])
  }

  lemma IndentShape(s: string)
    ensures forall i :: 0 <= i < Indent(s) ==> IsSpace(s[i])
    ensures Indent(s) < |s| ==> !IsSpace(s[Indent(s)])
  {
    if s != "" && IsSpace(s[0]) {
      IndentShape(s[1..]);
      assert forall i :: 0 < i < Indent(s) ==> s[i] == s[1..][i - 1];
    }
  }

  function LStrip(s: string): string {
    s[Indent(s)..]
  }

  function RStrip(s: string): (r: string)
    ensures |r| <= |s| && r == s[..|r|]
    ensures r != "" ==> !IsSpace(r[|r| - 1])
    ensures r == "" ==> forall i :: 0 <= i < |s| ==> IsSpace(s[i])
  {
    if s == "" || !IsSpace(s[|s| - 1]) then s else RStrip(s[..|s| - 1])
  }

  function Strip(s: string): string {
    RStrip(LStrip(s))
  }

  /** `not line.strip()` */
  predicate Blank(s: string) {
    Indent(s) == |s|
  }

  predicate StartsWith(s: string, prefix: string) {
    prefix <= s
  }

  predicate EndsWith(s: string, suffix: string) {
    |suffix| <= |s| && s[|s| - |suffix|..] == suffix
  }

  /** The text before the first `c`: `s.split(c, 1)[0]`. */
  function Before(s: string, c: char): string {
    if s == "" || s[0] == c then "" else [s[0]] + Before(s[1..], c)
  }

  /** Length of the first line of `s`, its terminator not included. */
  function LineLength(s: string): (n: nat)
    ensures n <= |s|
    ensures !HasBreak(s[..n])
    ensures n < |s| ==> IsBreak(s[n])
  {
    if s == "" || IsBreak(s[0]) then 0
    else
      var n := 1 + LineLength(s[1..]);
      assert forall i :: 0 <= i < n ==> s[i] == if i == 0 then s[0] else s[1..][i - 1];
      assert s[1..n] == s[1..][..n - 1];
      n
  }

  /** `s.splitlines()`; a carriage return and line feed in a row are one break. */
  function SplitLines(s: string): (lines: seq<string>)
    ensures NoBreaks(lines)
    ensures s != "" ==> lines != []
    decreases |s|
  {
    if s == "" then []
    else
      var n := LineLength(s);
      if n == |s| then
        assert s[..n] == s;
        [s]
      else
        var width := if s[n] == '\r' && n + 1 < |s| && s[n + 1] == '\n' then 2 else 1;
        [s[..n]] + SplitLines(s[n + width..])
  }

  /** `"\n".join(lines)` */
  function Join(lines: seq<string>): string {
    if |lines| == 0 then "" else if |lines| == 1 then lines[0] else lines[0] + "\n" + Join(lines[1..])
  }

  lemma {:induction false} JoinConcat(a: seq<string>, b: seq<string>)
    requires a != [] && b != []
    ensures Join(a + b) == Join(a) + "\n" + Join(b)
  {
    if |a| == 1 {
      assert (a + b)[1..] == b;
    } else {
      assert (a + b)[1..] == a[1..] + b;
      JoinConcat(a[1..], b);
      assert a[0] + "\n" + (Join(a[1..]) + "\n" + Join(b)) == a[0] + "\n" + Join(a[1..]) + "\n" + Join(b);
    }
  }

  /** Joining lines and splitting the text again gives the lines back. */
  lemma {:induction false} SplitJoin(lines: seq<string>)
    requires lines != [] && NoBreaks(lines)
    ensures SplitLines(Join(lines) + "\n") == lines
  {
    var first, rest := lines[0], lines[1..];
    var tail := if rest == [] then "" else Join(rest) + "\n";
    assert Join(lines) + "\n" == first + "\n" + tail;
    FirstLine(first, tail);
    var text := first + "\n" + tail;
    assert text[|first|] == '\n';
    assert text[..|first|] == first && text[|first| + 1..] == tail;
    assert SplitLines(text) == [first] + SplitLines(tail);
    if rest == [] {
      assert lines == [first];
    } else {
      assert NoBreaks(rest);
      SplitJoin(rest);
      assert lines == [first] + rest;
    }
  }

  lemma FirstLine(first: string, tail: string)
    requires !HasBreak(first)
    ensures LineLength(first + "\n" + tail) == |first|
  {
    var text := first + "\n" + tail;
    var n := LineLength(text);
    assert text[|first|] == '\n';
    assert forall i :: 0 <= i < |first| ==> text[i] == first[i];
  }
}
