/** JSON values as the program holds them after parsing, and a printer for them
    (RFC 8259, sections 4 and 7). */
module Json {

  /** A number is an `int` or a `float`; of a float only its being zero matters here. */
  datatype Number = Whole(n: int) | Float(zero: bool)

  /** `Num` carries the text the number is written with. An `Obj` lists its members in order; a
      dictionary has each key once. */
  datatype Value =
    | Null
    | Bool(b: bool)
    | Num(text: string, number: Number)
    | Str(s: string)
    | Arr(items: seq<Value>)
    | Obj(members: seq<Member>)

  datatype Member = Member(key: string, value: Value)

  /** Index of the member with that key, or the number of members. */
  function Position(members: seq<Member>, key: string): (at: nat)
    ensures at <= |members|
    ensures at < |members| ==> members[at].key == key
  {
    if members == [] || members[0].key == key then 0 else 1 + Position(members[1..], key)
  }

  /** `parsed.get(key)` */
  function Get(members: seq<Member>, key: string): Value {
    var at := Position(members, key);
    if at < |members| then members[at].value else Null
  }

  /** What counts as true in a condition. */
  predicate Truthy(v: Value) {
    match v
    case Null => false
    case Bool(b) => b
    case Num(_, number) => if number.Whole? then number.n != 0 else !number.zero
    case Str(s) => s != ""
    case Arr(items) => items != []
    case Obj(members) => members != []
  }

  // ----- printing -----

  /** What stands between items, what stands between a key and its value, and how a character of
      a string is written. */
  datatype Style = Style(comma: string, colon: string, escape: char -> string)
  {
    ghost predicate Valid() {
      Inert(comma) && Inert(colon) && forall c :: Escaped(escape(c))
    }
  }

  /** Text without braces and quotes. */
  predicate Inert(s: string) {
    forall i :: 0 <= i < |s| ==> s[i] != '{' && s[i] != '}' && s[i] != '"'
  }

  /** Text that may stand inside a JSON string: no bare quote, and a backslash takes the next character with it. */
  predicate Escaped(s: string) {
    if s == "" then true
    else if s[0] == '\\' then |s| >= 2 && Escaped(s[2..])
    else s[0] != '"' && Escaped(s[1..])
  }

  /** Numbers are written without braces and quotes. */
  predicate Printable(v: Value)
    decreases v
  {
    match v
    case Num(text, _) => Inert(text)
    case Arr(items) => forall i :: 0 <= i < |items| ==> Printable(items[i])
    case Obj(members) => forall i :: 0 <= i < |members| ==> Printable(members[i].value)
    case _ => true
  }

  function HexDigit(n: nat): char
    requires n < 16
  {
    "0123456789abcdef"[n]
  }

  /** The escapes section 7 of RFC 8259 demands, and no others. */
  function Minimal(c: char): string {
    if c == '"' then "\\\""
    else if c == '\\' then "\\\\"
    else if c == '\n' then "\\n"
    else if c == '\r' then "\\r"
    else if c == '\t' then "\\t"
    else if c as int < 0x20 then "\\u00" + [HexDigit(c as int / 16), HexDigit(c as int % 16)]
    else [c]
  }

  function Contents(s: string, style: Style): string {
    if s == "" then "" else style.escape(s[0]) + Contents(s[1..], style)
  }

  function Quoted(s: string, style: Style): string {
    "\"" + Contents(s, style) + "\""
  }

  function Print(v: Value, style: Style): string
    decreases v, 0
  {
    match v
    case Null => "null"
    case Bool(b) => if b then "true" else "false"
    case Num(text, _) => text
    case Str(s) => Quoted(s, style)
    case Arr(items) => "[" + PrintItems(items, style) + "]"
    case Obj(members) => "{" + PrintMembers(members, style) + "}"
  }

  function PrintItems(items: seq<Value>, style: Style): string
    decreases items, 1
  {
    if items == [] then ""
    else Print(items[0], style) + (if |items| == 1 then "" else style.comma + PrintItems(items[1..], style))
  }

  function PrintMembers(members: seq<Member>, style: Style): string
    decreases members, 1
  {
    if members == [] then ""
    else
      Quoted(members[0].key, style) + style.colon + Print(members[0].value, style)
      + (if |members| == 1 then "" else style.comma + PrintMembers(members[1..], style))
  }
}
