/** The Hermes config file: how its lines divide around the `hooks:` block, and what
    removing and installing the managed hook mean on that division. */
module HermesConfig {
  import opened Text
  import opened HermesLines

  /** The four ways the program searches for a line. */
  datatype Goal = HooksKey | AnyTopLevel | PreLlmHeader | AnyHeader

  predicate Found(line: Line, goal: Goal) {
    match goal
    case HooksKey => line.kind == TopLevel(true)
    case AnyTopLevel => line.kind.TopLevel?
    case PreLlmHeader => line.kind.Header? && line.kind.preLlm
    case AnyHeader => line.kind.Header?
  }

  predicate Free(lines: seq<Line>, goal: Goal) {
    forall i :: 0 <= i < |lines| ==> !Found(lines[i], goal)
  }

  predicate StartsWithGoal(lines: seq<Line>, goal: Goal) {
    lines == [] || Found(lines[0], goal)
  }

  predicate AllBlank(lines: seq<Line>) {
    forall i :: 0 <= i < |lines| ==> lines[i].kind.Empty?
  }

  function CountUntil(lines: seq<Line>, goal: Goal): (n: nat)
    ensures n <= |lines|
  {
    if lines == [] || Found(lines[0], goal) then 0 else 1 + CountUntil(lines[1..], goal)
  }

  // ----- the division of a file -----

  datatype Document =
    | Plain(lines: seq<Line>)
    | Hooks(before: seq<Line>, header: Line, body: seq<Line>, after: seq<Line>)
  {
    predicate Valid() {
      match this
      case Plain(lines) => Free(lines, HooksKey)
      case Hooks(before, header, body, after) =>
        && Free(before, HooksKey) && Found(header, HooksKey)
        && Free(body, AnyTopLevel) && StartsWithGoal(after, AnyTopLevel)
    }

    function Lines(): seq<Line> {
      match this
      case Plain(lines) => lines
      case Hooks(before, header, body, after) => before + [header] + body + after
    }
  }

  /** The first `pre_llm_call` event of a block, with the lines on both sides of it. */
  datatype Event = NoEvent | Event(head: seq<Line>, header: Line, list: seq<Line>, tail: seq<Line>)
  {
    predicate Of(body: seq<Line>) {
      match this
      case NoEvent => Free(body, PreLlmHeader)
      case Event(head, header, list, tail) =>
        && body == head + [header] + list + tail
        && Free(head, PreLlmHeader) && Found(header, PreLlmHeader)
        && Free(list, AnyHeader) && StartsWithGoal(tail, AnyHeader)
    }
  }

  function ParseDocument(lines: seq<Line>): Document {
    var start := CountUntil(lines, HooksKey);
    if start == |lines| then Plain(lines)
    else
      var rest := lines[start + 1..];
      var n := CountUntil(rest, AnyTopLevel);
      Hooks(lines[..start], lines[start], rest[..n], rest[n..])
  }

  function FindEvent(body: seq<Line>): Event {
    var start := CountUntil(body, PreLlmHeader);
    if start == |body| then NoEvent
    else
      var rest := body[start + 1..];
      var n := CountUntil(rest, AnyHeader);
      Event(body[..start], body[start], rest[..n], rest[n..])
  }

  // ----- removing -----

  /** Number of leading lines that belong to a list item indented by `indent`. */
  function ItemTail(lines: seq<Line>, indent: nat): (n: nat)
    ensures n <= |lines|
  {
    if lines == [] || (!lines[0].kind.Empty? && lines[0].indent <= indent) then 0
    else 1 + ItemTail(lines[1..], indent)
  }

  function ItemLength(lines: seq<Line>): (n: nat)
    requires lines != []
    ensures 1 <= n <= |lines|
  {
    1 + ItemTail(lines[1..], lines[0].indent)
  }

  predicate Managed(item: seq<Line>) {
    exists i :: 0 <= i < |item| && item[i].managed
  }

  /** The lines of an event's list without its managed items. */
  function Unmanaged(lines: seq<Line>): (r: seq<Line>)
    ensures |r| <= |lines|
    decreases |lines|
  {
    if lines == [] then []
    else if !lines[0].kind.Item? then [lines[0]] + Unmanaged(lines[1..])
    else
      var n := ItemLength(lines);
      (if Managed(lines[..n]) then [] else lines[..n]) + Unmanaged(lines[n..])
  }

  /** An event that has no value and nothing but blank lines under it. */
  predicate Idle(header: Line, list: seq<Line>) {
    header.kind.Header? && header.kind.open && AllBlank(list)
  }

  /** A block body without its idle events. */
  function Pruned(body: seq<Line>): (r: seq<Line>)
    ensures |r| <= |body|
    decreases |body|
  {
    if body == [] then []
    else if !Found(body[0], AnyHeader) then [body[0]] + Pruned(body[1..])
    else
      var rest := body[1..];
      var n := CountUntil(rest, AnyHeader);
      (if Idle(body[0], rest[..n]) then [] else [body[0]] + rest[..n]) + Pruned(rest[n..])
  }

  function Prune(hook: Hook, d: Document): Document
    requires d.Hooks?
  {
    var body := Pruned(d.body);
    if AllBlank(body) then d.(header := NoHooksLine(hook), body := []) else d.(body := body)
  }

  function CleanBody(body: seq<Line>): seq<Line> {
    match FindEvent(body)
    case NoEvent => body
    case Event(head, header, list, tail) => head + [header] + Unmanaged(list) + tail
  }

  function Removed(hook: Hook, d: Document): Document {
    if d.Plain? then d else Prune(hook, d.(body := CleanBody(d.body)))
  }

  // ----- installing -----

  /** `Inline` stands for the error raised when the present config cannot be extended in place. */
  datatype Result<T> = Ok(value: T) | Inline(event: bool)

  predicate IsEmptyValue(line: Line, key: string) {
    var value := WithoutComment(line.text);
    value == key + ": {}" || value == key + ": null"
  }

  predicate IsEmptyList(line: Line) {
    var value := WithoutComment(line.text);
    value == PRE_LLM_KEY + ": []" || value == PRE_LLM_KEY + ": null"
  }

  predicate IsBareKey(line: Line, key: string) {
    WithoutComment(line.text) == key + ":"
  }

  function ManagedEvent(hook: Hook): seq<Line> {
    [PreLlmLine(hook)] + ManagedLines(hook)
  }

  function ManagedBlock(hook: Hook): seq<Line> {
    [HooksLine(hook)] + ManagedEvent(hook)
  }

  function InsertedBody(hook: Hook, body: seq<Line>): Result<seq<Line>> {
    match FindEvent(body)
    case NoEvent => Ok(body + ManagedEvent(hook))
    case Event(head, header, list, tail) =>
      if IsEmptyList(header) then Ok(head + ManagedEvent(hook) + list + tail)
      else if IsBareKey(header, PRE_LLM_KEY) then Ok(head + [header] + list + ManagedLines(hook) + tail)
      else Inline(true)
  }

  /** The lines once the managed hook is added. */
  function Inserted(hook: Hook, d: Document): Result<seq<Line>> {
    match d
    case Plain(lines) =>
      var space := if lines == [] || lines[|lines| - 1].kind.Empty? then [] else [Scan(hook, "")];
      Ok(lines + space + ManagedBlock(hook))
    case Hooks(before, header, body, after) =>
      if IsEmptyValue(header, HOOKS_KEY) then Ok(before + ManagedBlock(hook) + body + after)
      else if !IsBareKey(header, HOOKS_KEY) then Inline(false)
      else
        match InsertedBody(hook, body)
        case Ok(b) => Ok(before + [header] + b + after)
        case Inline(event) => Inline(event)
  }

  function Merged(hook: Hook, lines: seq<Line>): Result<seq<Line>> {
    Inserted(hook, Removed(hook, ParseDocument(lines)))
  }

  // ----- whole texts -----

  /** Adds the final newline a settings text must have. */
  function Rendered(text: string): string {
    if text == "" || EndsWith(text, "\n") then text else text + "\n"
  }

  function ScanAll(hook: Hook, texts: seq<string>): seq<Line> {
    seq(|texts|, i requires 0 <= i < |texts| => Scan(hook, texts[i]))
  }

  function Texts(lines: seq<Line>): seq<string> {
    seq(|lines|, i requires 0 <= i < |lines| => lines[i].text)
  }

  function Parsed(hook: Hook, text: string): Document {
    ParseDocument(ScanAll(hook, SplitLines(text)))
  }

  function ToText(lines: seq<Line>): string {
    Join(Texts(lines)) + "\n"
  }

  function RemovedText(hook: Hook, current: string): string {
    var text := Rendered(current);
    var d := Parsed(hook, text);
    if d.Plain? then text else ToText(Removed(hook, d).Lines())
  }

  function MergedText(hook: Hook, current: string): Result<string> {
    var text := Rendered(RemovedText(hook, current));
    match Inserted(hook, Parsed(hook, text))
    case Ok(lines) => Ok(ToText(lines))
    case Inline(event) => Inline(event)
  }
}
