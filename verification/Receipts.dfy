/** How a terminal receipt is recognised in what an executor left behind. */
module Receipts {
  import opened Options
  import opened Json
  import opened ReceiptScanner
  import opened Text

  datatype Status = EvidencePack | Blocked | Committed

  /** The receipt's schema version is always "1" once accepted. */
  datatype Receipt = Receipt(
    taskId: string, attemptNo: int, reviewRound: int, status: Status, summary: string, payload: seq<Member>, raw: string)

  /** Which of the four ways of reading the body led to the receipt. */
  datatype Source = Direct | MixedText | WrappedText | Native

  datatype Outcome = Received(receipt: Receipt, source: Source) | Failed(error: string)

  /** What the caller demands: a status (as text) and a task. */
  datatype Want = Want(status: Option<string>, task: Option<string>)

  /** Library functions left open: `json.loads`, `str.lower`, `str` of a float or container, `str` of an int. */
  datatype Python = Python(
    loads: string -> Option<Value>, lower: string -> string, repr: Value -> string, decimal: int -> string)
  {
    function Show(v: Value): string {
      match v
      case Str(s) => s
      case Num(_, Whole(n)) => decimal(n)
      case _ => repr(v)
    }

    /** `json.loads` with errors caught; the literal `null` reads as no value too. */
    function TryParse(s: string): Value {
      match loads(s)
      case None => Null
      case Some(v) => v
    }
  }

  const STATUSES: map<string, Status> :=
    map["EVIDENCE_PACK" := EvidencePack, "BLOCKED" := Blocked, "COMMITTED" := Committed]

  const ALIASES: map<string, Status> := map[
    "evidence_pack" := EvidencePack, "evidence-ready" := EvidencePack, "evidence_ready" := EvidencePack,
    "ready-for-review" := EvidencePack, "ready_for_review" := EvidencePack, "report" := EvidencePack,
    "report_only" := EvidencePack, "success" := EvidencePack, "succeeded" := EvidencePack,
    "complete" := EvidencePack, "completed" := EvidencePack, "done" := EvidencePack,
    "blocked" := Blocked, "block" := Blocked, "failed" := Blocked, "failure" := Blocked,
    "committed" := Committed, "commit" := Committed]

  function NormalizeStatus(py: Python, v: Value): Option<Status> {
    if !v.Str? then None
    else
      var stripped := Strip(v.s);
      if stripped in STATUSES then Some(STATUSES[stripped])
      else if py.lower(stripped) in ALIASES then Some(ALIASES[py.lower(stripped)])
      else None
  }

  predicate StatusMatches(py: Python, want: Want, status: Status) {
    want.status.None? || NormalizeStatus(py, Str(want.status.value)) == Some(status)
  }

  predicate TaskMatches(want: Want, task: string) {
    want.task.None? || want.task.value == task
  }

  function SchemaText(py: Python, members: seq<Member>): string {
    if Position(members, "schema_version") == |members| then "" else Strip(py.Show(Get(members, "schema_version")))
  }

  predicate IsWhole(v: Value) {
    v.Num? && v.number.Whole?
  }

  /** `validate_structured_receipt_dict` */
  function Validate(py: Python, parsed: Value, raw: string, want: Want): Option<Receipt> {
    if !parsed.Obj? then None
    else
      var m := parsed.members;
      var status := NormalizeStatus(py, Get(m, "status"));
      var task := Get(m, "task_id");
      if SchemaText(py, m) !in ["1", "1.0", "1.0.0"] then None
      else if status.None? || !StatusMatches(py, want, status.value) then None
      else if !task.Str? || !TaskMatches(want, task.s) then None
      else if !IsWhole(Get(m, "attempt_no")) || !IsWhole(Get(m, "review_round")) then None
      else if !Get(m, "summary").Str? || !Get(m, "payload").Obj? then None
      else
        Some(Receipt(task.s, Get(m, "attempt_no").number.n, Get(m, "review_round").number.n, status.value,
                     Get(m, "summary").s, Get(m, "payload").members, raw))
  }

  function ParseDirect(py: Python, body: string, want: Want): Option<Receipt> {
    Validate(py, py.TryParse(body), body, want)
  }

  /** The last candidate that is a receipt. */
  function LastReceipt(py: Python, candidates: seq<string>, want: Want): Option<Receipt> {
    if candidates == [] then None
    else
      var last := ParseDirect(py, candidates[|candidates| - 1], want);
      if last.Some? then last else LastReceipt(py, candidates[..|candidates| - 1], want)
  }

  method ReceiptFromJsonCandidates(py: Python, candidates: seq<string>, want: Want) returns (found: Option<Receipt>)
    ensures found == LastReceipt(py, candidates, want)
  {
    hide ParseDirect;
    var i := |candidates|;
    assert candidates[..i] == candidates;
    while i > 0
      invariant 0 <= i <= |candidates|
      invariant LastReceipt(py, candidates, want) == LastReceipt(py, candidates[..i], want)
    {
      i := i - 1;
      assert candidates[..i + 1][..i] == candidates[..i];
      var parsed := ParseDirect(py, candidates[i], want);
      if parsed.Some? {
        return parsed;
      }
    }
    return None;
  }

  // ----- texts wrapped in a JSON envelope -----

  const WRAPPED: seq<string> := ["result", "output", "text", "content", "message", "response"]

  predicate IsWrapped(key: string) {
    key in WRAPPED
  }

  /** Every text in the value, the ones under the known keys of a dictionary first. */
  function Texts(v: Value): seq<string>
    decreases v, 0
  {
    match v
    case Str(s) => [s]
    case Arr(items) => ItemTexts(items)
    case Obj(members) => KeyedTexts(members, WRAPPED) + OtherTexts(members)
    case _ => []
  }

  function ItemTexts(items: seq<Value>): seq<string>
    decreases items, 1
  {
    if items == [] then [] else ItemTexts(items[..|items| - 1]) + Texts(items[|items| - 1])
  }

  function KeyTexts(members: seq<Member>, key: string): seq<string>
    decreases members, 1
  {
    var at := Position(members, key);
    if at < |members| then Texts(members[at].value) else []
  }

  function KeyedTexts(members: seq<Member>, keys: seq<string>): seq<string>
    decreases members, 2, |keys|
  {
    if keys == [] then []
    else KeyedTexts(members, keys[..|keys| - 1]) + KeyTexts(members, keys[|keys| - 1])
  }

  function OtherTexts(members: seq<Member>): seq<string>
    decreases members, 1
  {
    if members == [] then []
    else
      var last := members[|members| - 1];
      OtherTexts(members[..|members| - 1]) + (if IsWrapped(last.key) then [] else Texts(last.value))
  }

  method WrappedTextCandidates(value: Value) returns (candidates: seq<string>)
    ensures candidates == Texts(value)
    decreases value, 1
  {
    candidates := [];
    if value.Str? {
      candidates := [value.s];
    } else if value.Arr? {
      for i := 0 to |value.items|
        invariant candidates == ItemTexts(value.items[..i])
      {
        var inner := WrappedTextCandidates(value.items[i]);
        candidates := candidates + inner;
        assert value.items[..i + 1][..i] == value.items[..i];
      }
      assert value.items[..|value.items|] == value.items;
    } else if value.Obj? {
      var visited;
      candidates, visited := KeyedCandidates(value.members);
      var others := OtherCandidates(value.members, visited);
      candidates := candidates + others;
    }
  }

  /** The first loop over a dictionary: the known keys, in their own order. */
  method KeyedCandidates(members: seq<Member>) returns (candidates: seq<string>, visited: set<string>)
    ensures candidates == KeyedTexts(members, WRAPPED)
    ensures forall key :: key in visited <==> key in WRAPPED && Position(members, key) < |members|
    decreases members, 0
  {
    candidates, visited := [], {};
    for k := 0 to |WRAPPED|
      invariant candidates == KeyedTexts(members, WRAPPED[..k])
      invariant forall key :: key in visited <==> key in WRAPPED[..k] && Position(members, key) < |members|
    {
      hide KeyedTexts;
      hide KeyTexts;
      hide Texts;
      hide Position;
      var at := Position(members, WRAPPED[k]);
      KeyedTextsStep(members, k);
      if at < |members| {
        visited := visited + {WRAPPED[k]};
        var inner := WrappedTextCandidates(members[at].value);
        candidates := candidates + inner;
      }
      assert WRAPPED[..k + 1] == WRAPPED[..k] + [WRAPPED[k]];
    }
    assert WRAPPED[..|WRAPPED|] == WRAPPED;
  }

  lemma KeyedTextsStep(members: seq<Member>, k: nat)
    requires k < |WRAPPED|
    ensures KeyedTexts(members, WRAPPED[..k + 1]) == KeyedTexts(members, WRAPPED[..k]) +
      var at := Position(members, WRAPPED[k]);
      if at < |members| then Texts(members[at].value) else []
  {
    hide *;
    KeyedTextsAppend(members, WRAPPED[..k], WRAPPED[k]);
    assert WRAPPED[..k + 1] == WRAPPED[..k] + [WRAPPED[k]];
  }

  lemma KeyedTextsAppend(members: seq<Member>, keys: seq<string>, key: string)
    ensures KeyedTexts(members, keys + [key]) == KeyedTexts(members, keys) +
      var at := Position(members, key);
      if at < |members| then Texts(members[at].value) else []
  {
    hide Texts;
    hide Position;
    assert (keys + [key])[..|keys|] == keys;
  }

  /** The second loop over a dictionary: every key not visited by the first. */
  method OtherCandidates(members: seq<Member>, visited: set<string>) returns (candidates: seq<string>)
    requires forall key :: key in visited <==> key in WRAPPED && Position(members, key) < |members|
    ensures candidates == OtherTexts(members)
    decreases members, 0
  {
    hide Position;
    hide Texts;
    candidates := [];
    for i := 0 to |members|
      invariant candidates == OtherTexts(members[..i])
    {
      assert members[..i + 1][..i] == members[..i];
      KeyIsThere(members, i);
      if members[i].key in visited {
        continue;
      }
      var inner := WrappedTextCandidates(members[i].value);
      candidates := candidates + inner;
    }
    assert members[..|members|] == members;
  }

  lemma {:induction false} KeyIsThere(members: seq<Member>, i: nat)
    requires i < |members|
    ensures Position(members, members[i].key) <= i
  {
    if i > 0 && members[0].key != members[i].key {
      KeyIsThere(members[1..], i - 1);
    }
  }

  // ----- receipts on the lines of a wrapped text -----

  function LineReceipt(py: Python, line: string, want: Want): Option<Receipt> {
    var stripped := Strip(line);
    if StartsWith(stripped, "{") then ParseDirect(py, stripped, want) else None
  }

  function LastLineReceipt(py: Python, lines: seq<string>, want: Want): Option<Receipt> {
    if lines == [] then None
    else
      var last := LineReceipt(py, lines[|lines| - 1], want);
      if last.Some? then last else LastLineReceipt(py, lines[..|lines| - 1], want)
  }

  /** The last receipt of the first text that has one. */
  function WrappedReceipt(py: Python, texts: seq<string>, want: Want): Option<Receipt> {
    if texts == [] then None
    else
      var here := LastLineReceipt(py, SplitLines(texts[0]), want);
      if here.Some? then here else WrappedReceipt(py, texts[1..], want)
  }

  method SearchLines(py: Python, lines: seq<string>, want: Want) returns (found: Option<Receipt>)
    ensures found == LastLineReceipt(py, lines, want)
  {
    hide LineReceipt;
    var i := |lines|;
    assert lines[..i] == lines;
    while i > 0
      invariant 0 <= i <= |lines|
      invariant LastLineReceipt(py, lines, want) == LastLineReceipt(py, lines[..i], want)
    {
      i := i - 1;
      assert lines[..i + 1][..i] == lines[..i];
      var nested := LineReceipt(py, lines[i], want);
      if nested.Some? {
        return nested;
      }
    }
    return None;
  }

  method SearchWrappedTexts(py: Python, texts: seq<string>, want: Want) returns (found: Option<Receipt>)
    ensures found == WrappedReceipt(py, texts, want)
  {
    hide LastLineReceipt;
    hide SplitLines;
    for t := 0 to |texts|
      invariant WrappedReceipt(py, texts, want) == WrappedReceipt(py, texts[t..], want)
    {
      assert texts[t..][1..] == texts[t + 1..];
      found := SearchLines(py, SplitLines(texts[t]), want);
      if found.Some? {
        return;
      }
    }
    return None;
  }

  // ----- the native success envelope -----

  /** `str(value or "").strip().lower()` */
  function Word(py: Python, v: Value): string {
    py.lower(Strip(if Truthy(v) then py.Show(v) else ""))
  }

  predicate NativeSuccess(py: Python, m: seq<Member>) {
    var stop := if Truthy(Get(m, "stop_reason")) then Get(m, "stop_reason") else Get(m, "stopReason");
    || Get(m, "is_error") == Bool(false)
    || Word(py, Get(m, "subtype")) == "success"
    || Word(py, Get(m, "status")) in ["success", "succeeded", "complete", "completed"]
    || (Word(py, Get(m, "type")) == "result"
        && Word(py, stop) !in ["cancelled", "canceled", "maxturns", "max_turns", "max turns"])
  }

  /** The envelope's own task id if it has one, else the expected one. */
  function NativeTask(m: seq<Member>, want: Want): Option<string> {
    var own := Get(m, "task_id");
    var task := if own.Str? then Some(own.s) else want.task;
    if task.Some? && !Blank(task.value) then task else None
  }

  function Report(m: seq<Member>, keys: seq<string>): Option<string> {
    if keys == [] then None
    else
      var v := Get(m, keys[0]);
      if v.Str? && !Blank(v.s) then Some(Strip(v.s)) else Report(m, keys[1..])
  }

  function FirstLine(lines: seq<string>): string {
    if lines == [] then "Executor produced a report"
    else if !Blank(lines[0]) then Strip(lines[0])
    else FirstLine(lines[1..])
  }

  function Summary(report: string): (summary: string)
    ensures |summary| <= 180
  {
    var line := FirstLine(SplitLines(report));
    if |line| > 180 then RStrip(line[..177]) + "..." else line
  }

  function NativeReceipt(py: Python, m: seq<Member>, raw: string, want: Want): Option<Receipt> {
    var expected := if want.status.Some? then NormalizeStatus(py, Str(want.status.value)) else None;
    if expected.Some? && expected.value != EvidencePack then None
    else if Get(m, "is_error") == Bool(true) || !NativeSuccess(py, m) then None
    else
      match (NativeTask(m, want), Report(m, WRAPPED))
      case (Some(task), Some(report)) =>
        Some(Receipt(task, 1, 0, EvidencePack, Summary(report),
                     [Member("claimed_state", Str("ready_for_review")), Member("changed_files", Arr([])),
                      Member("scope_violations", Arr([])),
                      Member("validation_not_run", Str("executor returned native success envelope")),
                      Member("report", Str(report))], raw))
      case _ => None
  }

  // ----- all four ways -----

  function OrElse(receipt: Option<Receipt>, source: Source, other: Outcome): Outcome {
    if receipt.Some? then Received(receipt.value, source) else other
  }

  function Normalize(py: Python, body: string, want: Want): Outcome {
    if body == "" then Failed("empty_body")
    else
      var parsed := py.TryParse(body);
      OrElse(Validate(py, parsed, body, want), Direct,
        OrElse(LastReceipt(py, Objects(body), want), MixedText,
          if parsed.Null? then Failed("malformed_json")
          else
            OrElse(WrappedReceipt(py, Texts(parsed), want), WrappedText,
              OrElse(if parsed.Obj? then NativeReceipt(py, parsed.members, body, want) else None, Native,
                Failed("receipt_not_found")))))
  }

  // ----- the warnings that go with a receipt -----

  predicate IsSchemaAlias(py: Python, v: Value) {
    Strip(if Truthy(v) then py.Show(v) else "") in ["1.0", "1.0.0"]
  }

  predicate IsStatusAlias(py: Python, v: Value) {
    v.Str? && Strip(v.s) !in STATUSES && NormalizeStatus(py, v).Some?
  }

  predicate LacksPath(payload: seq<Member>, key: string) {
    var v := Get(payload, key);
    !v.Str? || Blank(v.s)
  }

  predicate LacksArtifact(v: Value) {
    v.Obj? && (LacksPath(v.members, "raw_log_path") || LacksPath(v.members, "receipt_path"))
  }

  function WarnIf(earlier: seq<string>, here: bool, warning: string): seq<string> {
    if here then earlier + [warning] else earlier
  }

  function SourceWarning(source: Source): seq<string> {
    match source
    case Direct => []
    case MixedText => ["mixed_text_json"]
    case WrappedText => ["wrapped_text_json"]
    case Native => ["native_success_envelope"]
  }

  /** Where the receipt was found, then what is unusual about the text it was read from. */
  function Warnings(py: Python, receipt: Receipt, source: Source): seq<string> {
    var parsed := py.TryParse(receipt.raw);
    if !parsed.Obj? then SourceWarning(source)
    else
      var m := parsed.members;
      WarnIf(
        WarnIf(
          WarnIf(SourceWarning(source), IsSchemaAlias(py, Get(m, "schema_version")), "schema_version_alias"),
          IsStatusAlias(py, Get(m, "status")), "status_alias"),
        LacksArtifact(Get(m, "payload")), "artifact_path_missing")
  }

  /** `_protocol_for_receipt`, for the JSON the receipt was read from. */
  method ProtocolForReceipt(py: Python, receipt: Receipt, source: Source) returns (warnings: seq<string>)
    ensures warnings == Warnings(py, receipt, source)
  {
    hide IsSchemaAlias;
    hide IsStatusAlias;
    hide LacksArtifact;
    hide Get;
    warnings := SourceWarning(source);
    var parsed := py.TryParse(receipt.raw);
    if parsed.Obj? {
      if IsSchemaAlias(py, Get(parsed.members, "schema_version")) {
        warnings := warnings + ["schema_version_alias"];
      }
      if IsStatusAlias(py, Get(parsed.members, "status")) {
        warnings := warnings + ["status_alias"];
      }
      if LacksArtifact(Get(parsed.members, "payload")) {
        warnings := warnings + ["artifact_path_missing"];
      }
    }
  }

  method NormalizeTerminalReceipt(py: Python, body: string, want: Want) returns (r: Outcome, warnings: seq<string>)
    ensures r == Normalize(py, body, want)
    ensures warnings == if r.Received? then Warnings(py, r.receipt, r.source) else []
  {
    hide Validate;
    hide LastReceipt;
    hide WrappedReceipt;
    hide NativeReceipt;
    hide Objects;
    hide Texts;
    hide Warnings;
    if body == "" {
      return Failed("empty_body"), [];
    }
    var parsed := py.TryParse(body);
    var direct := Validate(py, parsed, body, want);
    if direct.Some? {
      warnings := ProtocolForReceipt(py, direct.value, Direct);
      return Received(direct.value, Direct), warnings;
    }
    var candidates := BalancedJsonObjectCandidates(body);
    var raw := ReceiptFromJsonCandidates(py, candidates, want);
    if raw.Some? {
      warnings := ProtocolForReceipt(py, raw.value, MixedText);
      return Received(raw.value, MixedText), warnings;
    }
    if parsed.Null? {
      return Failed("malformed_json"), [];
    }
    var texts := WrappedTextCandidates(parsed);
    var nested := SearchWrappedTexts(py, texts, want);
    if nested.Some? {
      warnings := ProtocolForReceipt(py, nested.value, WrappedText);
      return Received(nested.value, WrappedText), warnings;
    }
    if parsed.Obj? {
      var native := NativeReceipt(py, parsed.members, body, want);
      if native.Some? {
        warnings := ProtocolForReceipt(py, native.value, Native);
        return Received(native.value, Native), warnings;
      }
    }
    return Failed("receipt_not_found"), [];
  }
}
