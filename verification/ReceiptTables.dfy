/** The words and fields by which a receipt is recognised, spelt out. */
module ReceiptTables {
  import opened Options
  import opened Json
  import opened Text
  import opened Receipts

  // ----- status words -----

  /** The word itself, stripped, and in lower case. */
  predicate Means(py: Python, v: Value, name: string, others: set<string>, aliases: set<string>) {
    && v.Str?
    && (Strip(v.s) == name || (Strip(v.s) !in others && py.lower(Strip(v.s)) in aliases))
  }

  /** Which words stand for which status: its own name, in capitals, or one of its aliases in any case. */
  lemma StatusWords(py: Python, v: Value)
    ensures NormalizeStatus(py, v) == Some(EvidencePack) <==>
      Means(py, v, "EVIDENCE_PACK", {"BLOCKED", "COMMITTED"},
        {"evidence_pack", "evidence-ready", "evidence_ready", "ready-for-review", "ready_for_review", "report", "report_only",
         "success", "succeeded", "complete", "completed", "done"})
    ensures NormalizeStatus(py, v) == Some(Blocked) <==>
      Means(py, v, "BLOCKED", {"EVIDENCE_PACK", "COMMITTED"}, {"blocked", "block", "failed", "failure"})
    ensures NormalizeStatus(py, v) == Some(Committed) <==>
      Means(py, v, "COMMITTED", {"EVIDENCE_PACK", "BLOCKED"}, {"committed", "commit"})
  {
  }

  /** The text stands for the status. */
  predicate StandsFor(py: Python, v: Value, status: Status) {
    match status
    case EvidencePack =>
      Means(py, v, "EVIDENCE_PACK", {"BLOCKED", "COMMITTED"},
        {"evidence_pack", "evidence-ready", "evidence_ready", "ready-for-review", "ready_for_review", "report", "report_only",
         "success", "succeeded", "complete", "completed", "done"})
    case Blocked =>
      Means(py, v, "BLOCKED", {"EVIDENCE_PACK", "COMMITTED"}, {"blocked", "block", "failed", "failure"})
    case Committed =>
      Means(py, v, "COMMITTED", {"EVIDENCE_PACK", "BLOCKED"}, {"committed", "commit"})
  }

  lemma StandsForIff(py: Python, v: Value, status: Status)
    ensures StandsFor(py, v, status) <==> NormalizeStatus(py, v) == Some(status)
  {
    StatusWords(py, v);
    hide Means;
    hide NormalizeStatus;
  }

  // ----- which dictionaries are receipts -----

  /** What the value is when written as text: a text is itself, a whole number its digits. */
  function Shown(py: Python, v: Value): string {
    if v.Str? then v.s else if v.Num? && v.number.Whole? then py.decimal(v.number.n) else py.repr(v)
  }

  predicate Whole(v: Value) {
    v.Num? && v.number.Whole?
  }

  /** The dictionary has the seven fields of a receipt, and they say what the caller wants. */
  predicate IsReceipt(py: Python, m: seq<Member>, status: Status, want: Want) {
    && Position(m, "schema_version") < |m|
    && (var version := Strip(Shown(py, Get(m, "schema_version"))); version == "1" || version == "1.0" || version == "1.0.0")
    && StandsFor(py, Get(m, "status"), status)
    && (want.status.None? || StandsFor(py, Str(want.status.value), status))
    && Get(m, "task_id").Str? && (want.task.None? || want.task.value == Get(m, "task_id").s)
    && Whole(Get(m, "attempt_no")) && Whole(Get(m, "review_round"))
    && Get(m, "summary").Str? && Get(m, "payload").Obj?
  }

  predicate Carries(m: seq<Member>, raw: string, r: Receipt)
    requires Get(m, "task_id").Str? && Whole(Get(m, "attempt_no")) && Whole(Get(m, "review_round"))
    requires Get(m, "summary").Str? && Get(m, "payload").Obj?
  {
    && r.taskId == Get(m, "task_id").s && r.attemptNo == Get(m, "attempt_no").number.n
    && r.reviewRound == Get(m, "review_round").number.n && r.summary == Get(m, "summary").s
    && r.payload == Get(m, "payload").members && r.raw == raw
  }

  /** A value is accepted as a receipt exactly when it is a dictionary with those fields, and the receipt carries them. */
  lemma AcceptedIff(py: Python, parsed: Value, raw: string, want: Want, r: Receipt)
    ensures Validate(py, parsed, raw, want) == Some(r) <==>
      parsed.Obj? && IsReceipt(py, parsed.members, r.status, want) && Carries(parsed.members, raw, r)
  {
    if parsed.Obj? {
      var m := parsed.members;
      StandsForIff(py, Get(m, "status"), r.status);
      if want.status.Some? {
        StandsForIff(py, Str(want.status.value), r.status);
      }
      VersionIff(py, m);
      hide StandsFor;
      hide NormalizeStatus;
      hide Position;
      hide SchemaText;
      hide Get;
      hide Shown;
      hide Strip;
    }
  }

  lemma VersionIff(py: Python, m: seq<Member>)
    ensures SchemaText(py, m) in ["1", "1.0", "1.0.0"] <==>
      && Position(m, "schema_version") < |m|
      && (var version := Strip(Shown(py, Get(m, "schema_version"))); version == "1" || version == "1.0" || version == "1.0.0")
  {
    hide Position;
    hide Strip;
    hide Get;
    var v := Get(m, "schema_version");
    assert py.Show(v) == Shown(py, v);
    hide Shown;
  }

  // ----- the native envelope -----

  function Lower(py: Python, v: Value): string {
    if Truthy(v) then py.lower(Strip(Shown(py, v))) else py.lower("")
  }

  lemma LowerIs(py: Python, v: Value)
    ensures Lower(py, v) == Word(py, v)
  {
  }

  /** The envelope says that the executor succeeded. */
  predicate Succeeds(py: Python, m: seq<Member>) {
    var status := Lower(py, Get(m, "status"));
    var stop := Lower(py, if Truthy(Get(m, "stop_reason")) then Get(m, "stop_reason") else Get(m, "stopReason"));
    || Get(m, "is_error") == Bool(false)
    || Lower(py, Get(m, "subtype")) == "success"
    || status == "success" || status == "succeeded" || status == "complete" || status == "completed"
    || (Lower(py, Get(m, "type")) == "result"
        && stop != "cancelled" && stop != "canceled" && stop != "maxturns" && stop != "max_turns" && stop != "max turns")
  }

  predicate HasText(m: seq<Member>, key: string) {
    Get(m, key).Str? && !Blank(Get(m, key).s)
  }

  /** The report of an envelope: the first of its six texts that is not blank. */
  function ReportOf(m: seq<Member>): Option<string> {
    if HasText(m, "result") then Some(Strip(Get(m, "result").s))
    else if HasText(m, "output") then Some(Strip(Get(m, "output").s))
    else if HasText(m, "text") then Some(Strip(Get(m, "text").s))
    else if HasText(m, "content") then Some(Strip(Get(m, "content").s))
    else if HasText(m, "message") then Some(Strip(Get(m, "message").s))
    else if HasText(m, "response") then Some(Strip(Get(m, "response").s))
    else None
  }

  lemma ReportIs(m: seq<Member>)
    ensures Report(m, WRAPPED) == ReportOf(m)
  {
    hide Get;
    hide Strip;
    hide Blank;
    var a, b, c, d, e, f := "result", "output", "text", "content", "message", "response";
    assert WRAPPED == [a, b, c, d, e, f];
    SixReports(m, a, b, c, d, e, f);
  }

  lemma SixReports(m: seq<Member>, a: string, b: string, c: string, d: string, e: string, f: string)
    ensures Report(m, [a, b, c, d, e, f]) ==
      if HasText(m, a) then Some(Strip(Get(m, a).s)) else Report(m, [b, c, d, e, f])
    ensures Report(m, [b, c, d, e, f]) ==
      if HasText(m, b) then Some(Strip(Get(m, b).s)) else Report(m, [c, d, e, f])
    ensures Report(m, [c, d, e, f]) ==
      if HasText(m, c) then Some(Strip(Get(m, c).s)) else Report(m, [d, e, f])
    ensures Report(m, [d, e, f]) == if HasText(m, d) then Some(Strip(Get(m, d).s)) else Report(m, [e, f])
    ensures Report(m, [e, f]) == if HasText(m, e) then Some(Strip(Get(m, e).s)) else Report(m, [f])
    ensures Report(m, [f]) == if HasText(m, f) then Some(Strip(Get(m, f).s)) else None
  {
    hide Get;
    hide Strip;
    hide Blank;
    assert [a, b, c, d, e, f][1..] == [b, c, d, e, f] && [b, c, d, e, f][1..] == [c, d, e, f];
    assert [c, d, e, f][1..] == [d, e, f] && [d, e, f][1..] == [e, f] && [e, f][1..] == [f] && [f][1..] == [];
  }

  /** The task an envelope is taken for: its own if it names one, else the expected one. */
  function TaskOf(m: seq<Member>, want: Want): Option<string> {
    if Get(m, "task_id").Str? then (if Blank(Get(m, "task_id").s) then None else Some(Get(m, "task_id").s))
    else if want.task.Some? && !Blank(want.task.value) then want.task
    else None
  }

  predicate WantsOther(py: Python, want: Want) {
    want.status.Some? && (StandsFor(py, Str(want.status.value), Blocked) || StandsFor(py, Str(want.status.value), Committed))
  }

  lemma WantsOtherIff(py: Python, want: Want)
    ensures WantsOther(py, want) <==>
      want.status.Some? && NormalizeStatus(py, Str(want.status.value)) !in [None, Some(EvidencePack)]
  {
    if want.status.Some? {
      StandsForIff(py, Str(want.status.value), Blocked);
      StandsForIff(py, Str(want.status.value), Committed);
    }
    hide StandsFor;
    hide NormalizeStatus;
  }

  lemma WantedStatusIs(py: Python, want: Want)
    ensures var expected := if want.status.Some? then NormalizeStatus(py, Str(want.status.value)) else None;
      expected.Some? && expected.value != EvidencePack <==> WantsOther(py, want)
  {
    WantsOtherIff(py, want);
    hide NormalizeStatus;
    hide WantsOther;
  }

  /** A dictionary is taken for a receipt of its own exactly when it succeeded, without an error flag, the caller wants no
      other status than an evidence pack, and it has a task and a report. */
  lemma NativeIff(py: Python, m: seq<Member>, raw: string, want: Want)
    ensures NativeReceipt(py, m, raw, want).Some? <==>
      && Get(m, "is_error") != Bool(true) && Succeeds(py, m) && TaskOf(m, want).Some? && ReportOf(m).Some?
      && !WantsOther(py, want)
  {
    ReportIs(m);
    SucceedsIff(py, m);
    TaskIs(m, want);
    WantedStatusIs(py, want);
    NativeParts(py, m, raw, want);
    hide *;
  }

  lemma NativeParts(py: Python, m: seq<Member>, raw: string, want: Want)
    ensures var expected := if want.status.Some? then NormalizeStatus(py, Str(want.status.value)) else None;
      NativeReceipt(py, m, raw, want).Some? <==>
        && !(expected.Some? && expected.value != EvidencePack)
        && Get(m, "is_error") != Bool(true) && NativeSuccess(py, m) && NativeTask(m, want).Some? && Report(m, WRAPPED).Some?
  {
    hide NormalizeStatus;
    hide NativeSuccess;
    hide NativeTask;
    hide Report;
    hide Get;
    hide Summary;
    hide WRAPPED;
  }

  /** Such a receipt is an evidence pack of the first attempt, with the report of the envelope. */
  lemma NativeSays(py: Python, m: seq<Member>, raw: string, want: Want)
    requires NativeReceipt(py, m, raw, want).Some?
    ensures ReportOf(m).Some? && TaskOf(m, want).Some?
    ensures NativeReceipt(py, m, raw, want).value ==
      Receipt(TaskOf(m, want).value, 1, 0, EvidencePack, Summary(ReportOf(m).value),
        [Member("claimed_state", Str("ready_for_review")), Member("changed_files", Arr([])),
         Member("scope_violations", Arr([])),
         Member("validation_not_run", Str("executor returned native success envelope")),
         Member("report", Str(ReportOf(m).value))], raw)
  {
    ReportIs(m);
    TaskIs(m, want);
    hide NormalizeStatus;
    hide NativeSuccess;
    hide NativeTask;
    hide TaskOf;
    hide Report;
    hide ReportOf;
    hide Get;
    hide Summary;
    hide WRAPPED;
  }

  lemma TaskIs(m: seq<Member>, want: Want)
    ensures NativeTask(m, want) == TaskOf(m, want)
  {
    hide Get;
    hide Blank;
  }

  lemma SucceedsIff(py: Python, m: seq<Member>)
    ensures Succeeds(py, m) <==> NativeSuccess(py, m)
  {
    LowerIs(py, Get(m, "status"));
    LowerIs(py, Get(m, "subtype"));
    LowerIs(py, Get(m, "type"));
    LowerIs(py, if Truthy(Get(m, "stop_reason")) then Get(m, "stop_reason") else Get(m, "stopReason"));
    hide Lower;
    hide Word;
    hide Get;
    hide Truthy;
  }

  /** The summary of a report: its first line that is not blank, without the blanks around; cut to 177 characters and
      three dots when it is longer than 180. */
  lemma SummaryIs(report: string)
    ensures var lines := SplitLines(report);
      && ((forall k :: 0 <= k < |lines| ==> Blank(lines[k])) ==> Summary(report) == "Executor produced a report")
      && (forall k :: 0 <= k < |lines| && !Blank(lines[k]) && (forall j :: 0 <= j < k ==> Blank(lines[j])) ==>
            Summary(report) ==
              if |Strip(lines[k])| <= 180 then Strip(lines[k]) else RStrip(Strip(lines[k])[..177]) + "...")
  {
    SummaryCuts(report);
    ShortLine();
    hide *;
    FirstLineIs(SplitLines(report));
  }

  lemma SummaryCuts(report: string)
    ensures var line := Receipts.FirstLine(SplitLines(report));
      Summary(report) == if |line| <= 180 then line else RStrip(line[..177]) + "..."
  {
    hide SplitLines;
    hide RStrip;
  }

  lemma ShortLine()
    ensures |"Executor produced a report"| <= 180
  {
  }

  lemma {:induction false} FirstLineIs(lines: seq<string>)
    ensures (forall k :: 0 <= k < |lines| ==> Blank(lines[k])) ==> Receipts.FirstLine(lines) == "Executor produced a report"
    ensures forall k :: 0 <= k < |lines| && !Blank(lines[k]) && (forall j :: 0 <= j < k ==> Blank(lines[j])) ==>
      Receipts.FirstLine(lines) == Strip(lines[k])
  {
    hide Blank;
    hide Strip;
    if lines != [] {
      FirstLineIs(lines[1..]);
      forall k | 0 < k < |lines| && !Blank(lines[k]) && (forall j :: 0 <= j < k ==> Blank(lines[j]))
        ensures Receipts.FirstLine(lines) == Strip(lines[k])
      {
        assert lines[1..][k - 1] == lines[k];
        assert forall j :: 0 <= j < k - 1 ==> lines[1..][j] == lines[j + 1];
        assert Blank(lines[0]);
      }
    }
  }

  // ----- the texts of an envelope -----

  /** The order in which the texts of a dictionary are tried: by the six known keys, whatever order they are written in,
      and then the others as they are written. */
  lemma TextsInOrder(members: seq<Member>)
    ensures Texts(Obj(members)) ==
      Under(members, "result") + Under(members, "output") + Under(members, "text") + Under(members, "content")
      + Under(members, "message") + Under(members, "response") + OtherTexts(members)
  {
    hide OtherTexts;
    hide KeyTexts;
    var a, b, c, d, e, f := "result", "output", "text", "content", "message", "response";
    assert WRAPPED == [a, b, c, d, e, f];
    KeyedSix(members, a, b, c, d, e, f);
    UnderIs(members, a);
    UnderIs(members, b);
    UnderIs(members, c);
    UnderIs(members, d);
    UnderIs(members, e);
    UnderIs(members, f);
    hide Under;
  }

  /** The texts under one key. */
  function Under(members: seq<Member>, key: string): seq<string> {
    if Position(members, key) < |members| then Texts(Get(members, key)) else []
  }

  lemma UnderIs(members: seq<Member>, key: string)
    ensures Under(members, key) == KeyTexts(members, key)
  {
    hide Texts;
    hide Position;
  }

  lemma KeyedSix(members: seq<Member>, a: string, b: string, c: string, d: string, e: string, f: string)
    ensures KeyedTexts(members, [a, b, c, d, e, f]) ==
      KeyTexts(members, a) + KeyTexts(members, b) + KeyTexts(members, c) + KeyTexts(members, d)
      + KeyTexts(members, e) + KeyTexts(members, f)
  {
    hide KeyTexts;
    KeyedAppend(members, [a, b, c, d, e], f);
    KeyedAppend(members, [a, b, c, d], e);
    KeyedAppend(members, [a, b, c], d);
    KeyedAppend(members, [a, b], c);
    KeyedAppend(members, [a], b);
    KeyedAppend(members, [], a);
    assert KeyedTexts(members, []) == [];
    hide KeyedTexts;
    assert [a, b, c, d, e] + [f] == [a, b, c, d, e, f] && [a, b, c, d] + [e] == [a, b, c, d, e];
    assert [a, b, c] + [d] == [a, b, c, d] && [a, b] + [c] == [a, b, c] && [a] + [b] == [a, b] && [] + [a] == [a];
  }

  lemma KeyedAppend(members: seq<Member>, keys: seq<string>, key: string)
    ensures KeyedTexts(members, keys + [key]) == KeyedTexts(members, keys) + KeyTexts(members, key)
  {
    hide KeyTexts;
    assert (keys + [key])[..|keys|] == keys;
  }

  /** The texts under the other keys, in the order they are written. */
  lemma OthersInOrder(members: seq<Member>, last: Member)
    ensures OtherTexts(members + [last]) == OtherTexts(members) +
      if last.key == "result" || last.key == "output" || last.key == "text" || last.key == "content" || last.key == "message"
         || last.key == "response"
      then [] else Texts(last.value)
  {
    hide Texts;
    assert (members + [last])[..|members|] == members;
    assert WRAPPED == ["result", "output", "text", "content", "message", "response"];
  }

  // ----- the warnings -----

  predicate Lacks(payload: Value, key: string) {
    payload.Obj? && !HasText(payload.members, key)
  }

  /** The warnings that go with a receipt, one by one. */
  lemma WarningsAre(py: Python, r: Receipt, source: Source, w: string)
    ensures w in Warnings(py, r, source) <==>
      var parsed := py.TryParse(r.raw);
      || (w == "mixed_text_json" && source == MixedText)
      || (w == "wrapped_text_json" && source == WrappedText)
      || (w == "native_success_envelope" && source == Native)
      || (parsed.Obj? &&
          var m := parsed.members;
          || (w == "schema_version_alias" && Truthy(Get(m, "schema_version"))
              && (Strip(Shown(py, Get(m, "schema_version"))) == "1.0" || Strip(Shown(py, Get(m, "schema_version"))) == "1.0.0"))
          || (w == "status_alias" && Get(m, "status").Str?
              && Strip(Get(m, "status").s) != "EVIDENCE_PACK" && Strip(Get(m, "status").s) != "BLOCKED"
              && Strip(Get(m, "status").s) != "COMMITTED"
              && exists status :: StandsFor(py, Get(m, "status"), status))
          || (w == "artifact_path_missing"
              && (Lacks(Get(m, "payload"), "raw_log_path") || Lacks(Get(m, "payload"), "receipt_path"))))
  {
    WarningsListed(py, r, source, w);
    var parsed := py.TryParse(r.raw);
    if parsed.Obj? {
      SchemaAliasIff(py, Get(parsed.members, "schema_version"));
      StatusAliasIff(py, Get(parsed.members, "status"));
      LacksIff(Get(parsed.members, "payload"));
    }
    hide *;
  }

  lemma WarningsListed(py: Python, r: Receipt, source: Source, w: string)
    ensures w in Warnings(py, r, source) <==>
      var parsed := py.TryParse(r.raw);
      || (w == "mixed_text_json" && source == MixedText)
      || (w == "wrapped_text_json" && source == WrappedText)
      || (w == "native_success_envelope" && source == Native)
      || (parsed.Obj? &&
          var m := parsed.members;
          || (w == "schema_version_alias" && IsSchemaAlias(py, Get(m, "schema_version")))
          || (w == "status_alias" && IsStatusAlias(py, Get(m, "status")))
          || (w == "artifact_path_missing" && LacksArtifact(Get(m, "payload"))))
  {
    hide IsSchemaAlias;
    hide IsStatusAlias;
    hide LacksArtifact;
    hide Get;
  }

  lemma SchemaAliasIff(py: Python, v: Value)
    ensures IsSchemaAlias(py, v) <==> Truthy(v) && (Strip(Shown(py, v)) == "1.0" || Strip(Shown(py, v)) == "1.0.0")
  {
    hide Truthy;
    assert Strip("") == "";
  }

  lemma StatusAliasIff(py: Python, v: Value)
    ensures IsStatusAlias(py, v) <==>
      v.Str? && Strip(v.s) != "EVIDENCE_PACK" && Strip(v.s) != "BLOCKED" && Strip(v.s) != "COMMITTED"
      && exists status :: StandsFor(py, v, status)
  {
    hide Strip;
    hide NormalizeStatus;
    forall status ensures StandsFor(py, v, status) <==> NormalizeStatus(py, v) == Some(status) {
      StandsForIff(py, v, status);
    }
    hide StandsFor;
    if NormalizeStatus(py, v).Some? {
      assert StandsFor(py, v, NormalizeStatus(py, v).value);
    }
  }

  lemma LacksIff(payload: Value)
    ensures LacksArtifact(payload) <==> Lacks(payload, "raw_log_path") || Lacks(payload, "receipt_path")
  {
    hide Get;
    hide Blank;
  }
}
