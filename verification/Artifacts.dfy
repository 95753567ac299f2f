/** What an executor left behind, sorted into artifacts. */
module Artifacts {
  import opened Options
  import opened Json
  import opened Text

  datatype Kind = Diff | PatchOrCommit | Report | StdoutSalvage | Evidence | Blocker | NothingUseful

  datatype State = Usable | NeedsReview | Blocked | Absent

  datatype Artifact = Artifact(kind: Kind, state: State, hardBlockers: seq<string>, softWarnings: seq<string>)

  datatype ArtifactResult = ArtifactResult(
    state: State, primary: Kind, artifacts: seq<Artifact>, globalBlockers: seq<string>, softWarnings: seq<string>)

  /** The receipt (if there is one) and what is found on disk: whether the report and receipt files have content, the
      text of stdout, the state of the repository. `completed` finds a completed report in a text, `upper` is
      `str.upper`. */
  datatype Input = Input(
    receipt: Option<seq<Member>>, reportFile: bool, stdoutText: Option<string>, receiptFile: bool, gitDirty: bool,
    scope: Option<seq<Member>>, protocolWarnings: seq<string>, protocolErrors: seq<string>,
    completed: Option<string> -> bool, upper: string -> string)
  {
    function Payload(): seq<Member> {
      if receipt.Some? && Get(receipt.value, "payload").Obj? then Get(receipt.value, "payload").members else []
    }
  }

  const GLOBAL_HARD_BLOCKERS: set<string> := {
    "executor_unavailable", "executor_auth_required", "executor_auth_failed", "executor_probe_failed",
    "executor_quota_exhausted", "approval_required", "authorization_violation", "authorization_profile_insufficient",
    "secret_or_token_exposure_detected", "uninspectable_artifacts", "process_crash_with_no_usable_artifact"}

  // ----- small readers -----

  /** The stripped text, if the value is a text that is not blank. */
  function StringValue(v: Value): Option<string> {
    if v.Str? && !Blank(v.s) then Some(Strip(v.s)) else None
  }

  predicate HasText(m: seq<Member>, key: string) {
    StringValue(Get(m, key)).Some?
  }

  predicate NamesFile(v: Value) {
    v.Str? && !Blank(v.s)
  }

  /** `_changed_files(value)` is not empty. */
  predicate ListsFiles(v: Value) {
    NamesFile(v) || (v.Arr? && exists i :: 0 <= i < |v.items| && NamesFile(v.items[i]))
  }

  function Unique(values: seq<string>): seq<string> {
    if values == [] then []
    else
      var n := |values| - 1;
      var before := Unique(values[..n]);
      if values[n] == "" || values[n] in before then before else before + [values[n]]
  }

  // ----- the artifacts -----

  function Warnings(i: Input): seq<string> {
    Unique(i.protocolWarnings + i.protocolErrors)
  }

  predicate HasReport(i: Input) {
    HasText(i.Payload(), "report") || i.reportFile
  }

  predicate HasSalvage(i: Input) {
    var candidate := StringValue(Get(i.Payload(), "stdout_report_candidate"));
    i.completed(if candidate.Some? then candidate else i.stdoutText)
  }

  predicate HasCommit(i: Input) {
    HasText(i.Payload(), "commit_ref") || HasText(i.Payload(), "commit") || HasText(i.Payload(), "commit_sha")
  }

  function ScopeFailures(scope: Option<seq<Member>>, earlier: bool): seq<string> {
    if scope.None? || Get(scope.value, "ok") != Bool(false) then []
    else
      var found :=
        (if Truthy(Get(scope.value, "forbidden_changed_files")) then ["forbidden_changes"] else [])
        + (if Truthy(Get(scope.value, "undeclared_changed_files")) then ["undeclared_changes"] else [])
        + (if Truthy(Get(scope.value, "missing_declared_files")) then ["missing_declared_changes"] else []);
      if found == [] && !earlier then ["scope_violations"] else found
  }

  function ApplyFailure(diff: seq<Member>): seq<string> {
    if Get(diff, "apply_check_ok") != Bool(false) then []
    else
      var reason := StringValue(Get(diff, "apply_check_reason"));
      [if reason.Some? then reason.value else "apply_check_failed"]
  }

  predicate HasKey(m: seq<Member>, key: string) {
    Position(m, key) < |m|
  }

  function DiffArtifact(diff: seq<Member>, gitDirty: bool, scope: Option<seq<Member>>): Option<Artifact> {
    if !Truthy(Get(diff, "has_patch")) && !gitDirty && !ListsFiles(Get(diff, "changed_files")) then None
    else
      var failure := ApplyFailure(diff);
      var blockers := failure + ScopeFailures(scope, failure != []);
      Some(Artifact(Diff,
        if blockers != [] then Blocked else if Get(diff, "apply_check_ok") == Bool(true) then Usable else NeedsReview,
        blockers, if HasKey(diff, "apply_check_ok") then [] else ["apply_check_missing"]))
  }

  function OneIf(here: bool, artifact: Artifact): seq<Artifact> {
    if here then [artifact] else []
  }

  function DiffPart(i: Input): seq<Artifact> {
    var diff := Get(i.Payload(), "worktree_diff");
    if diff.Obj? then
      var artifact := DiffArtifact(diff.members, i.gitDirty, i.scope);
      if artifact.Some? then [artifact.value] else []
    else
      OneIf(i.gitDirty || ListsFiles(Get(i.Payload(), "changed_files")),
            Artifact(Diff, NeedsReview, [], ["apply_check_missing"]))
  }

  function EvidencePart(i: Input): seq<Artifact> {
    var notRun := Truthy(Get(i.Payload(), "validation_not_run"));
    OneIf(Truthy(Get(i.Payload(), "validation")) || notRun,
          Artifact(Evidence, if notRun then NeedsReview else Usable, [], if notRun then ["validation_not_run"] else []))
  }

  function ReportPart(i: Input): seq<Artifact> {
    OneIf(HasReport(i), Artifact(Report, Usable, [], Warnings(i)))
  }

  function SalvagePart(i: Input): seq<Artifact> {
    OneIf(HasSalvage(i) && !HasReport(i),
          Artifact(StdoutSalvage, NeedsReview, [], Unique(["terminal_receipt_missing"] + Warnings(i))))
  }

  const COMMIT: Artifact := Artifact(PatchOrCommit, NeedsReview, [], ["commit_ref_unverified"])

  function CommitPart(i: Input): seq<Artifact> {
    OneIf(HasCommit(i), COMMIT)
  }

  /** `_artifact_tuple` */
  function ArtifactTuple(i: Input): seq<Artifact> {
    ReportPart(i) + SalvagePart(i) + DiffPart(i) + CommitPart(i) + EvidencePart(i)
  }

  method AppendScopeFailures(earlier: seq<string>, scope: Option<seq<Member>>) returns (blockers: seq<string>)
    ensures blockers == earlier + ScopeFailures(scope, earlier != [])
  {
    hide Position;
    hide Truthy;
    blockers := earlier;
    if scope.Some? && Get(scope.value, "ok") == Bool(false) {
      if Truthy(Get(scope.value, "forbidden_changed_files")) {
        blockers := blockers + ["forbidden_changes"];
      }
      if Truthy(Get(scope.value, "undeclared_changed_files")) {
        blockers := blockers + ["undeclared_changes"];
      }
      if Truthy(Get(scope.value, "missing_declared_files")) {
        blockers := blockers + ["missing_declared_changes"];
      }
      if blockers == [] {
        blockers := blockers + ["scope_violations"];
      }
    }
  }

  method ClassifyDiff(diff: seq<Member>, gitDirty: bool, scope: Option<seq<Member>>) returns (artifact: Option<Artifact>)
    ensures artifact == DiffArtifact(diff, gitDirty, scope)
  {
    hide Position;
    hide StringValue;
    hide Truthy;
    hide ListsFiles;
    hide ScopeFailures;
    if !Truthy(Get(diff, "has_patch")) && !gitDirty && !ListsFiles(Get(diff, "changed_files")) {
      return None;
    }
    var blockers: seq<string>, warnings: seq<string> := [], [];
    if Get(diff, "apply_check_ok") == Bool(false) {
      FailedCheckHasKey(diff);
      var reason := StringValue(Get(diff, "apply_check_reason"));
      blockers := blockers + [if reason.Some? then reason.value else "apply_check_failed"];
    } else if !HasKey(diff, "apply_check_ok") {
      warnings := warnings + ["apply_check_missing"];
    }
    assert blockers == ApplyFailure(diff);
    blockers := AppendScopeFailures(blockers, scope);
    var state :=
      if blockers != [] then Blocked else if Get(diff, "apply_check_ok") == Bool(true) then Usable else NeedsReview;
    assert blockers == ApplyFailure(diff) + ScopeFailures(scope, ApplyFailure(diff) != []);
    assert warnings == if HasKey(diff, "apply_check_ok") then [] else ["apply_check_missing"];
    assert DiffArtifact(diff, gitDirty, scope).Some?;
    return Some(Artifact(Diff, state, blockers, warnings));
  }

  lemma FailedCheckHasKey(diff: seq<Member>)
    ensures Get(diff, "apply_check_ok") == Bool(false) ==> HasKey(diff, "apply_check_ok")
  {
  }

  method AppendIf(earlier: seq<Artifact>, here: bool, artifact: Artifact) returns (artifacts: seq<Artifact>)
    ensures artifacts == earlier + OneIf(here, artifact)
  {
    artifacts := earlier;
    if here {
      artifacts := artifacts + [artifact];
    }
  }

  method CollectArtifacts(i: Input) returns (artifacts: seq<Artifact>)
    ensures artifacts == ArtifactTuple(i)
  {
    hide DiffArtifact;
    hide Warnings;
    hide HasReport;
    hide HasSalvage;
    hide HasCommit;
    hide ListsFiles;
    hide Get;
    hide Truthy;
    hide OneIf;
    hide Unique;
    var payload := i.Payload();
    var warnings := Warnings(i);
    artifacts := AppendIf([], HasReport(i), Artifact(Report, Usable, [], warnings));
    assert artifacts == ReportPart(i);
    artifacts := AppendIf(artifacts, HasSalvage(i) && !HasReport(i),
                          Artifact(StdoutSalvage, NeedsReview, [], Unique(["terminal_receipt_missing"] + warnings)));
    assert artifacts == ReportPart(i) + SalvagePart(i);
    var diff := Get(payload, "worktree_diff");
    ghost var before := artifacts;
    if diff.Obj? {
      var artifact := ClassifyDiff(diff.members, i.gitDirty, i.scope);
      if artifact.Some? {
        artifacts := artifacts + [artifact.value];
      }
    } else {
      artifacts := AppendIf(artifacts, i.gitDirty || ListsFiles(Get(payload, "changed_files")),
                            Artifact(Diff, NeedsReview, [], ["apply_check_missing"]));
    }
    assert artifacts == before + DiffPart(i);
    artifacts := AppendIf(artifacts, HasCommit(i), COMMIT);
    var notRun := Truthy(Get(payload, "validation_not_run"));
    artifacts := AppendIf(artifacts, Truthy(Get(payload, "validation")) || notRun,
      Artifact(Evidence, if notRun then NeedsReview else Usable, [], if notRun then ["validation_not_run"] else []));
  }

  // ----- the best artifact -----

  predicate Candidate(a: Artifact) {
    a.state == Usable || a.state == NeedsReview
  }

  function Priority(kind: Kind): nat {
    match kind
    case Diff => 0
    case PatchOrCommit => 1
    case Report => 2
    case StdoutSalvage => 3
    case Evidence => 4
    case Blocker => 5
    case NothingUseful => 6
  }

  /** Smaller is better: usable before reviewable, then by kind. */
  function Rank(a: Artifact): nat {
    (if a.state == Usable then 0 else 7) + Priority(a.kind)
  }

  /** The first of the best candidates. */
  function Best(artifacts: seq<Artifact>): Option<Artifact> {
    if artifacts == [] then None
    else
      var n := |artifacts| - 1;
      var before := Best(artifacts[..n]);
      if Candidate(artifacts[n]) && (before.None? || Rank(artifacts[n]) < Rank(before.value)) then Some(artifacts[n])
      else before
  }

  // ----- the classification -----

  function GlobalBlockers(i: Input): seq<string> {
    var blocker := StringValue(Get(i.Payload(), "blocker_type"));
    if blocker.Some? && blocker.value in GLOBAL_HARD_BLOCKERS then [blocker.value] else []
  }

  predicate AnyUnusable(artifacts: seq<Artifact>) {
    exists k :: 0 <= k < |artifacts| && (artifacts[k].state == NeedsReview || artifacts[k].state == Blocked)
  }

  const NOTHING: Artifact := Artifact(NothingUseful, Blocked, [], [])

  function Classify(i: Input): ArtifactResult {
    var artifacts := ArtifactTuple(i);
    var best := Best(artifacts);
    var blockers := GlobalBlockers(i);
    if blockers != [] then
      var primary := if best.Some? then best.value else NOTHING;
      ArtifactResult(Blocked, primary.kind, if artifacts != [] then artifacts else [primary], blockers, Warnings(i))
    else if best.None? then
      var thought := i.stdoutText.Some? && i.stdoutText.value != "";
      ArtifactResult(Blocked, NothingUseful, artifacts + [NOTHING],
                     [if thought then "thought_only_output" else "no_useful_artifact"], Warnings(i))
    else
      ArtifactResult(if best.value.state == Usable && !AnyUnusable(artifacts) then Usable else NeedsReview,
                     best.value.kind, artifacts, [], Warnings(i))
  }
}
