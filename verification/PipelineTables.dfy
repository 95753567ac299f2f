/** The decision pipeline from its input on: which fields of a receipt and which findings lead to which classification,
    decision and recovery, field by field and word by word. */
module PipelineTables {
  import opened Options
  import opened Json
  import opened Text
  import opened Adoption
  import opened Recovery
  import opened PipelineLaws

  // ----- the input, field by field -----

  /** A field of the receipt's payload; without a payload, nothing. */
  function Field(i: A.Input, key: string): Value {
    if i.receipt.Some? && Get(i.receipt.value, "payload").Obj? then Get(Get(i.receipt.value, "payload").members, key) else Null
  }

  lemma FieldIs(i: A.Input)
    ensures forall key :: Field(i, key) == Get(i.Payload(), key)
  {
    forall key ensures Field(i, key) == Get(i.Payload(), key) {
      NoField(key);
      hide Get;
    }
  }

  lemma NoField(key: string)
    ensures Get([], key) == Null
  {
  }

  /** A file is named: a text that is not blank, or a list with one. */
  predicate Lists(v: Value) {
    Named(v) || (v.Arr? && exists x :: x in v.items && Named(x))
  }

  lemma ListsIff(v: Value)
    ensures A.ListsFiles(v) <==> Lists(v)
  {
    if v.Arr? && exists x :: x in v.items && Named(x) {
      var x :| x in v.items && Named(x);
      var k :| 0 <= k < |v.items| && v.items[k] == x;
      assert A.NamesFile(v.items[k]);
    }
    assert v.Arr? ==> forall k :: 0 <= k < |v.items| ==> v.items[k] in v.items;
    assert forall x :: A.NamesFile(x) <==> Named(x);
  }

  lemma ListsAre()
    ensures forall v :: A.ListsFiles(v) <==> Lists(v)
  {
    forall v ensures A.ListsFiles(v) <==> Lists(v) {
      ListsIff(v);
    }
  }

  /** The dictionary has the key. */
  predicate Keyed(m: seq<Member>, key: string) {
    exists x :: x in m && x.key == key
  }

  lemma {:induction false} KeyedIff(m: seq<Member>, key: string)
    ensures A.HasKey(m, key) <==> Keyed(m, key)
  {
    if m != [] {
      KeyedIff(m[1..], key);
      assert m == [m[0]] + m[1..];
      assert m[0] in m;
      if x :| x in m && x.key == key {
        assert x == m[0] || x in m[1..];
      }
    }
  }

  /** A text that is not blank. */
  predicate Named(v: Value) {
    v.Str? && !Blank(v.s)
  }

  predicate ReportNamed(i: A.Input) {
    Named(Field(i, "report")) || i.reportFile
  }

  /** A completed report among the texts the executor printed. */
  predicate Printed(i: A.Input) {
    i.completed(if Named(Field(i, "stdout_report_candidate")) then Some(Strip(Field(i, "stdout_report_candidate").s))
                else i.stdoutText)
  }

  predicate CommitNamed(i: A.Input) {
    Named(Field(i, "commit_ref")) || Named(Field(i, "commit")) || Named(Field(i, "commit_sha"))
  }

  predicate Validated(i: A.Input) {
    Truthy(Field(i, "validation"))
  }

  predicate NotValidated(i: A.Input) {
    Truthy(Field(i, "validation_not_run"))
  }

  /** The worktree diff is described by a dictionary. */
  predicate Described(i: A.Input) {
    Field(i, "worktree_diff").Obj?
  }

  function InDiff(i: A.Input, key: string): Value
    requires Described(i)
  {
    Get(Field(i, "worktree_diff").members, key)
  }

  /** There is a diff to speak of. */
  predicate Changed(i: A.Input) {
    i.gitDirty || if Described(i) then Truthy(InDiff(i, "has_patch")) || Lists(InDiff(i, "changed_files"))
                  else Lists(Field(i, "changed_files"))
  }

  /** The diff does not apply, or the scope was not kept. */
  predicate Spoilt(i: A.Input) {
    Described(i) && (InDiff(i, "apply_check_ok") == Bool(false) || (i.scope.Some? && Get(i.scope.value, "ok") == Bool(false)))
  }

  predicate Applies(i: A.Input) {
    Described(i) && InDiff(i, "apply_check_ok") == Bool(true)
  }

  /** The receipt names one of the eleven blockers that spoil any result. */
  predicate Fatally(i: A.Input) {
    Named(Field(i, "blocker_type")) && Strip(Field(i, "blocker_type").s) in {
      "executor_unavailable", "executor_auth_required", "executor_auth_failed", "executor_probe_failed",
      "executor_quota_exhausted", "approval_required", "authorization_violation", "authorization_profile_insufficient",
      "secret_or_token_exposure_detected", "uninspectable_artifacts", "process_crash_with_no_usable_artifact"}
  }

  // ----- the artifacts -----

  lemma FatallyIff(i: A.Input)
    ensures A.GlobalBlockers(i) != [] <==> Fatally(i)
  {
    FieldIs(i);
    hide Position;
  }

  lemma ReportPartIs(i: A.Input)
    ensures A.HasReport(i) <==> ReportNamed(i)
    ensures A.ReportPart(i) == if ReportNamed(i) then [A.Artifact(A.Report, A.Usable, [], A.Warnings(i))] else []
  {
    FieldIs(i);
    hide Position;
    hide A.Warnings;
  }

  lemma SalvagePartIs(i: A.Input)
    ensures A.SalvagePart(i) == if Printed(i) && !ReportNamed(i) then
        [A.Artifact(A.StdoutSalvage, A.NeedsReview, [], A.Unique(["terminal_receipt_missing"] + A.Warnings(i)))]
      else []
  {
    FieldIs(i);
    ReportPartIs(i);
    hide A.HasReport;
    hide ReportNamed;
    hide Position;
    hide A.Warnings;
    hide A.Unique;
  }

  lemma CommitPartIs(i: A.Input)
    ensures A.CommitPart(i) ==
      if CommitNamed(i) then [A.Artifact(A.PatchOrCommit, A.NeedsReview, [], ["commit_ref_unverified"])] else []
  {
    FieldIs(i);
    hide Position;
  }

  lemma EvidencePartIs(i: A.Input)
    ensures A.EvidencePart(i) ==
      if NotValidated(i) then [A.Artifact(A.Evidence, A.NeedsReview, [], ["validation_not_run"])]
      else if Validated(i) then [A.Artifact(A.Evidence, A.Usable, [], [])]
      else []
  {
    FieldIs(i);
    hide Position;
    hide Truthy;
  }

  /** A diff is blocked when it is spoilt, usable when it applies, and to be reviewed else. */
  lemma DiffPartIs(i: A.Input)
    ensures var part := A.DiffPart(i);
      if !Changed(i) then part == []
      else
        && |part| == 1 && part[0].kind == A.Diff
        && part[0].state == (if Spoilt(i) then A.Blocked else if Applies(i) then A.Usable else A.NeedsReview)
        && (part[0].hardBlockers != [] <==> Spoilt(i))
  {
    FieldIs(i);
    ListsAre();
    hide Position;
    hide Truthy;
    hide A.ListsFiles;
    hide Lists;
    hide A.StringValue;
    if Described(i) {
      ScopeFails(i.scope, A.ApplyFailure(Field(i, "worktree_diff").members) != []);
    }
    hide A.ScopeFailures;
  }

  // ----- what a spoilt diff names -----

  /** The names of the blockers of a diff: why it does not apply, and how the scope was not kept. */
  predicate DiffNamed(i: A.Input, x: string)
    requires Described(i)
  {
    var unfit := InDiff(i, "apply_check_ok") == Bool(false);
    var reason := InDiff(i, "apply_check_reason");
    || (unfit && x == if Named(reason) then Strip(reason.s) else "apply_check_failed")
    || (i.scope.Some? && Get(i.scope.value, "ok") == Bool(false) &&
        var m := i.scope.value;
        || (x == "forbidden_changes" && Truthy(Get(m, "forbidden_changed_files")))
        || (x == "undeclared_changes" && Truthy(Get(m, "undeclared_changed_files")))
        || (x == "missing_declared_changes" && Truthy(Get(m, "missing_declared_files")))
        || (x == "scope_violations" && !unfit && !Truthy(Get(m, "forbidden_changed_files"))
            && !Truthy(Get(m, "undeclared_changed_files")) && !Truthy(Get(m, "missing_declared_files"))))
  }

  /** The blockers and warnings of the diff among the artifacts, name by name. */
  lemma DiffNames(i: A.Input, x: string)
    requires Changed(i)
    ensures |A.DiffPart(i)| == 1
    ensures x in A.DiffPart(i)[0].hardBlockers <==> Described(i) && DiffNamed(i, x)
    ensures A.DiffPart(i)[0].softWarnings ==
      if Described(i) && Keyed(Field(i, "worktree_diff").members, "apply_check_ok") then [] else ["apply_check_missing"]
  {
    FieldIs(i);
    DiffPartIs(i);
    ListsAre();
    if Described(i) {
      KeyedIff(Field(i, "worktree_diff").members, "apply_check_ok");
      ApplyNames(Field(i, "worktree_diff").members, x);
      ScopeNames(i.scope, A.ApplyFailure(Field(i, "worktree_diff").members) != [], x);
    }
    hide A.ListsFiles;
    hide Lists;
    hide A.HasKey;
    hide Keyed;
    hide Field;
    hide Get;
    hide Truthy;
    hide Strip;
    hide A.ApplyFailure;
    hide A.ScopeFailures;
  }

  lemma ApplyNames(diff: seq<Member>, x: string)
    ensures A.ApplyFailure(diff) != [] <==> Get(diff, "apply_check_ok") == Bool(false)
    ensures x in A.ApplyFailure(diff) <==>
      && Get(diff, "apply_check_ok") == Bool(false)
      && x == if Named(Get(diff, "apply_check_reason")) then Strip(Get(diff, "apply_check_reason").s) else "apply_check_failed"
  {
    hide Get;
    hide Strip;
  }

  lemma ScopeNames(scope: Option<seq<Member>>, earlier: bool, x: string)
    ensures x in A.ScopeFailures(scope, earlier) <==>
      scope.Some? && Get(scope.value, "ok") == Bool(false) &&
        var m := scope.value;
        || (x == "forbidden_changes" && Truthy(Get(m, "forbidden_changed_files")))
        || (x == "undeclared_changes" && Truthy(Get(m, "undeclared_changed_files")))
        || (x == "missing_declared_changes" && Truthy(Get(m, "missing_declared_files")))
        || (x == "scope_violations" && !earlier && !Truthy(Get(m, "forbidden_changed_files"))
            && !Truthy(Get(m, "undeclared_changed_files")) && !Truthy(Get(m, "missing_declared_files")))
  {
    hide Get;
    hide Truthy;
  }

  lemma ScopeFails(scope: Option<seq<Member>>, earlier: bool)
    ensures var bad := scope.Some? && Get(scope.value, "ok") == Bool(false);
      && (!bad ==> A.ScopeFailures(scope, earlier) == [])
      && (bad && !earlier ==> A.ScopeFailures(scope, earlier) != [])
  {
    hide Position;
    hide Truthy;
  }

  function DiffState(i: A.Input): A.State {
    if Spoilt(i) then A.Blocked else if Applies(i) then A.Usable else A.NeedsReview
  }

  /** What an artifact of the result says of the input. */
  predicate Explains(i: A.Input, a: A.Artifact) {
    match a.kind
    case Report => a.state == A.Usable && ReportNamed(i) && a.hardBlockers == []
    case StdoutSalvage => a.state == A.NeedsReview && Printed(i) && !ReportNamed(i) && a.hardBlockers == []
    case Diff => a.state == DiffState(i) && Changed(i) && (a.hardBlockers != [] <==> Spoilt(i))
    case PatchOrCommit => a.state == A.NeedsReview && CommitNamed(i) && a.hardBlockers == []
    case Evidence =>
      a.hardBlockers == []
      && if NotValidated(i) then a.state == A.NeedsReview else Validated(i) && a.state == A.Usable
    case _ => false
  }

  ghost predicate Has(artifacts: seq<A.Artifact>, kind: A.Kind, state: A.State) {
    exists a :: a in artifacts && a.kind == kind && a.state == state
  }

  lemma ReportSays(i: A.Input)
    ensures var t := A.ReportPart(i);
      (forall a :: a in t ==> Explains(i, a)) && (ReportNamed(i) ==> Has(t, A.Report, A.Usable))
  {
    ReportPartIs(i);
    hide A.ReportPart;
    hide ReportNamed;
    hide A.Warnings;
    if ReportNamed(i) {
      assert A.ReportPart(i)[0] in A.ReportPart(i);
    }
  }

  lemma SalvageSays(i: A.Input)
    ensures var t := A.SalvagePart(i);
      (forall a :: a in t ==> Explains(i, a)) && (Printed(i) && !ReportNamed(i) ==> Has(t, A.StdoutSalvage, A.NeedsReview))
  {
    SalvagePartIs(i);
    hide A.SalvagePart;
    hide ReportNamed;
    hide Printed;
    hide A.Warnings;
    hide A.Unique;
    if Printed(i) && !ReportNamed(i) {
      assert A.SalvagePart(i)[0] in A.SalvagePart(i);
    }
  }

  lemma DiffSays(i: A.Input)
    ensures var t := A.DiffPart(i);
      (forall a :: a in t ==> Explains(i, a)) && (Changed(i) ==> Has(t, A.Diff, DiffState(i)))
  {
    DiffPartIs(i);
    hide A.DiffPart;
    hide Changed;
    hide Spoilt;
    hide Applies;
    if Changed(i) {
      assert A.DiffPart(i)[0] in A.DiffPart(i);
    }
  }

  lemma CommitSays(i: A.Input)
    ensures var t := A.CommitPart(i);
      (forall a :: a in t ==> Explains(i, a)) && (CommitNamed(i) ==> Has(t, A.PatchOrCommit, A.NeedsReview))
  {
    CommitPartIs(i);
    hide A.CommitPart;
    hide CommitNamed;
    if CommitNamed(i) {
      assert A.CommitPart(i)[0] in A.CommitPart(i);
    }
  }

  lemma EvidenceSays(i: A.Input)
    ensures var t := A.EvidencePart(i);
      && (forall a :: a in t ==> Explains(i, a))
      && (NotValidated(i) ==> Has(t, A.Evidence, A.NeedsReview))
      && (Validated(i) && !NotValidated(i) ==> Has(t, A.Evidence, A.Usable))
  {
    EvidencePartIs(i);
    hide A.EvidencePart;
    hide NotValidated;
    hide Validated;
    if NotValidated(i) || Validated(i) {
      assert A.EvidencePart(i)[0] in A.EvidencePart(i);
    }
  }

  lemma HasMore(part: seq<A.Artifact>, all: seq<A.Artifact>, kind: A.Kind, state: A.State)
    requires forall a :: a in part ==> a in all
    ensures Has(part, kind, state) ==> Has(all, kind, state)
  {
  }

  lemma PartsOfAll(i: A.Input)
    ensures var t := A.ArtifactTuple(i);
      var r, s, d, c, e := A.ReportPart(i), A.SalvagePart(i), A.DiffPart(i), A.CommitPart(i), A.EvidencePart(i);
      forall a :: a in t <==> a in r || a in s || a in d || a in c || a in e
  {
    hide A.ReportPart;
    hide A.SalvagePart;
    hide A.DiffPart;
    hide A.CommitPart;
    hide A.EvidencePart;
  }

  /** The artifacts are those that the input gives rise to. */
  lemma TupleIs(i: A.Input)
    ensures var t := A.ArtifactTuple(i);
      && (forall a :: a in t ==> Explains(i, a))
      && (ReportNamed(i) ==> Has(t, A.Report, A.Usable))
      && (Printed(i) && !ReportNamed(i) ==> Has(t, A.StdoutSalvage, A.NeedsReview))
      && (Changed(i) ==> Has(t, A.Diff, DiffState(i)))
      && (CommitNamed(i) ==> Has(t, A.PatchOrCommit, A.NeedsReview))
      && (NotValidated(i) ==> Has(t, A.Evidence, A.NeedsReview))
      && (Validated(i) && !NotValidated(i) ==> Has(t, A.Evidence, A.Usable))
  {
    hide *;
    ReportSays(i);
    SalvageSays(i);
    DiffSays(i);
    CommitSays(i);
    EvidenceSays(i);
    PartsOfAll(i);
    var t := A.ArtifactTuple(i);
    HasMore(A.ReportPart(i), t, A.Report, A.Usable);
    HasMore(A.SalvagePart(i), t, A.StdoutSalvage, A.NeedsReview);
    HasMore(A.DiffPart(i), t, A.Diff, DiffState(i));
    HasMore(A.CommitPart(i), t, A.PatchOrCommit, A.NeedsReview);
    HasMore(A.EvidencePart(i), t, A.Evidence, A.NeedsReview);
    HasMore(A.EvidencePart(i), t, A.Evidence, A.Usable);
  }

  // ----- the classification -----

  /** Something to use or to review. */
  predicate Something(i: A.Input) {
    ReportNamed(i) || Printed(i) || (Changed(i) && !Spoilt(i)) || CommitNamed(i) || Validated(i) || NotValidated(i)
  }

  /** Nothing that awaits review, and nothing that is spoilt. */
  predicate NothingOpen(i: A.Input) {
    (ReportNamed(i) || !Printed(i)) && (Changed(i) ==> Applies(i) && !Spoilt(i)) && !CommitNamed(i) && !NotValidated(i)
  }

  lemma HasIsCandidate(t: seq<A.Artifact>, kind: A.Kind, state: A.State)
    requires Has(t, kind, state) && (state == A.Usable || state == A.NeedsReview)
    ensures !NoCandidate(t) && (state == A.NeedsReview ==> A.AnyUnusable(t))
  {
    var a :| a in t && a.kind == kind && a.state == state;
    var k :| 0 <= k < |t| && t[k] == a;
    assert A.Candidate(t[k]);
  }

  /** The artifacts, as far as their kinds and states go. */
  predicate Told(i: A.Input, t: seq<A.Artifact>) {
    forall k :: 0 <= k < |t| ==> Explains(i, t[k])
  }

  lemma TupleTold(i: A.Input)
    ensures Told(i, A.ArtifactTuple(i))
  {
    hide *;
    TupleIs(i);
    ToldByAll(i, A.ArtifactTuple(i));
  }

  lemma ToldByAll(i: A.Input, t: seq<A.Artifact>)
    requires forall a :: a in t ==> Explains(i, a)
    ensures Told(i, t)
  {
    hide Explains;
  }

  lemma SomethingIsThere(i: A.Input)
    requires Something(i)
    ensures !NoCandidate(A.ArtifactTuple(i))
  {
    hide *;
    TupleIs(i);
    var t := A.ArtifactTuple(i);
    SomethingIs(i);
    DiffStateIs(i);
    if ReportNamed(i) {
      HasIsCandidate(t, A.Report, A.Usable);
    } else if Printed(i) {
      HasIsCandidate(t, A.StdoutSalvage, A.NeedsReview);
    } else if Changed(i) && !Spoilt(i) {
      HasIsCandidate(t, A.Diff, DiffState(i));
    } else if CommitNamed(i) {
      HasIsCandidate(t, A.PatchOrCommit, A.NeedsReview);
    } else if NotValidated(i) {
      HasIsCandidate(t, A.Evidence, A.NeedsReview);
    } else {
      HasIsCandidate(t, A.Evidence, A.Usable);
    }
  }

  lemma SomethingIs(i: A.Input)
    ensures Something(i) <==>
      ReportNamed(i) || Printed(i) || (Changed(i) && !Spoilt(i)) || CommitNamed(i) || Validated(i) || NotValidated(i)
  {
  }

  lemma DiffStateIs(i: A.Input)
    ensures Spoilt(i) ==> DiffState(i) == A.Blocked
    ensures !Spoilt(i) ==> DiffState(i) == if Applies(i) then A.Usable else A.NeedsReview
  {
  }

  lemma CandidateSays(i: A.Input, a: A.Artifact)
    requires Explains(i, a) && A.Candidate(a)
    ensures Something(i)
  {
    hide ReportNamed;
    hide Printed;
    hide Changed;
    hide Spoilt;
    hide Applies;
    hide CommitNamed;
    hide Validated;
    hide NotValidated;
  }

  lemma CandidateIff(i: A.Input)
    ensures !NoCandidate(A.ArtifactTuple(i)) <==> Something(i)
  {
    TupleTold(i);
    hide A.ArtifactTuple;
    hide Something;
    hide Explains;
    hide A.Candidate;
    if Something(i) {
      SomethingIsThere(i);
    }
    if !NoCandidate(A.ArtifactTuple(i)) {
      var t := A.ArtifactTuple(i);
      var k :| 0 <= k < |t| && A.Candidate(t[k]);
      CandidateSays(i, t[k]);
    }
  }

  lemma HasIsOpen(t: seq<A.Artifact>, kind: A.Kind, state: A.State)
    requires Has(t, kind, state) && (state == A.NeedsReview || state == A.Blocked)
    ensures A.AnyUnusable(t)
  {
    var a :| a in t && a.kind == kind && a.state == state;
    var k :| 0 <= k < |t| && t[k] == a;
  }

  lemma OpenSays(i: A.Input, a: A.Artifact)
    requires Explains(i, a) && (a.state == A.NeedsReview || a.state == A.Blocked)
    ensures !NothingOpen(i)
  {
    hide ReportNamed;
    hide Printed;
    hide Changed;
    hide Spoilt;
    hide Applies;
    hide CommitNamed;
    hide Validated;
    hide NotValidated;
  }

  lemma NothingOpenIs(i: A.Input)
    ensures NothingOpen(i) <==>
      (ReportNamed(i) || !Printed(i)) && (Changed(i) ==> Applies(i) && !Spoilt(i)) && !CommitNamed(i) && !NotValidated(i)
  {
  }

  lemma OpenIff(i: A.Input)
    ensures A.AnyUnusable(A.ArtifactTuple(i)) <==> !NothingOpen(i)
  {
    TupleTold(i);
    hide A.ArtifactTuple;
    hide Explains;
    hide NothingOpen;
    var t := A.ArtifactTuple(i);
    if !NothingOpen(i) {
      hide *;
      TupleIs(i);
      NothingOpenIs(i);
      DiffStateIs(i);
      if CommitNamed(i) {
        HasIsOpen(t, A.PatchOrCommit, A.NeedsReview);
      } else if NotValidated(i) {
        HasIsOpen(t, A.Evidence, A.NeedsReview);
      } else if Printed(i) && !ReportNamed(i) {
        HasIsOpen(t, A.StdoutSalvage, A.NeedsReview);
      } else {
        HasIsOpen(t, A.Diff, DiffState(i));
      }
    } else if A.AnyUnusable(t) {
      var k :| 0 <= k < |t| && (t[k].state == A.NeedsReview || t[k].state == A.Blocked);
      OpenSays(i, t[k]);
    }
  }

  /** The state of a classification, from the input: blocked by one of the eleven blockers or for want of anything; usable
      when nothing awaits review and nothing is spoilt; to be reviewed else. */
  lemma StateFromInput(i: A.Input)
    ensures A.Classify(i).state ==
      if Fatally(i) || !Something(i) then A.Blocked else if NothingOpen(i) then A.Usable else A.NeedsReview
  {
    hide *;
    FatallyIff(i);
    CandidateIff(i);
    OpenIff(i);
    ClassifyShape(i);
    if !Fatally(i) && Something(i) {
      StateOf(i);
    }
  }

  lemma StateOf(i: A.Input)
    requires A.GlobalBlockers(i) == [] && !NoCandidate(A.ArtifactTuple(i))
    ensures A.Classify(i).state == if A.AnyUnusable(A.ArtifactTuple(i)) then A.NeedsReview else A.Usable
  {
    hide A.ArtifactTuple;
    hide A.GlobalBlockers;
    hide A.Best;
    BestIsBest(A.ArtifactTuple(i));
    var t := A.ArtifactTuple(i);
    if A.Best(t).Some? {
      var k :| 0 <= k < |t| && t[k] == A.Best(t).value;
    }
  }

  /** The primary artifact, from the input: what can be used comes before what must be reviewed; among those, code before
      reports before notes. */
  lemma PrimaryFromInput(i: A.Input)
    requires !Fatally(i) && Something(i)
    ensures A.Classify(i).primary ==
      if Changed(i) && Applies(i) && !Spoilt(i) then A.Diff
      else if ReportNamed(i) then A.Report
      else if Validated(i) && !NotValidated(i) then A.Evidence
      else if Changed(i) && !Spoilt(i) then A.Diff
      else if CommitNamed(i) then A.PatchOrCommit
      else if Printed(i) then A.StdoutSalvage
      else A.Evidence
  {
    hide *;
    FatallyIff(i);
    CandidateIff(i);
    TupleIs(i);
    BestIsBest(A.ArtifactTuple(i));
    PrimaryIsBest(i);
    RankedFirst(i, A.ArtifactTuple(i), A.Best(A.ArtifactTuple(i)).value);
  }

  lemma PrimaryIsBest(i: A.Input)
    requires A.GlobalBlockers(i) == [] && A.Best(A.ArtifactTuple(i)).Some?
    ensures A.Classify(i).primary == A.Best(A.ArtifactTuple(i)).value.kind
  {
    hide A.ArtifactTuple;
    hide A.GlobalBlockers;
    hide A.Best;
  }

  /** What a blocked classification names: the fatal blocker, or that there was nothing but text, or nothing at all; and
      it keeps the artifacts there are. */
  lemma BlockedFromInput(i: A.Input)
    requires Fatally(i) || !Something(i)
    ensures A.Classify(i).globalBlockers ==
      if Fatally(i) then [Strip(Field(i, "blocker_type").s)]
      else if i.stdoutText == None || i.stdoutText == Some("") then ["no_useful_artifact"]
      else ["thought_only_output"]
    ensures forall a :: a in A.ArtifactTuple(i) ==> a in A.Classify(i).artifacts
  {
    FatalName(i);
    CandidateIff(i);
    BestIsBest(A.ArtifactTuple(i));
    hide A.ArtifactTuple;
    hide A.GlobalBlockers;
    hide A.Best;
    hide Fatally;
    hide Something;
    hide Field;
    hide Strip;
  }

  lemma FatalName(i: A.Input)
    ensures A.GlobalBlockers(i) == if Fatally(i) then [Strip(Field(i, "blocker_type").s)] else []
  {
    FatallyIff(i);
    FieldIs(i);
    assert Fatally(i) ==> Named(Field(i, "blocker_type"));
    hide Get;
    hide Field;
    hide Fatally;
    hide A.GLOBAL_HARD_BLOCKERS;
  }

  /** No artifact of that kind and state ranks before the best. */
  lemma NotBefore(t: seq<A.Artifact>, best: A.Artifact, kind: A.Kind, state: A.State)
    requires forall k :: 0 <= k < |t| && A.Candidate(t[k]) ==> A.Rank(best) <= A.Rank(t[k])
    requires state == A.Usable || state == A.NeedsReview
    ensures Has(t, kind, state) ==> A.Rank(best) <= A.Rank(A.Artifact(kind, state, [], []))
  {
    if Has(t, kind, state) {
      var a :| a in t && a.kind == kind && a.state == state;
      var k :| 0 <= k < |t| && t[k] == a;
      assert A.Candidate(t[k]);
    }
  }

  lemma RankedFirst(i: A.Input, t: seq<A.Artifact>, best: A.Artifact)
    requires Explains(i, best) && A.Candidate(best)
    requires forall k :: 0 <= k < |t| && A.Candidate(t[k]) ==> A.Rank(best) <= A.Rank(t[k])
    requires ReportNamed(i) ==> Has(t, A.Report, A.Usable)
    requires Printed(i) && !ReportNamed(i) ==> Has(t, A.StdoutSalvage, A.NeedsReview)
    requires Changed(i) ==> Has(t, A.Diff, DiffState(i))
    requires CommitNamed(i) ==> Has(t, A.PatchOrCommit, A.NeedsReview)
    requires NotValidated(i) ==> Has(t, A.Evidence, A.NeedsReview)
    requires Validated(i) && !NotValidated(i) ==> Has(t, A.Evidence, A.Usable)
    ensures best.kind ==
      if Changed(i) && Applies(i) && !Spoilt(i) then A.Diff
      else if ReportNamed(i) then A.Report
      else if Validated(i) && !NotValidated(i) then A.Evidence
      else if Changed(i) && !Spoilt(i) then A.Diff
      else if CommitNamed(i) then A.PatchOrCommit
      else if Printed(i) then A.StdoutSalvage
      else A.Evidence
  {
    NotBefore(t, best, A.Report, A.Usable);
    NotBefore(t, best, A.Diff, A.Usable);
    NotBefore(t, best, A.Evidence, A.Usable);
    NotBefore(t, best, A.Diff, A.NeedsReview);
    NotBefore(t, best, A.PatchOrCommit, A.NeedsReview);
    NotBefore(t, best, A.StdoutSalvage, A.NeedsReview);
    NotBefore(t, best, A.Evidence, A.NeedsReview);
    hide Has;
    hide ReportNamed;
    hide Printed;
    hide Changed;
    hide Spoilt;
    hide Applies;
    hide CommitNamed;
    hide Validated;
    hide NotValidated;
  }

  // ----- the decision -----

  /** There is a report among the artifacts, or safe code. */
  predicate ReportThere(i: A.Input) {
    ReportNamed(i) || Printed(i)
  }

  predicate CodeThere(i: A.Input) {
    (Changed(i) && !Spoilt(i)) || CommitNamed(i)
  }

  lemma HasIsHeld(t: seq<A.Artifact>, kind: A.Kind, state: A.State, kinds: set<A.Kind>)
    requires Has(t, kind, state) && kind in kinds && (state == A.Usable || state == A.NeedsReview)
    ensures Holds(t, kinds)
  {
    var a :| a in t && a.kind == kind && a.state == state;
    var k :| 0 <= k < |t| && t[k] == a;
    assert A.Candidate(t[k]);
  }

  lemma HeldIff(i: A.Input)
    ensures var t := A.ArtifactTuple(i);
      && (Holds(t, REPORTS) <==> ReportThere(i))
      && (Holds(t, CODE) <==> CodeThere(i))
      && (Holds(t, {A.PatchOrCommit}) <==> CommitNamed(i))
      && (HoldsAny(t, A.Diff) <==> Changed(i))
  {
    var t := A.ArtifactTuple(i);
    TupleTold(i);
    HeldSays(i, t);
    hide *;
    TupleIs(i);
    DiffStateIs(i);
    HeldByInput(i, t);
  }

  lemma HeldSays(i: A.Input, t: seq<A.Artifact>)
    requires Told(i, t)
    ensures Holds(t, REPORTS) ==> ReportThere(i)
    ensures Holds(t, CODE) ==> CodeThere(i)
    ensures Holds(t, {A.PatchOrCommit}) ==> CommitNamed(i)
    ensures HoldsAny(t, A.Diff) ==> Changed(i)
  {
    hide ReportNamed;
    hide Printed;
    hide Changed;
    hide Spoilt;
    hide Applies;
    hide CommitNamed;
    hide Validated;
    hide NotValidated;
  }

  lemma HeldByInput(i: A.Input, t: seq<A.Artifact>)
    requires ReportNamed(i) ==> Has(t, A.Report, A.Usable)
    requires Printed(i) && !ReportNamed(i) ==> Has(t, A.StdoutSalvage, A.NeedsReview)
    requires Changed(i) ==> Has(t, A.Diff, DiffState(i))
    requires CommitNamed(i) ==> Has(t, A.PatchOrCommit, A.NeedsReview)
    requires !Spoilt(i) ==> DiffState(i) == A.Usable || DiffState(i) == A.NeedsReview
    ensures ReportThere(i) ==> Holds(t, REPORTS)
    ensures CodeThere(i) ==> Holds(t, CODE)
    ensures CommitNamed(i) ==> Holds(t, {A.PatchOrCommit})
    ensures Changed(i) ==> HoldsAny(t, A.Diff)
  {
    hide ReportNamed;
    hide Printed;
    hide Changed;
    hide Spoilt;
    hide DiffState;
    hide CommitNamed;
    hide Holds;
    if ReportNamed(i) {
      HasIsHeld(t, A.Report, A.Usable, REPORTS);
    } else if Printed(i) {
      HasIsHeld(t, A.StdoutSalvage, A.NeedsReview, REPORTS);
    }
    if Changed(i) && !Spoilt(i) {
      HasIsHeld(t, A.Diff, DiffState(i), CODE);
    }
    if CommitNamed(i) {
      HasIsHeld(t, A.PatchOrCommit, A.NeedsReview, CODE);
      HasIsHeld(t, A.PatchOrCommit, A.NeedsReview, {A.PatchOrCommit});
    }
    if Changed(i) {
      var a :| a in t && a.kind == A.Diff && a.state == DiffState(i);
      var k :| 0 <= k < |t| && t[k] == a;
    }
  }

  /** No artifact of a result that is nowhere spoilt names a blocker. */
  lemma {:induction false} NoHardBlockers(i: A.Input, t: seq<A.Artifact>)
    requires Told(i, t)
    ensures !Changed(i) || !Spoilt(i) ==> HardBlockers(t) == []
  {
    hide Changed;
    hide Spoilt;
    hide Explains;
    if t != [] {
      var n := |t| - 1;
      NoHardBlockers(i, t[..n]);
      LastNames(i, t[n]);
    }
  }

  lemma LastNames(i: A.Input, a: A.Artifact)
    requires Explains(i, a)
    ensures !Changed(i) || !Spoilt(i) ==> a.hardBlockers == []
  {
    hide ReportNamed;
    hide Printed;
    hide Changed;
    hide Spoilt;
    hide Applies;
    hide CommitNamed;
    hide Validated;
    hide NotValidated;
  }

  /** The receipt itself names a blocker, or says that the task was blocked. */
  predicate SaysBlocked(i: A.Input) {
    || Named(Field(i, "blocker_type"))
    || i.upper(if i.receipt.Some? && Named(Get(i.receipt.value, "status")) then Strip(Get(i.receipt.value, "status").s)
               else "") == "BLOCKED"
  }

  lemma ReceiptBlockersIff(i: A.Input)
    ensures ReceiptBlockers(i) != [] <==> SaysBlocked(i)
    ensures Named(Field(i, "blocker_type")) ==> ReceiptBlockers(i) == [Strip(Field(i, "blocker_type").s)]
    ensures SaysBlocked(i) && !Named(Field(i, "blocker_type")) ==> ReceiptBlockers(i) == ["blocked_terminal_result"]
  {
    FieldIs(i);
    hide Position;
  }

  /** Some warning is none of the five harmless ones. */
  predicate Worrying(i: A.Input) {
    exists w :: w in i.protocolWarnings + i.protocolErrors && w != "" && w != "schema_version_alias" && w != "status_alias"
      && w != "mixed_text_json" && w != "wrapped_text_json" && w != "artifact_path_missing"
  }

  lemma WorryingIff(i: A.Input)
    ensures HasBlockingWarning(A.Warnings(i)) <==> Worrying(i)
  {
    var all := i.protocolWarnings + i.protocolErrors;
    var unique := A.Unique(all);
    forall w ensures w in unique <==> w in all && w != "" {
      UniqueKeeps(all, w);
    }
    hide A.Unique;
    if Worrying(i) {
      var w :| w in all && w != "" && w != "schema_version_alias" && w != "status_alias"
        && w != "mixed_text_json" && w != "wrapped_text_json" && w != "artifact_path_missing";
      var k :| 0 <= k < |unique| && unique[k] == w;
      assert unique[k] !in LOW_RISK;
    }
    if HasBlockingWarning(A.Warnings(i)) {
      var k :| 0 <= k < |unique| && unique[k] !in LOW_RISK;
      assert unique[k] in unique && unique[k] in all;
    }
  }

  /** The list of that name holds something. */
  predicate Listed(m: Option<seq<Member>>, key: string) {
    m.Some? && Get(m.value, key).Arr? && Get(m.value, key).items != []
  }

  predicate FilesListed(i: A.Input) {
    Lists(Field(i, "changed_files")) || (Described(i) && Lists(InDiff(i, "changed_files")))
  }

  /** Every listed file was found, or, if that was not looked into, the scope check misses none. */
  predicate FilesFound(i: A.Input, present: Option<bool>) {
    if present.Some? then present.value else !Listed(i.scope, "missing_declared_files")
  }

  predicate ScopeKept(i: A.Input) {
    && !Listed(i.scope, "forbidden_changed_files") && !Listed(i.scope, "undeclared_changed_files")
    && !Listed(i.scope, "missing_declared_files")
    && !(Field(i, "scope_violations").Arr? && Field(i, "scope_violations").items != [])
  }

  /** What the facts come to, in a result that is nowhere blocked. */
  lemma FactsAre(i: A.Input, present: Option<bool>)
    requires A.Classify(i).state != A.Blocked
    ensures var e := Facts(i, present);
      && (e.hasReport <==> ReportThere(i)) && (e.hasCode <==> CodeThere(i)) && (e.hasCommit <==> CommitNamed(i))
      && (e.hasReceipt <==> i.receipt.Some? || i.receiptFile)
      && (e.listsFiles <==> FilesListed(i)) && (e.listsFiles ==> (e.filesPresent <==> FilesFound(i, present)))
      && (!e.forbidden && !e.undeclared && !e.missingDeclared && !e.scopeViolations <==> ScopeKept(i))
      && (e.hasDiff <==> Changed(i) || i.gitDirty || (Described(i) && Truthy(InDiff(i, "has_patch"))))
      && (e.hasApplyCheck <==> Described(i) && Keyed(Field(i, "worktree_diff").members, "apply_check_ok"))
      && (Described(i) ==> (e.applyPassed <==> Truthy(InDiff(i, "apply_check_ok"))))
      && (e.hasValidation <==> Validated(i) || NotValidated(i))
  {
    hide *;
    ClassifyShape(i);
    HeldIff(i);
    ArtifactFacts(i, present);
    FileFacts(i, present);
    CheckFacts(i, present);
  }

  lemma ArtifactFacts(i: A.Input, present: Option<bool>)
    ensures var e, t := Facts(i, present), A.Classify(i).artifacts;
      && e.hasReport == Holds(t, REPORTS) && e.hasCode == Holds(t, CODE) && e.hasCommit == Holds(t, {A.PatchOrCommit})
      && (e.hasReceipt <==> i.receipt.Some? || i.receiptFile)
      && (e.hasDiff <==> HoldsAny(t, A.Diff) || i.gitDirty || (Described(i) && Truthy(InDiff(i, "has_patch"))))
      && (e.hasValidation <==> Validated(i) || NotValidated(i))
  {
    FieldIs(i);
    hide A.Classify;
    hide Holds;
    hide HoldsAny;
    hide A.ListsFiles;
    hide A.StringValue;
    hide A.HasKey;
    hide Field;
    hide Get;
    hide Truthy;
  }

  lemma FileFacts(i: A.Input, present: Option<bool>)
    ensures var e := Facts(i, present);
      && (e.listsFiles <==> FilesListed(i)) && (e.listsFiles ==> (e.filesPresent <==> FilesFound(i, present)))
      && (e.forbidden <==> Listed(i.scope, "forbidden_changed_files"))
      && (e.undeclared <==> Listed(i.scope, "undeclared_changed_files"))
      && (e.missingDeclared <==> Listed(i.scope, "missing_declared_files"))
      && (!e.forbidden && !e.undeclared && !e.missingDeclared && !e.scopeViolations <==> ScopeKept(i))
  {
    FieldIs(i);
    ListsAre();
    hide A.Classify;
    hide Holds;
    hide HoldsAny;
    hide A.ListsFiles;
    hide Lists;
    hide A.StringValue;
    hide A.HasKey;
    hide Field;
    hide Get;
    hide Truthy;
  }

  lemma CheckFacts(i: A.Input, present: Option<bool>)
    ensures var e := Facts(i, present);
      && (e.hasApplyCheck <==> Described(i) && Keyed(Field(i, "worktree_diff").members, "apply_check_ok"))
      && (Described(i) ==> (e.applyPassed <==> Truthy(InDiff(i, "apply_check_ok"))))
      && e.applyReason ==
         if Described(i) && Named(InDiff(i, "apply_check_reason")) then Some(Strip(InDiff(i, "apply_check_reason").s)) else None
  {
    FieldIs(i);
    if Described(i) {
      KeyedIff(Field(i, "worktree_diff").members, "apply_check_ok");
    }
    hide A.Classify;
    hide Holds;
    hide HoldsAny;
    hide A.ListsFiles;
    hide A.HasKey;
    hide Keyed;
    hide Field;
    hide Get;
    hide Truthy;
    hide Strip;
  }

  /** Acceptance under the evidence policies, from the input. The result is accepted exactly when nothing awaits review,
      nothing is spoilt and nothing blocks it; there is a report or safe code; the files listed are there and the scope
      was kept; it was validated, or is nothing but a report; and no warning is worrying. */
  lemma EvidenceAcceptedFromInput(i: A.Input, present: Option<bool>, policy: Policy, rework: Rework)
    requires policy == EvidencePolicy || policy == AutoPolicy
    ensures Derive(i, present, policy, rework).adoptable == Yes <==>
      && NothingOpen(i) && (ReportThere(i) || CodeThere(i)) && !SaysBlocked(i)
      && (FilesListed(i) ==> FilesFound(i, present)) && ScopeKept(i)
      && (Validated(i) || (!FilesListed(i) && !Changed(i) && ReportThere(i)))
      && !Worrying(i)
      && (Described(i) && Keyed(Field(i, "worktree_diff").members, "apply_check_ok") ==> Truthy(InDiff(i, "apply_check_ok")))
  {
    hide *;
    EvidenceAcceptedIff(i, present, policy, rework);
    StateFromInput(i);
    ClassifyShape(i);
    WorryingIff(i);
    ReceiptBlockersIff(i);
    FatalSaysBlocked(i);
    if A.Classify(i).state == A.Usable {
      FactsAre(i, present);
      TupleTold(i);
      NoHardBlockers(i, A.ArtifactTuple(i));
    }
    AcceptanceFacts(i);
  }

  lemma FatalSaysBlocked(i: A.Input)
    ensures Fatally(i) ==> SaysBlocked(i)
  {
  }

  lemma AcceptanceFacts(i: A.Input)
    ensures ReportThere(i) || CodeThere(i) ==> Something(i)
    ensures NothingOpen(i) ==> !CommitNamed(i) && !NotValidated(i) && (Changed(i) ==> !Spoilt(i))
    ensures CodeThere(i) <==> (Changed(i) && !Spoilt(i)) || CommitNamed(i)
    ensures i.gitDirty ==> Changed(i)
    ensures Described(i) && Truthy(InDiff(i, "has_patch")) ==> Changed(i)
  {
    hide Truthy;
    hide Position;
    hide A.ListsFiles;
    hide Lists;
  }

  /** Acceptance under the report policy, from the input. */
  lemma ReportAcceptedFromInput(i: A.Input, present: Option<bool>, rework: Rework)
    ensures Derive(i, present, ReportPolicy, rework).adoptable == Yes <==>
      NothingOpen(i) && ReportThere(i) && !SaysBlocked(i) && (i.receipt.Some? || i.receiptFile)
  {
    hide *;
    ReportAcceptedIff(i, present, rework);
    StateFromInput(i);
    ClassifyShape(i);
    ReceiptBlockersIff(i);
    FatalSaysBlocked(i);
    if A.Classify(i).state == A.Usable {
      FactsAre(i, present);
      TupleTold(i);
      NoHardBlockers(i, A.ArtifactTuple(i));
    }
    AcceptanceFacts(i);
  }

  /** Adoption's advice, from the input: inspect what is fatally blocked, try again where there is nothing; review and
      apply code where the policy asks for code; use a report if it is the best there is; inspect the rest. */
  lemma AdviceFromInput(i: A.Input, present: Option<bool>, policy: Policy, rework: Rework)
    ensures Derive(i, present, policy, rework).agent.action ==
      if Fatally(i) then InspectEvidence
      else if !Something(i) then RetryOrSwitchExecutor
      else if (policy == CommitPolicy || policy == EvidencePolicy) && CodeThere(i) then ReviewThenApply
      else if A.Classify(i).primary == A.Report || A.Classify(i).primary == A.StdoutSalvage then UseResult
      else InspectEvidence
  {
    hide *;
    DerivedParts(i, present, policy, rework);
    StateFromInput(i);
    FatallyIff(i);
    ClassifyShape(i);
    HeldIff(i);
    if A.Classify(i).state != A.Blocked {
      PrimaryHolds(i);
    }
    AdviceOf(A.Classify(i), policy);
    KindsAre();
    AcceptanceFacts(i);
  }

  lemma KindsAre()
    ensures forall k :: k in REPORTS <==> k == A.Report || k == A.StdoutSalvage
    ensures forall k :: k in CODE <==> k == A.Diff || k == A.PatchOrCommit
  {
  }

  lemma AdviceOf(r: A.ArtifactResult, policy: Policy)
    requires r.state != A.Blocked && r.primary in CODE ==> Holds(r.artifacts, CODE)
    ensures ControllerAction(r, policy) ==
      if r.state == A.Blocked then if Fatal(r.globalBlockers) != [] then InspectEvidence else RetryOrSwitchExecutor
      else if (policy == CommitPolicy || policy == EvidencePolicy) && Holds(r.artifacts, CODE) then ReviewThenApply
      else if r.primary in REPORTS then UseResult
      else InspectEvidence
  {
    hide Holds;
    hide Fatal;
  }

  /** The blockers that go into the agent result: none for a usable one, else the classification's and the decision's. */
  lemma AgentBlockers(i: A.Input, present: Option<bool>, policy: Policy, rework: Rework, x: string)
    ensures var d := Derive(i, present, policy, rework);
      x in d.agent.hardBlockers <==>
        d.agent.state != A.Usable && x != "" && (x in A.Classify(i).globalBlockers || x in d.blockers)
  {
    var d := Derive(i, present, policy, rework);
    hide Verdict;
    hide Facts;
    hide A.Classify;
    hide A.Unique;
    hide ControllerAction;
    UniqueKeeps(A.Classify(i).globalBlockers + d.blockers, x);
  }

  /** The names that the evidence policies add to the artifacts' and the receipt's own blockers. */
  lemma EvidenceNames(i: A.Input, present: Option<bool>, policy: Policy, rework: Rework, x: string)
    requires policy == EvidencePolicy || policy == AutoPolicy
    requires !Fatally(i) && Something(i) && (ReportThere(i) || CodeThere(i))
    ensures var e := Facts(i, present);
      x in Derive(i, present, policy, rework).blockers <==>
        x != "" &&
        (|| x in HardBlockers(A.ArtifactTuple(i)) || x in ReceiptBlockers(i)
         || (x == "changed_files_not_present" && e.listsFiles && !e.filesPresent)
         || (x == "forbidden_changes" && e.forbidden) || (x == "undeclared_changes" && e.undeclared)
         || (x == "missing_declared_changes" && e.missingDeclared)
         || (x == "scope_violations" && e.scopeViolations
             && !NamesScope(HardBlockers(A.ArtifactTuple(i)) + ReceiptBlockers(i))
             && !e.forbidden && !e.undeclared && !e.missingDeclared)
         || (e.hasApplyCheck && !e.applyPassed && x == if e.applyReason.Some? then e.applyReason.value else "apply_check_failed")
         || (x == "validation_missing" && !e.hasValidation
             && !(e.hasReport && !e.listsFiles && !e.hasCode && !e.hasCommit && !e.hasDiff)))
  {
    hide *;
    DerivedBlockers(i, present, policy, rework, x);
    StateFromInput(i);
    FatallyIff(i);
    ClassifyShape(i);
    HeldIff(i);
    FactsHold(i, present);
    EvidenceVerdictIs(i, Facts(i, present), policy);
    EvidenceListed(Facts(i, present), HardBlockers(A.ArtifactTuple(i)) + ReceiptBlockers(i), x);
  }

  /** The names that the report policy adds, and those of the commit policy. */
  lemma OtherNames(i: A.Input, present: Option<bool>, rework: Rework, x: string)
    requires !Fatally(i)
    ensures var d, c := Derive(i, present, ReportPolicy, rework), Derive(i, present, CommitPolicy, rework);
      var e, own := Facts(i, present), HardBlockers(A.Classify(i).artifacts) + ReceiptBlockers(i);
      && (x in d.blockers <==> x != "" && (x in own || (x == "report_missing" && !e.hasReport)))
      && (x in c.blockers <==>
            x != "" &&
            (|| x in ScopeBlockers(own, e)
             || (x == "commit_missing" && A.Classify(i).state != A.Blocked)
             || (x == "commit_and_diff_missing" && A.Classify(i).state == A.Blocked)))
  {
    hide *;
    DerivedBlockers(i, present, ReportPolicy, rework, x);
    DerivedBlockers(i, present, CommitPolicy, rework, x);
    FatallyIff(i);
    ClassifyShape(i);
    FactsHold(i, present);
    if Facts(i, present).hasCommit {
      CommitNeedsReview(i);
    }
    OtherVerdicts(i, Facts(i, present), x);
  }

  lemma OtherVerdicts(i: A.Input, e: Evidence, x: string)
    requires Fatal(A.Classify(i).globalBlockers) == [] && (e.hasCommit ==> A.Classify(i).state != A.Usable)
    ensures var own := HardBlockers(A.Classify(i).artifacts) + ReceiptBlockers(i);
      && (x in Verdict(i, e, ReportPolicy).1 <==> x in own || (x == "report_missing" && !e.hasReport))
      && (x in Verdict(i, e, CommitPolicy).1 <==>
            || x in ScopeBlockers(own, e)
            || (x == "commit_missing" && A.Classify(i).state != A.Blocked)
            || (x == "commit_and_diff_missing" && A.Classify(i).state == A.Blocked))
  {
    hide A.Classify;
    hide HardBlockers;
    hide ReceiptBlockers;
    hide HasBlockingWarning;
    hide ScopeBlockers;
    hide Fatal;
    hide A.Warnings;
  }

  lemma EvidenceVerdictIs(i: A.Input, e: Evidence, policy: Policy)
    requires policy == EvidencePolicy || policy == AutoPolicy
    requires Fatal(A.Classify(i).globalBlockers) == [] && A.Classify(i).state != A.Blocked && (e.hasReport || e.hasCode)
    ensures Verdict(i, e, policy).1 == EvidenceBlockers(e, HardBlockers(A.Classify(i).artifacts) + ReceiptBlockers(i))
  {
    hide A.Classify;
    hide HardBlockers;
    hide ReceiptBlockers;
    hide HasBlockingWarning;
    hide EvidenceBlockers;
    hide Fatal;
    hide A.Warnings;
  }

  lemma EvidenceListed(e: Evidence, earlier: seq<string>, x: string)
    ensures x in EvidenceBlockers(e, earlier) <==>
      || x in earlier
      || (x == "changed_files_not_present" && e.listsFiles && !e.filesPresent)
      || (x == "forbidden_changes" && e.forbidden) || (x == "undeclared_changes" && e.undeclared)
      || (x == "missing_declared_changes" && e.missingDeclared)
      || (x == "scope_violations" && e.scopeViolations && !NamesScope(earlier)
          && !e.forbidden && !e.undeclared && !e.missingDeclared)
      || (e.hasApplyCheck && !e.applyPassed && x == if e.applyReason.Some? then e.applyReason.value else "apply_check_failed")
      || (x == "validation_missing" && !e.hasValidation
          && !(e.hasReport && !e.listsFiles && !e.hasCode && !e.hasCommit && !e.hasDiff))
  {
    var named := AddIf(earlier, e.listsFiles && !e.filesPresent, "changed_files_not_present");
    ScopeListed(e, named, x);
    assert NamesScope(named) <==> NamesScope(earlier);
    hide ScopeBlockers;
  }

  lemma ScopeListed(e: Evidence, earlier: seq<string>, x: string)
    ensures x in ScopeBlockers(earlier, e) <==>
      || x in earlier
      || (x == "forbidden_changes" && e.forbidden) || (x == "undeclared_changes" && e.undeclared)
      || (x == "missing_declared_changes" && e.missingDeclared)
      || (x == "scope_violations" && e.scopeViolations && !NamesScope(earlier)
          && !e.forbidden && !e.undeclared && !e.missingDeclared)
  {
  }

  // ----- recovery -----

  /** Some blocker of the stored result is one of the names. */
  predicate Blames(s: Situation, names: set<string>) {
    exists b :: b in s.agent.hardBlockers && b in names && b != ""
  }

  lemma BlamesIff(s: Situation, names: set<string>)
    ensures HasAny(s.agent.hardBlockers, names) <==> Blames(s, names)
  {
    if Blames(s, names) {
      var b :| b in s.agent.hardBlockers && b in names && b != "";
      var k :| 0 <= k < |s.agent.hardBlockers| && s.agent.hardBlockers[k] == b;
    }
  }

  predicate Unhealthy(s: Situation) {
    Blames(s, {"executor_auth_required", "executor_auth_failed", "executor_probe_failed", "executor_unavailable",
               "executor_quota_exhausted"})
  }

  predicate Unauthorized(s: Situation) {
    Blames(s, {"approval_required", "authorization_profile_insufficient"})
  }

  predicate OutOfBounds(s: Situation) {
    Blames(s, {"scope_violation", "authorization_violation"})
  }

  predicate NoSignal(s: Situation) {
    Blames(s, {"no_useful_executor_signal", "terminal_receipt_missing", "report_missing", "execution_budget_exhausted",
               "executor_response_timeout", "no_progress_budget_exceeded"})
  }

  predicate SafePrimary(s: Situation, a: A.Kind, b: A.Kind) {
    && s.agent.action == None && s.artifacts.Some?
    && (s.artifacts.value.state == A.Usable || s.artifacts.value.state == A.NeedsReview)
    && (s.artifacts.value.primary == a || s.artifacts.value.primary == b)
  }

  /** Nothing is taken, given up, or waited for. */
  predicate Open(s: Situation) {
    && s.agent.action != Some(UseResult) && s.agent.action != Some(ReviewThenApply) && s.agent.action != Some(NativeFallback)
    && !SafePrimary(s, A.Report, A.StdoutSalvage) && !SafePrimary(s, A.Diff, A.PatchOrCommit)
    && (s.leaseExpired ==> s.budgetExhausted)
  }

  predicate BlockedWithoutSignal(s: Situation) {
    s.agent.state == Some(A.Blocked) && NoSignal(s)
  }

  predicate Chosen(executor: Option<string>) {
    executor.Some? && executor.value != ""
  }

  /** For each action, when recovery chooses it. */
  lemma RecoveryIff(s: Situation)
    ensures var chosen, healthy := Choose(s).action, Open(s) && !Unhealthy(s);
      var inBounds := healthy && !Unauthorized(s) && !OutOfBounds(s);
      && (chosen == WaitBackground <==>
            && s.agent.action != Some(UseResult) && s.agent.action != Some(ReviewThenApply) && s.agent.action != Some(NativeFallback)
            && !SafePrimary(s, A.Report, A.StdoutSalvage) && !SafePrimary(s, A.Diff, A.PatchOrCommit)
            && s.leaseExpired && !s.budgetExhausted)
      && (chosen == RepairExecutor <==> Open(s) && Unhealthy(s))
      && (chosen == RetrySameExecutor <==>
            || (healthy && Unauthorized(s))
            || (inBounds && s.agent.state == Some(A.Blocked)
                && (if NoSignal(s) then Chosen(s.requested) else s.agent.action != Some(InspectEvidence))))
      && (chosen == SwitchExecutor <==>
            inBounds && BlockedWithoutSignal(s) && !Chosen(s.requested) && Chosen(s.next))
      && (chosen == NativeFallback <==>
            || s.agent.action == Some(NativeFallback)
            || (inBounds && BlockedWithoutSignal(s) && !Chosen(s.requested) && !Chosen(s.next)))
      && (chosen == InspectEvidence <==>
            || (healthy && !Unauthorized(s) && OutOfBounds(s))
            || (inBounds && (s.agent.state != Some(A.Blocked) || (!NoSignal(s) && s.agent.action == Some(InspectEvidence)))))
      && (chosen == ReviewThenApply <==> s.agent.action == Some(ReviewThenApply) || SafePrimary(s, A.Diff, A.PatchOrCommit))
      && (chosen == UseResult <==> s.agent.action == Some(UseResult) || SafePrimary(s, A.Report, A.StdoutSalvage))
  {
    BlamesIff(s, UNHEALTHY);
    BlamesIff(s, UNAUTHORIZED);
    BlamesIff(s, OUT_OF_BOUNDS);
    BlamesIff(s, NO_SIGNAL);
    hide HasAny;
    hide Blames;
  }

  /** The next executor goes along with a retry, a repair, a switch and an inspection, and with nothing else. */
  lemma NextGoesAlong(s: Situation)
    ensures var r := Choose(s);
      r.nextExecutor ==
        if r.action == RetrySameExecutor || r.action == RepairExecutor || r.action == SwitchExecutor
           || r.action == InspectEvidence
        then s.next else None
  {
    hide HasAny;
  }
}
