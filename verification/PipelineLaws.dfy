/** The three layers agree: artifacts, adoption, recovery. */
module PipelineLaws {
  import opened Options
  import opened Json
  import opened Adoption
  import opened Recovery

  // ----- facts about the artifacts -----

  predicate NoCandidate(artifacts: seq<A.Artifact>) {
    forall k :: 0 <= k < |artifacts| ==> !A.Candidate(artifacts[k])
  }

  /** The best artifact is a candidate of the least rank. */
  lemma {:induction false} BestIsBest(artifacts: seq<A.Artifact>)
    ensures A.Best(artifacts) == None <==> NoCandidate(artifacts)
    ensures A.Best(artifacts).Some? ==>
      A.Best(artifacts).value in artifacts && A.Candidate(A.Best(artifacts).value)
    ensures A.Best(artifacts).Some? ==>
      forall k :: 0 <= k < |artifacts| && A.Candidate(artifacts[k]) ==>
        A.Rank(A.Best(artifacts).value) <= A.Rank(artifacts[k])
  {
    hide A.Rank;
    if artifacts != [] {
      var n := |artifacts| - 1;
      BestIsBest(artifacts[..n]);
      assert artifacts == artifacts[..n] + [artifacts[n]];
      assert forall k :: 0 <= k < n ==> artifacts[k] == artifacts[..n][k];
    }
  }

  lemma HoldsPrimary(artifacts: seq<A.Artifact>, a: A.Artifact, kinds: set<A.Kind>)
    requires a in artifacts && A.Candidate(a) && a.kind in kinds
    ensures Holds(artifacts, kinds)
  {
    var k :| 0 <= k < |artifacts| && artifacts[k] == a;
  }

  lemma GlobalIsFatal(i: A.Input)
    ensures Fatal(A.GlobalBlockers(i)) == A.GlobalBlockers(i)
  {
    var blockers := A.GlobalBlockers(i);
    if blockers != [] {
      assert blockers[..0] == [];
      assert !Harmless(blockers[0]);
    }
  }

  lemma HarmlessIsNotFatal(blocker: string)
    requires Harmless(blocker)
    ensures Fatal([blocker]) == []
  {
    assert [blocker][..0] == [];
  }

  /** How the classification can come out. */
  lemma ClassifyShape(i: A.Input)
    ensures var r := A.Classify(i);
      && (Fatal(r.globalBlockers) != [] <==> A.GlobalBlockers(i) != [])
      && (r.state == A.Blocked <==> A.GlobalBlockers(i) != [] || NoCandidate(A.ArtifactTuple(i)))
      && (r.state != A.Blocked ==> r.globalBlockers == [] && r.artifacts == A.ArtifactTuple(i))
      && (r.state == A.Usable || r.state == A.NeedsReview || r.state == A.Blocked)
  {
    hide A.ArtifactTuple;
    hide A.GlobalBlockers;
    hide A.Best;
    hide A.AnyUnusable;
    hide NoCandidate;
    BestIsBest(A.ArtifactTuple(i));
    GlobalIsFatal(i);
    HarmlessIsNotFatal("thought_only_output");
    HarmlessIsNotFatal("no_useful_artifact");
    FatalNothing();
  }

  lemma FatalNothing()
    ensures Fatal([]) == []
  {
  }

  /** What a primary artifact stands for. */
  lemma PrimaryHolds(i: A.Input)
    requires A.Classify(i).state != A.Blocked
    ensures var r := A.Classify(i);
      && (r.primary in REPORTS ==> Holds(r.artifacts, REPORTS))
      && (r.primary in CODE ==> Holds(r.artifacts, CODE))
  {
    hide A.ArtifactTuple;
    hide A.GlobalBlockers;
    hide A.Best;
    hide A.AnyUnusable;
    hide Holds;
    var artifacts := A.ArtifactTuple(i);
    BestIsBest(artifacts);
    var best := A.Best(artifacts);
    if best.Some? {
      if best.value.kind in REPORTS {
        HoldsPrimary(artifacts, best.value, REPORTS);
      }
      if best.value.kind in CODE {
        HoldsPrimary(artifacts, best.value, CODE);
      }
    }
  }

  lemma BlockedHoldsNothing(i: A.Input, kinds: set<A.Kind>)
    requires NoCandidate(A.ArtifactTuple(i)) && A.GlobalBlockers(i) == []
    ensures !Holds(A.Classify(i).artifacts, kinds)
  {
    hide A.ArtifactTuple;
    hide A.GlobalBlockers;
    BestIsBest(A.ArtifactTuple(i));
  }

  // ----- adoption and the agent result -----

  lemma DerivedParts(i: A.Input, present: Option<bool>, policy: Policy, rework: Rework)
    ensures var d := Derive(i, present, policy, rework);
      var r := A.Classify(i);
      && d.adoptable == Verdict(i, Facts(i, present), policy).0
      && d.artifacts == r && d.agent.action == ControllerAction(r, policy)
      && (d.agent.state == A.Blocked <==> r.state == A.Blocked || d.adoptable == No)
  {
    hide Verdict;
    hide Facts;
    hide A.Classify;
    hide ControllerAction;
    hide A.Unique;
  }

  /** Facts about reports and code are read off the artifacts. */
  lemma FactsHold(i: A.Input, present: Option<bool>)
    ensures var e := Facts(i, present);
      && e.hasReport == Holds(A.Classify(i).artifacts, REPORTS)
      && e.hasCode == Holds(A.Classify(i).artifacts, CODE)
      && e.hasCommit == Holds(A.Classify(i).artifacts, {A.PatchOrCommit})
  {
    hide Holds;
    hide A.Classify;
    hide Truthy;
    hide A.ListsFiles;
    hide FullList;
    hide Position;
  }

  /** When a result is refused: with a fatal blocker, without any safe artifact, or, for the evidence policies, with
      nothing but validation notes. */
  lemma RefusedIff(i: A.Input, present: Option<bool>, policy: Policy, rework: Rework)
    ensures Derive(i, present, policy, rework).adoptable == No <==>
      || A.Classify(i).state == A.Blocked
      || ((policy == EvidencePolicy || policy == AutoPolicy)
          && !Holds(A.Classify(i).artifacts, REPORTS) && !Holds(A.Classify(i).artifacts, CODE))
  {
    hide *;
    DerivedParts(i, present, policy, rework);
    FactsHold(i, present);
    ClassifyShape(i);
    if A.Classify(i).state == A.Blocked && A.GlobalBlockers(i) == [] {
      BlockedHoldsNothing(i, REPORTS);
    }
    VerdictRefuses(i, Facts(i, present), policy);
  }

  lemma VerdictRefuses(i: A.Input, e: Evidence, policy: Policy)
    ensures var r := A.Classify(i);
      Verdict(i, e, policy).0 == No <==>
        || Fatal(r.globalBlockers) != []
        || (match policy
            case ReportPolicy => !e.hasReport && r.state == A.Blocked
            case CommitPolicy => !(e.hasCommit && r.state == A.Usable) && r.state == A.Blocked
            case _ => r.state == A.Blocked || (!e.hasReport && !e.hasCode))
  {
    hide A.Classify;
    hide HardBlockers;
    hide ReceiptBlockers;
    hide HasBlockingWarning;
    hide ScopeBlockers;
    hide EvidenceBlockers;
    hide Fatal;
    hide A.Warnings;
  }

  /** A result counts as "no" exactly when the agent result is "blocked". */
  lemma NoIffBlocked(i: A.Input, present: Option<bool>, policy: Policy, rework: Rework)
    ensures Derive(i, present, policy, rework).adoptable == No <==>
      Derive(i, present, policy, rework).agent.state == A.Blocked
  {
    hide *;
    DerivedParts(i, present, policy, rework);
    RefusedIff(i, present, policy, rework);
  }

  lemma VerdictAccepts(i: A.Input, e: Evidence, policy: Policy)
    requires Verdict(i, e, policy).0 == Yes
    ensures A.Classify(i).state != A.NeedsReview
    ensures policy == CommitPolicy ==> e.hasCommit && A.Classify(i).state == A.Usable
    ensures policy != CommitPolicy ==> Verdict(i, e, policy).1 == []
  {
    hide A.Classify;
    hide HardBlockers;
    hide ReceiptBlockers;
    hide HasBlockingWarning;
    hide ScopeBlockers;
    hide EvidenceBlockers;
    hide Fatal;
    hide A.Warnings;
  }

  // ----- the commit policy -----

  /** A commit artifact always awaits review, and with it the whole result. */
  lemma CommitNeedsReview(i: A.Input)
    requires Holds(A.Classify(i).artifacts, {A.PatchOrCommit})
    ensures A.Classify(i).state != A.Usable
  {
    hide A.GlobalBlockers;
    hide A.Best;
    ClassifyShape(i);
    if A.Classify(i).state != A.Blocked {
      var artifacts := A.ArtifactTuple(i);
      var k :| 0 <= k < |artifacts| && artifacts[k].kind == A.PatchOrCommit && A.Candidate(artifacts[k]);
      CommitState(i, k);
      assert A.AnyUnusable(artifacts);
    }
  }

  lemma CommitState(i: A.Input, k: nat)
    requires k < |A.ArtifactTuple(i)| && A.ArtifactTuple(i)[k].kind == A.PatchOrCommit
    ensures A.ArtifactTuple(i)[k].state == A.NeedsReview
  {
    hide A.HasReport;
    hide A.HasSalvage;
    hide A.HasCommit;
    hide A.Warnings;
    hide A.Unique;
    hide Truthy;
    hide A.ListsFiles;
    hide A.ApplyFailure;
    hide A.ScopeFailures;
    hide Position;
    hide Get;
    assert |A.DiffPart(i)| <= 1 && forall a :: a in A.DiffPart(i) ==> a.kind == A.Diff;
    assert forall a :: a in A.ReportPart(i) ==> a.kind == A.Report;
    assert forall a :: a in A.SalvagePart(i) ==> a.kind == A.StdoutSalvage;
    assert forall a :: a in A.EvidencePart(i) ==> a.kind == A.Evidence;
    assert forall a :: a in A.CommitPart(i) ==> a.state == A.NeedsReview;
    assert A.ArtifactTuple(i)[k] in A.ArtifactTuple(i);
  }

  /** No receipt, report, diff or repository state makes the commit policy say "yes". */
  lemma CommitPolicyNeverAccepts(i: A.Input, present: Option<bool>, rework: Rework)
    ensures Derive(i, present, CommitPolicy, rework).adoptable != Yes
  {
    hide *;
    DerivedParts(i, present, CommitPolicy, rework);
    FactsHold(i, present);
    if Verdict(i, Facts(i, present), CommitPolicy).0 == Yes {
      VerdictAccepts(i, Facts(i, present), CommitPolicy);
      CommitNeedsReview(i);
      assert false;
    }
  }

  lemma {:induction false} UniqueKeeps(values: seq<string>, x: string)
    ensures x in A.Unique(values) <==> x in values && x != ""
  {
    if values != [] {
      var n := |values| - 1;
      UniqueKeeps(values[..n], x);
      UniqueKeeps(values[..n], values[n]);
      assert values == values[..n] + [values[n]];
    }
  }

  lemma CommitVerdict(i: A.Input, e: Evidence)
    requires Fatal(A.Classify(i).globalBlockers) == [] && A.Classify(i).state == A.NeedsReview
    ensures var v := Verdict(i, e, CommitPolicy);
      v.0 == Partial && "commit_missing" in v.1
  {
    hide A.Classify;
    hide HardBlockers;
    hide ReceiptBlockers;
    hide HasBlockingWarning;
    hide ScopeBlockers;
    hide Fatal;
    hide A.Warnings;
  }

  lemma CommitIsThere(i: A.Input)
    requires A.HasCommit(i)
    ensures A.COMMIT in A.ArtifactTuple(i) && A.Candidate(A.COMMIT) && A.COMMIT.kind == A.PatchOrCommit
  {
    hide A.HasCommit;
    hide A.ReportPart;
    hide A.SalvagePart;
    hide A.DiffPart;
    hide A.EvidencePart;
    assert A.COMMIT in A.CommitPart(i);
  }

  /** A receipt that does name a commit, and no fatal blocker, always comes out as "partial" with the blocker
      `commit_missing`. */
  lemma NamedCommitIsMissing(i: A.Input, present: Option<bool>, rework: Rework)
    requires A.HasCommit(i) && A.GlobalBlockers(i) == []
    ensures var d := Derive(i, present, CommitPolicy, rework);
      d.adoptable == Partial && "commit_missing" in d.blockers
  {
    hide *;
    ClassifyShape(i);
    CommitIsThere(i);
    HasOne(A.ArtifactTuple(i), A.COMMIT);
    HoldsPrimary(A.ArtifactTuple(i), A.COMMIT, {A.PatchOrCommit});
    CommitNeedsReview(i);
    CommitVerdict(i, Facts(i, present));
    DerivedParts(i, present, CommitPolicy, rework);
    DerivedBlockers(i, present, CommitPolicy, rework, "commit_missing");
  }

  lemma HasOne(artifacts: seq<A.Artifact>, a: A.Artifact)
    requires a in artifacts && A.Candidate(a)
    ensures !NoCandidate(artifacts)
  {
    var k :| 0 <= k < |artifacts| && artifacts[k] == a;
  }

  lemma DerivedBlockers(i: A.Input, present: Option<bool>, policy: Policy, rework: Rework, x: string)
    ensures x in Derive(i, present, policy, rework).blockers <==> x in Verdict(i, Facts(i, present), policy).1 && x != ""
  {
    hide Verdict;
    hide Facts;
    hide AgentResultFrom;
    hide A.Classify;
    hide A.Unique;
    UniqueKeeps(Verdict(i, Facts(i, present), policy).1, x);
  }

  // ----- acceptance -----

  /** The agent result is "usable" exactly for an adoptable result that the controller did not have to redo; it then
      carries no blocker at all. */
  lemma UsableIffAccepted(i: A.Input, present: Option<bool>, policy: Policy, rework: Rework)
    ensures var d := Derive(i, present, policy, rework);
      && (d.agent.state == A.Usable <==> d.adoptable == Yes && rework != Major && rework != Redone)
      && (d.adoptable == Yes ==> d.blockers == [] && d.artifacts.state == A.Usable)
  {
    hide *;
    DerivedParts(i, present, policy, rework);
    ClassifyShape(i);
    RefusedIff(i, present, policy, rework);
    AgentUsable(i, present, policy, rework);
    CommitPolicyNeverAccepts(i, present, rework);
    if Verdict(i, Facts(i, present), policy).0 == Yes {
      VerdictAccepts(i, Facts(i, present), policy);
      EmptyBlockers(i, present, policy, rework);
    }
  }

  lemma AgentUsable(i: A.Input, present: Option<bool>, policy: Policy, rework: Rework)
    ensures var d := Derive(i, present, policy, rework);
      d.agent.state == A.Usable <==>
        A.Classify(i).state != A.Blocked && A.Classify(i).state != A.NeedsReview && d.adoptable == Yes
        && rework != Major && rework != Redone
  {
    hide Verdict;
    hide Facts;
    hide A.Classify;
    hide ControllerAction;
    hide A.Unique;
  }

  lemma EmptyBlockers(i: A.Input, present: Option<bool>, policy: Policy, rework: Rework)
    requires Verdict(i, Facts(i, present), policy).1 == []
    ensures Derive(i, present, policy, rework).blockers == []
  {
    hide Verdict;
    hide Facts;
    hide AgentResultFrom;
    hide A.Classify;
  }

  // ----- recovery -----

  /** The decision as recovery finds it stored. */
  function Stored(d: Decision, requested: Option<string>, next: Option<string>, lease: bool, budget: bool): Situation {
    Situation(StoredAgent(Some(d.agent.state), Some(d.agent.action), d.agent.hardBlockers),
              Some(StoredArtifacts(d.artifacts.state, d.artifacts.primary)), requested, next, lease, budget)
  }

  predicate Takes(action: Action) {
    action == UseResult || action == ReviewThenApply
  }

  lemma ActionTakes(i: A.Input, policy: Policy)
    requires Takes(ControllerAction(A.Classify(i), policy))
    ensures A.Classify(i).state != A.Blocked
    ensures Holds(A.Classify(i).artifacts, REPORTS) || Holds(A.Classify(i).artifacts, CODE)
  {
    hide A.Classify;
    hide Holds;
    hide Fatal;
    if A.Classify(i).state != A.Blocked {
      PrimaryHolds(i);
    }
  }

  lemma ChooseTakes(d: Decision, requested: Option<string>, next: Option<string>, lease: bool, budget: bool)
    ensures Takes(Choose(Stored(d, requested, next, lease, budget)).action) <==> Takes(d.agent.action)
  {
    hide HasAny;
    TakenIff(Stored(d, requested, next, lease, budget));
  }

  /** From artifacts to recovery: the result is used, or reviewed and applied, exactly when adoption recommended it,
      and then only if it was not refused. */
  lemma OnlyAcceptableResultsAreTaken(
    i: A.Input, present: Option<bool>, policy: Policy, rework: Rework,
    requested: Option<string>, next: Option<string>, lease: bool, budget: bool)
    ensures var d := Derive(i, present, policy, rework);
      var taken := Takes(Choose(Stored(d, requested, next, lease, budget)).action);
      && (taken <==> Takes(d.agent.action))
      && (taken ==> d.agent.state != A.Blocked && d.adoptable != No && d.artifacts.state != A.Blocked)
  {
    hide *;
    var d := Derive(i, present, policy, rework);
    ChooseTakes(d, requested, next, lease, budget);
    DerivedParts(i, present, policy, rework);
    if Takes(d.agent.action) {
      ActionTakes(i, policy);
      RefusedIff(i, present, policy, rework);
    }
  }

  /** Recovery switches executors only for a blocked result, only to an eligible one, and never against a request. */
  lemma RequestedExecutorStays(s: Situation)
    ensures Choose(s).action == SwitchExecutor ==>
      !Names(s.requested) && Names(s.next) && Choose(s).nextExecutor == s.next && s.agent.state == Some(A.Blocked)
  {
    hide HasAny;
  }

  /** From artifacts to recovery: a task moves to another executor only when adoption refused its result, and the user
      asked for no executor by name. */
  lemma OnlyRefusedResultsMove(
    i: A.Input, present: Option<bool>, policy: Policy, rework: Rework,
    requested: Option<string>, next: Option<string>, lease: bool, budget: bool)
    ensures var d := Derive(i, present, policy, rework);
      var r := Choose(Stored(d, requested, next, lease, budget));
      r.action == SwitchExecutor ==> d.adoptable == No && !Names(requested) && Names(next) && r.nextExecutor == next
  {
    var d := Derive(i, present, policy, rework);
    RequestedExecutorStays(Stored(d, requested, next, lease, budget));
    NoIffBlocked(i, present, policy, rework);
    hide Derive;
    hide Choose;
    hide Names;
  }

  predicate SafeArtifact(artifacts: Option<StoredArtifacts>, kinds: set<A.Kind>) {
    artifacts.Some? && (artifacts.value.state == A.Usable || artifacts.value.state == A.NeedsReview)
    && artifacts.value.primary in kinds
  }

  /** Whatever is stored, blocked results included: the result is used, or reviewed and applied, exactly when the stored
      action says so, or no action is stored and the primary artifact is a safe report or safe code. */
  lemma TakenIff(s: Situation)
    ensures Takes(Choose(s).action) <==>
      || (s.agent.action.Some? && Takes(s.agent.action.value))
      || (s.agent.action.None? && SafeArtifact(s.artifacts, REPORTS + CODE))
    ensures Choose(s).action == UseResult <==>
      || s.agent.action == Some(UseResult)
      || (s.agent.action.None? && SafeArtifact(s.artifacts, REPORTS))
  {
    hide HasAny;
  }

  /** The same decision stored without adoption's action. */
  function Actionless(d: Decision, requested: Option<string>, next: Option<string>, lease: bool, budget: bool): Situation {
    var s := Stored(d, requested, next, lease, budget);
    s.(agent := s.agent.(action := None))
  }

  lemma ActionlessTakes(d: Decision, requested: Option<string>, next: Option<string>, lease: bool, budget: bool)
    ensures Takes(Choose(Actionless(d, requested, next, lease, budget)).action) <==>
      (d.artifacts.state == A.Usable || d.artifacts.state == A.NeedsReview) && d.artifacts.primary in REPORTS + CODE
  {
    TakenIff(Actionless(d, requested, next, lease, budget));
    hide Choose;
  }

  /** A safe primary artifact is taken on adoption's advice, except for code under a policy that does not ask for it. */
  lemma PrimaryAdvice(r: A.ArtifactResult, policy: Policy)
    requires r.state != A.Blocked && r.primary in REPORTS + CODE
    ensures Takes(ControllerAction(r, policy)) <==> r.primary in REPORTS || policy == CommitPolicy || policy == EvidencePolicy
  {
    hide Holds;
    hide Fatal;
  }

  /** What the stored action is for. Without it a refused result is still never taken; but a result that adoption wanted
      inspected is taken exactly when its primary artifact is safe code and the policy is "report" or "auto". */
  lemma WithoutAction(
    i: A.Input, present: Option<bool>, policy: Policy, rework: Rework,
    requested: Option<string>, next: Option<string>, lease: bool, budget: bool)
    ensures var d := Derive(i, present, policy, rework);
      var taken := Takes(Choose(Actionless(d, requested, next, lease, budget)).action);
      && (taken ==> d.adoptable != No && d.agent.state != A.Blocked)
      && (taken && !Takes(d.agent.action) <==>
            A.Classify(i).state != A.Blocked && A.Classify(i).primary in CODE && (policy == ReportPolicy || policy == AutoPolicy))
  {
    var r := A.Classify(i);
    KindsApart();
    StateIsThere(i);
    hide *;
    var d := Derive(i, present, policy, rework);
    ActionlessTakes(d, requested, next, lease, budget);
    DerivedParts(i, present, policy, rework);
    if r.state != A.Blocked && r.primary in REPORTS + CODE {
      PrimaryAdvice(r, policy);
      PrimaryHolds(i);
      RefusedIff(i, present, policy, rework);
      NoIffBlocked(i, present, policy, rework);
    }
  }

  lemma StateIsThere(i: A.Input)
    ensures A.Classify(i).state != A.Absent
  {
    hide A.ArtifactTuple;
    hide A.GlobalBlockers;
    hide A.Best;
    hide A.AnyUnusable;
  }

  lemma KindsApart()
    ensures forall k :: !(k in REPORTS && k in CODE)
  {
  }

  // ----- what stands behind a "yes" -----

  lemma {:induction false} UnblockedIff(earlier: seq<string>, e: Evidence)
    ensures EvidenceBlockers(e, earlier) == [] <==>
      && earlier == [] && (e.listsFiles ==> e.filesPresent)
      && !e.forbidden && !e.undeclared && !e.missingDeclared && !e.scopeViolations
      && (e.hasApplyCheck ==> e.applyPassed)
      && (e.hasValidation || (e.hasReport && !e.listsFiles && !e.hasCode && !e.hasCommit && !e.hasDiff))
  {
    var listed := AddIf(earlier, e.listsFiles && !e.filesPresent, "changed_files_not_present");
    if listed == [] {
      assert !NamesScope([]);
    }
  }

  /** Under the evidence policies a result is accepted exactly when it holds a report or code that needs no review, names
      no blocker, every listed file is there, the scope was kept, the diff applies, it was validated (or is nothing but
      a report), and no risky warning came up. */
  lemma EvidenceAcceptedIff(i: A.Input, present: Option<bool>, policy: Policy, rework: Rework)
    requires policy == EvidencePolicy || policy == AutoPolicy
    ensures var e := Facts(i, present);
      Derive(i, present, policy, rework).adoptable == Yes <==>
        && A.Classify(i).state == A.Usable && (e.hasReport || e.hasCode)
        && HardBlockers(A.Classify(i).artifacts) + ReceiptBlockers(i) == []
        && (e.listsFiles ==> e.filesPresent)
        && !e.forbidden && !e.undeclared && !e.missingDeclared && !e.scopeViolations
        && (e.hasApplyCheck ==> e.applyPassed)
        && (e.hasValidation || (e.hasReport && !e.listsFiles && !e.hasCode && !e.hasCommit && !e.hasDiff))
        && !HasBlockingWarning(A.Warnings(i))
  {
    hide *;
    DerivedParts(i, present, policy, rework);
    ClassifyShape(i);
    FatalNothing();
    var e := Facts(i, present);
    UnblockedIff(HardBlockers(A.Classify(i).artifacts) + ReceiptBlockers(i), e);
    EvidenceVerdict(i, e, policy);
  }

  lemma EvidenceVerdict(i: A.Input, e: Evidence, policy: Policy)
    requires policy == EvidencePolicy || policy == AutoPolicy
    ensures var r := A.Classify(i);
      Verdict(i, e, policy).0 == Yes <==>
        && Fatal(r.globalBlockers) == [] && r.state != A.Blocked && (e.hasReport || e.hasCode)
        && EvidenceBlockers(e, HardBlockers(r.artifacts) + ReceiptBlockers(i)) == []
        && r.state != A.NeedsReview && !HasBlockingWarning(A.Warnings(i))
  {
    hide A.Classify;
    hide HardBlockers;
    hide ReceiptBlockers;
    hide HasBlockingWarning;
    hide EvidenceBlockers;
    hide Fatal;
    hide A.Warnings;
  }

  /** Under the report policy a result is accepted exactly when there is a report and a receipt, nothing needs review, and
      no artifact and no receipt names a blocker. */
  lemma ReportAcceptedIff(i: A.Input, present: Option<bool>, rework: Rework)
    ensures var e := Facts(i, present);
      Derive(i, present, ReportPolicy, rework).adoptable == Yes <==>
        && e.hasReport && e.hasReceipt && A.Classify(i).state == A.Usable
        && HardBlockers(A.Classify(i).artifacts) + ReceiptBlockers(i) == []
  {
    hide *;
    DerivedParts(i, present, ReportPolicy, rework);
    ClassifyShape(i);
    FatalNothing();
    ReportVerdict(i, Facts(i, present));
  }

  lemma ReportVerdict(i: A.Input, e: Evidence)
    ensures var r := A.Classify(i);
      Verdict(i, e, ReportPolicy).0 == Yes <==>
        && Fatal(r.globalBlockers) == [] && e.hasReport && e.hasReceipt && r.state == A.Usable
        && HardBlockers(r.artifacts) + ReceiptBlockers(i) == []
  {
    hide A.Classify;
    hide HardBlockers;
    hide ReceiptBlockers;
    hide HasBlockingWarning;
    hide Fatal;
    hide A.Warnings;
  }
}
