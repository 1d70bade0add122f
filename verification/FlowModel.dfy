/**
 The values that move along a delivery run (`engine/state.py`, `engine/flows/delivery.py`), and what
 each node is known to do to the state: the part of its code that the flow relies on.
 */
module FlowModel {
  import opened Options
  import opened Globs
  import opened Policy

  datatype Verifier = Correctness | Security | TestEvidence | RegressionRisk

  /** Declaration order, which is also the order in which results are read back. */
  const VERIFIERS: seq<Verifier> := [Correctness, Security, TestEvidence, RegressionRisk]

  datatype NodeId =
    | Triage
    | Planner
    | Coder
    | Push
    | BuildTest
    | Check(verifier: Verifier)
    | Release
    | Compensate
    | Reporter

  datatype Ticket = Ticket(id: string, title: string)

  datatype FileChange = FileChange(path: string, added: nat, removed: nat)

  datatype Edit = Edit(path: string, content: string, deleted: bool)

  datatype Source = Sandbox | Ci

  datatype CiResult = CiResult(exitCode: int, source: Source)

  datatype Verification = Verification(verifier: Verifier, passed: bool, findings: seq<string>)

  datatype Approval = Approval(principal: string, approved: bool, tier: Tier, digest: string)

  datatype ArtifactKind = CommitArtifact | PullRequestArtifact | MergeArtifact

  datatype Artifact = Artifact(kind: ArtifactKind, digest: string)

  /** What one execution wrote about itself; the empty text is falsy, as the empty mapping is. */
  type Notes = string

  /** Where a run comes from, and the policy it was started under. */
  datatype Lineage = Lineage(rootRunId: string, parentRunId: Option<string>, schemaVersion: nat, policyBundle: string)

  /** What grading left beside the verdict that counts. */
  datatype Evidence = Evidence(
    sandboxResult: Option<CiResult>,
    ciDetail: Option<string>,
    sastResult: Option<string>,
    coverage: Option<real>,
    sandboxGaps: seq<string>
  )

  const NO_EVIDENCE := Evidence(None, None, None, None, [])

  /** The fields up to `tier` are the ones a verifier may see; the others are withheld from it. */
  datatype FlowState = FlowState(
    runId: string,
    lineage: Lineage,
    ticket: Ticket,
    policyCommit: string,
    diff: Option<seq<FileChange>>,
    edits: seq<Edit>,
    branch: Option<string>,
    baseBranch: Option<string>,
    baseCommit: Option<string>,
    headCommit: Option<string>,
    ciResult: Option<CiResult>,
    isolation: Option<string>,
    evidence: Evidence,
    tier: Tier,
    provisionalTier: Option<Tier>,
    tierReason: Option<Reason>,
    plan: Option<string>,
    verifications: seq<Verification>,
    advisoryObjections: seq<Verifier>,
    rejectedBy: seq<Verifier>,
    approvals: seq<Approval>,
    spend: Spend,
    retryCount: nat,
    pushAttempt: nat,
    mergedCommit: Option<string>,
    cleanup: Option<string>,
    artifacts: seq<Artifact>,
    notes: Notes
  )

  /** A constructed state: the named fields, and every other one at its declared default. */
  function Fresh(runId: string, lineage: Lineage, ticket: Ticket, policyCommit: string, tier: Tier): FlowState {
    FlowState(runId, lineage, ticket, policyCommit, None, [], None, None, None, None, None, None, NO_EVIDENCE, tier,
              None, None, None, [], [], [], [], Some(0), 0, 0, None, None, [], "")
  }

  function Paths(s: FlowState): seq<string> {
    if s.diff.Some? then seq(|s.diff.value|, i requires 0 <= i < |s.diff.value| => s.diff.value[i].path) else []
  }

  /** Python truthiness of an optional string. */
  predicate Truthy(s: Option<string>) {
    s.Some? && s.value != ""
  }

  lemma TruthyMeaning(s: Option<string>)
    ensures Truthy(s) <==> s !in {None, Some("")}
  {
    if s.Some? && s.value == "" { assert s == Some(""); }
  }

  // ---------------------------------------------------------------- the verifiers' brief

  /** Built from the allow-list, so a field nobody names stays at its default. */
  function Brief(s: FlowState): FlowState {
    Fresh(s.runId, s.lineage, s.ticket, s.policyCommit, s.tier).(
      diff := s.diff,
      edits := s.edits,
      branch := s.branch,
      baseBranch := s.baseBranch,
      baseCommit := s.baseCommit,
      headCommit := s.headCommit,
      ciResult := s.ciResult,
      isolation := s.isolation,
      evidence := s.evidence
    )
  }

  /** What a verifier is shown: every allow-listed field as it is, and nothing of the fields that are withheld. */
  lemma BriefShowsOnlyTheAllowList(s: FlowState)
    ensures var b := Brief(s);
            && b.runId == s.runId && b.lineage == s.lineage && b.ticket == s.ticket && b.policyCommit == s.policyCommit
            && b.diff == s.diff && b.edits == s.edits && b.branch == s.branch
            && b.baseBranch == s.baseBranch && b.baseCommit == s.baseCommit && b.headCommit == s.headCommit
            && b.ciResult == s.ciResult && b.isolation == s.isolation && b.evidence == s.evidence && b.tier == s.tier
            && b.plan == None && b.provisionalTier == None && b.tierReason == None
            && b.verifications == [] && b.advisoryObjections == [] && b.rejectedBy == [] && b.approvals == []
            && b.spend == Some(0) && b.retryCount == 0 && b.pushAttempt == 0
            && b.mergedCommit == None && b.cleanup == None && b.artifacts == [] && b.notes == ""
  {
  }

  /** What a verifier answers when it answers at all. */
  datatype Reply =
    | Verdict(passed: bool, findings: seq<string>, cost: Spend, notes: Notes)
    | Crashed

  /** A verifier is some function of what it is shown. */
  type Judge = (Verifier, FlowState) -> Reply

  /** The brief as the verifier returns it. */
  function Graded(brief: FlowState, v: Verifier, r: Reply): FlowState
    requires r.Verdict?
  {
    brief.(
      verifications := brief.verifications + [Verification(v, r.passed, r.findings)],
      spend := Combine([brief.spend, r.cost]),
      notes := r.notes
    )
  }

  // ---------------------------------------------------------------- releasing

  /** `delivery.auto_merge`, with whether the integration model is `gated_merge`. */
  datatype MergePolicy = MergePolicy(
    enabled: bool,
    gatedMerge: bool,
    maxTier: Tier,
    maxFilesChanged: Option<int>,
    requireExternalAnchor: bool
  )

  predicate Rejecting(approvals: seq<Approval>) {
    exists a | a in approvals :: !a.approved
  }

  function Approving(approvals: seq<Approval>): nat {
    if approvals == [] then 0 else (if approvals[0].approved then 1 else 0) + Approving(approvals[1..])
  }

  function Shifted(s: set<nat>): set<nat> {
    set i | i in s :: i + 1
  }

  lemma {:induction false} ShiftedSize(s: set<nat>)
    ensures |Shifted(s)| == |s|
  {
    if s != {} {
      var i :| i in s;
      var without := s - {i};
      ShiftedSize(without);
      ShiftedWith(without, i);
      assert s == without + {i};
    }
  }

  lemma ShiftedWith(s: set<nat>, i: nat)
    requires i !in s
    ensures Shifted(s + {i}) == Shifted(s) + {i + 1} && i + 1 !in Shifted(s)
  {
  }

  /** The places of the marks, and of those behind the first place. */
  function Marked(marks: seq<bool>): set<nat> {
    set i: nat | i < |marks| && marks[i]
  }

  lemma OneMarkMore(marks: seq<bool>)
    requires marks != []
    ensures |Marked(marks)| == (if marks[0] then 1 else 0) + |Marked(marks[1..])|
  {
    var rest := Marked(marks[1..]);
    ShiftedSize(rest);
    forall i: nat | i > 0 ensures i in Marked(marks) <==> i in Shifted(rest) {
      if i in Marked(marks) { assert i - 1 in rest; }
    }
    assert 0 !in Shifted(rest);
    assert Marked(marks) == (if marks[0] then {0} else {}) + Shifted(rest);
  }

  /** The approvals counted are the decisions that approve, one each. */
  lemma {:induction false} ApprovingIsTheirNumber(approvals: seq<Approval>)
    ensures Approving(approvals) == |set i: nat | i < |approvals| && approvals[i].approved|
  {
    var marks := Marks(approvals);
    assert (set i: nat | i < |approvals| && approvals[i].approved) == Marked(marks);
    if approvals != [] {
      ApprovingIsTheirNumber(approvals[1..]);
      assert marks[1..] == Marks(approvals[1..]);
      assert (set i: nat | i < |approvals[1..]| && approvals[1..][i].approved) == Marked(marks[1..]);
      OneMarkMore(marks);
    }
  }

  function Marks(approvals: seq<Approval>): seq<bool> {
    seq(|approvals|, i requires 0 <= i < |approvals| => approvals[i].approved)
  }

  predicate Anchored(s: FlowState) {
    s.ciResult.Some? && s.ciResult.value.source == Ci
  }

  /** `_may_merge`: every clause of the declared policy. */
  predicate MayMerge(p: MergePolicy, s: FlowState) {
    && p.enabled
    && p.gatedMerge
    && s.tier.Rank() <= p.maxTier.Rank()
    && !Rejecting(s.approvals)
    && (p.maxFilesChanged.Some? ==> |Paths(s)| <= p.maxFilesChanged.value)
    && (p.requireExternalAnchor ==> Anchored(s))
  }

  /** What the platform answers to a release: opening the request, then the merge if it is asked for. */
  datatype ReleaseReply = ReleaseReply(pullRequest: Option<string>, merged: Option<string>)

  /** What one attempt at releasing did on the platform. */
  datatype Effect =
    | Opened(source: string, target: string)
    | MergeAsked(head: string, policy: MergePolicy, state: FlowState)
    | DeletionAsked(branch: string)

  /** `release`: `None` when it raises. */
  function Released(s: FlowState, p: MergePolicy, reply: ReleaseReply, notes: Notes): Option<FlowState> {
    if !Truthy(s.branch) || !Truthy(s.headCommit) || !Truthy(s.baseBranch) then None
    else if reply.pullRequest.None? then None
    else
      var link := Artifact(PullRequestArtifact, reply.pullRequest.value);
      var requested := s.(artifacts := s.artifacts + [link], notes := notes);
      if !MayMerge(p, s) then Some(requested)
      else if reply.merged.None? then None
      else
        Some(requested.(
             artifacts := requested.artifacts + [Artifact(MergeArtifact, reply.merged.value)],
             mergedCommit := reply.merged
           ))
  }

  /** The requests `release` sends, in order, whether or not it then raises. */
  function ReleaseEffects(s: FlowState, p: MergePolicy, reply: ReleaseReply): seq<Effect> {
    if !Truthy(s.branch) || !Truthy(s.headCommit) || !Truthy(s.baseBranch) then []
    else
      [Opened(s.branch.value, s.baseBranch.value)]
      + if reply.pullRequest.Some? && MayMerge(p, s) then [MergeAsked(s.headCommit.value, p, s)] else []
  }

  /**
   The requests of a release, from the clauses of the policy: a pull request is opened whenever branch,
   head and base are known, and a merge is asked for exactly if the platform opened it and every clause
   holds. Auto-merge is enabled and the merges are gated, the tier is not above the ceiling, no decision
   rejects, the diff is within the limit, and the verdict came from CI if an outside anchor is required.
   */
  lemma ReleaseAsksExactly(s: FlowState, p: MergePolicy, reply: ReleaseReply, e: Effect)
    ensures var known := s.branch !in {None, Some("")} && s.headCommit !in {None, Some("")}
                         && s.baseBranch !in {None, Some("")};
            e in ReleaseEffects(s, p, reply) <==>
            match e
            case Opened(source, target) => known && s.branch == Some(source) && s.baseBranch == Some(target)
            case MergeAsked(head, read, judged) =>
              && known && reply.pullRequest != None
              && read == p && judged == s && s.headCommit == Some(head)
              && p.enabled && p.gatedMerge
              && !(s.tier == High && p.maxTier != High) && !(s.tier == Medium && p.maxTier == Low)
              && (forall a | a in s.approvals :: a.approved)
              && (match (p.maxFilesChanged, s.diff)
                  case (None, _) => true
                  case (Some(limit), None) => limit >= 0
                  case (Some(limit), Some(files)) => |files| <= limit)
              && (p.requireExternalAnchor ==> match s.ciResult case None => false case Some(c) => c.source == Ci)
            case DeletionAsked(_) => false
  {
    var es := ReleaseEffects(s, p, reply);
    TruthyMeaning(s.branch);
    TruthyMeaning(s.headCommit);
    TruthyMeaning(s.baseBranch);
    assert Rejecting(s.approvals) <==> !forall a | a in s.approvals :: a.approved;
    assert MayMerge(p, s) <==>
      && p.enabled && p.gatedMerge && !Rejecting(s.approvals)
      && !(s.tier == High && p.maxTier != High) && !(s.tier == Medium && p.maxTier == Low)
      && (p.maxFilesChanged.Some? ==> |Paths(s)| <= p.maxFilesChanged.value)
      && (p.requireExternalAnchor ==> Anchored(s));
    if es != [] {
      var open, asked := Opened(s.branch.value, s.baseBranch.value), MergeAsked(s.headCommit.value, p, s);
      assert es == if reply.pullRequest.Some? && MayMerge(p, s) then [open, asked] else [open];
      assert e in es <==> e == open || (e == asked && reply.pullRequest.Some? && MayMerge(p, s));
    }
  }

  /** First the pull request, then at most one merge. */
  lemma ReleaseAsksInOrder(s: FlowState, p: MergePolicy, reply: ReleaseReply)
    ensures var es := ReleaseEffects(s, p, reply);
            |es| <= 2 && (|es| > 0 ==> es[0].Opened?) && (|es| > 1 ==> es[1].MergeAsked?)
  {
  }

  /**
   What a release returns. It raises when it asks for nothing, when the pull request is not opened, and
   when a merge it asked for is not answered. Otherwise the state gains the pull request and, if the
   merge was asked for, the merge and its commit; everything else stays.
   */
  lemma ReleasedMeaning(s: FlowState, p: MergePolicy, reply: ReleaseReply, notes: Notes)
    ensures var asked, r := ReleaseEffects(s, p, reply), Released(s, p, reply, notes);
            && (r == None <==> asked == [] || reply.pullRequest == None || (|asked| == 2 && reply.merged == None))
            && (r != None ==>
                  var link := Artifact(PullRequestArtifact, reply.pullRequest.value);
                  r.value == if |asked| == 2
                  then s.(artifacts := s.artifacts + [link, Artifact(MergeArtifact, reply.merged.value)],
                          mergedCommit := reply.merged, notes := notes)
                  else s.(artifacts := s.artifacts + [link], notes := notes))
  {
    if reply.pullRequest.Some? && reply.merged.Some? {
      var link, merge := Artifact(PullRequestArtifact, reply.pullRequest.value),
                         Artifact(MergeArtifact, reply.merged.value);
      assert s.artifacts + [link] + [merge] == s.artifacts + [link, merge];
    }
  }

  // ---------------------------------------------------------------- compensating

  predicate HasPullRequest(s: FlowState) {
    exists a | a in s.artifacts :: a.kind == PullRequestArtifact
  }

  /** Whether `compensate` asks for the branch to be deleted. */
  predicate Deletes(s: FlowState) {
    Truthy(s.branch) && Truthy(s.headCommit) && !HasPullRequest(s)
  }

  lemma DeletesMeaning(s: FlowState, branch: string)
    ensures Deletes(s) && s.branch == Some(branch) <==>
            && branch != "" && s.branch == Some(branch) && s.headCommit !in {None, Some("")}
            && forall a | a in s.artifacts :: a.kind != PullRequestArtifact
  {
    TruthyMeaning(s.headCommit);
  }

  function Compensated(s: FlowState, answer: string, notes: Notes): FlowState {
    if !Truthy(s.branch) || !Truthy(s.headCommit) then s.(notes := notes)
    else if HasPullRequest(s) then
      s.(cleanup := Some("branch kept: a pull request was opened against it"), notes := notes)
    else s.(cleanup := Some(answer), notes := notes)
  }

  /** What compensation leaves: the platform's answer, a note that the branch is kept, or nothing to tidy. */
  lemma CompensatedMeaning(s: FlowState, answer: string, notes: Notes)
    ensures var t := Compensated(s, answer, notes);
            var pushed := s.branch !in {None, Some("")} && s.headCommit !in {None, Some("")};
            var open := exists a | a in s.artifacts :: a.kind == PullRequestArtifact;
            && t == s.(cleanup := t.cleanup, notes := notes)
            && (!pushed ==> t.cleanup == s.cleanup)
            && (pushed && !open ==> t.cleanup == Some(answer))
            && (pushed && open ==> t.cleanup == Some("branch kept: a pull request was opened against it"))
  {
    TruthyMeaning(s.branch);
    TruthyMeaning(s.headCommit);
  }

  // ---------------------------------------------------------------- what the nodes do

  /** What a successful execution of a node guarantees about the state it returns. */
  ghost predicate Does(n: NodeId, s: FlowState, t: FlowState) {
    match n
    case Triage =>
      && t.tier.Rank() >= s.tier.Rank()
      && t == s.(ticket := t.ticket, tier := t.tier, provisionalTier := Some(t.tier), notes := t.notes)
    case Planner => t == s.(plan := t.plan, spend := t.spend, notes := t.notes)
    case Coder =>
      // Pinned on the first pass, kept on the later ones; the edits and the diff come from one map.
      && (Truthy(s.baseBranch) && Truthy(s.baseCommit) ==>
            t.baseBranch == s.baseBranch && t.baseCommit == s.baseCommit)
      && t.branch.Some? && (Truthy(s.branch) ==> t.branch == s.branch)
      && t.diff.Some? && |t.diff.value| == |t.edits|
      && (forall i | 0 <= i < |t.edits| :: t.diff.value[i].path == t.edits[i].path)
      && t == s.(branch := t.branch, baseBranch := t.baseBranch, baseCommit := t.baseCommit, diff := t.diff,
                 edits := t.edits, spend := t.spend, retryCount := t.retryCount, notes := t.notes)
    case Push =>
      && s.diff.Some? && s.diff.value != []
      && Truthy(s.branch) && Truthy(s.baseBranch) && Truthy(s.baseCommit)
      && NotProtected(Paths(s))
      && Truthy(t.headCommit)
      && t == s.(headCommit := t.headCommit, notes := t.notes,
                 artifacts := s.artifacts + [Artifact(CommitArtifact, t.headCommit.value)])
    case BuildTest =>
      && NotProtected(Paths(s))
      && t == s.(ciResult := t.ciResult, isolation := t.isolation, evidence := t.evidence, notes := t.notes)
    case Check(v) =>
      exists r: Reply | r.Verdict? :: t == Graded(s, v, r)
    case Release =>
      exists p: MergePolicy, reply: ReleaseReply :: Released(s, p, reply, t.notes) == Some(t)
    case Compensate =>
      exists answer: string :: t == Compensated(s, answer, t.notes)
    case Reporter => t == s.(notes := t.notes)
  }

  // ---------------------------------------------------------------- input and result

  datatype FlowInput = FlowInput(
    runId: string,
    lineage: Lineage,
    ticket: Ticket,
    policyCommit: string,
    provisionalTier: Tier,
    riskRules: RiskRules,
    blockingVerifiers: seq<Verifier>,
    maxCoderRetries: int
  )

  /** An empty declaration means the default, which is that every verifier blocks. */
  function Blocking(p: FlowInput): set<Verifier> {
    var declared := set v | v in p.blockingVerifiers;
    if declared == {} then set v | v in VERIFIERS else declared
  }

  lemma BlockingMeaning(p: FlowInput, v: Verifier)
    ensures v in Blocking(p) <==> p.blockingVerifiers == [] || v in p.blockingVerifiers
  {
    assert VERIFIERS == [Correctness, Security, TestEvidence, RegressionRisk];
    assert v in VERIFIERS by {
      match v
      case Correctness => assert VERIFIERS[0] == v;
      case Security => assert VERIFIERS[1] == v;
      case TestEvidence => assert VERIFIERS[2] == v;
      case RegressionRisk => assert VERIFIERS[3] == v;
    }
    var declared := set x | x in p.blockingVerifiers;
    assert v in declared <==> v in p.blockingVerifiers;
    if p.blockingVerifiers != [] {
      assert p.blockingVerifiers[0] in declared;
    }
  }

  /** `range(max_coder_retries + 1)`: how many passes the loop may make. */
  function MaxPasses(p: FlowInput): nat {
    if p.maxCoderRetries + 1 <= 0 then 0 else p.maxCoderRetries + 1
  }

  datatype Status = Running | Suspended | Succeeded | Rejected | FailedStatus

  datatype FlowResult = FlowResult(runId: string, status: Status, tier: Tier, events: nat)

  datatype Signal = Signal(principal: string, approved: bool, digest: string)

  function Recorded(signals: seq<Signal>, tier: Tier): (r: seq<Approval>)
    ensures |r| == |signals|
    ensures forall i | 0 <= i < |r| ::
            r[i] == Approval(signals[i].principal, signals[i].approved, tier, signals[i].digest)
  {
    seq(|signals|, i requires 0 <= i < |signals| =>
      Approval(signals[i].principal, signals[i].approved, tier, signals[i].digest))
  }
}
