/** What follows for every run, read off the trail, the activity history and the requests it leaves. */
module DeliveryTheorems {
  import opened Options
  import opened Policy
  import opened FlowModel
  import opened AuditTrail
  import opened Delivery

  // ---------------------------------------------------------------- requests to the platform

  /** No decision rejects, and a change of medium tier has one that approves, one of high tier two. */
  predicate ApprovedFor(s: FlowState) {
    var approving := |set i: nat | i < |s.approvals| && s.approvals[i].approved|;
    && (forall a | a in s.approvals :: a.approved)
    && (s.tier == Medium ==> approving >= 1)
    && (s.tier == High ==> approving >= 2)
  }

  /** Every clause under which the policy lets the engine merge a state, apart from the approvals. */
  predicate WithinPolicy(s: FlowState, p: MergePolicy) {
    && p.enabled && p.gatedMerge
    && (s.tier == High ==> p.maxTier == High)
    && (s.tier == Medium ==> p.maxTier != Low)
    && (p.maxFilesChanged.Some? && s.diff.Some? ==> |s.diff.value| <= p.maxFilesChanged.value)
    && (p.requireExternalAnchor ==> s.ciResult.Some? && s.ciResult.value.source == Ci)
  }

  /** What was pushed last is the output of the last push that returned. */
  lemma {:induction false} LastPushIsTheLast(h: seq<Activity>, i: nat)
    requires i < |h| && h[i].node == Push && h[i].output.Some?
    requires forall j | i < j < |h| && h[j].node == Push :: h[j].output == None
    ensures LastPush(h) == h[i].output
  {
    if i < |h| - 1 { LastPushIsTheLast(h[..|h| - 1], i); }
  }

  lemma {:induction false} PushesAreTheirNumber(h: seq<Activity>)
    ensures Pushes(h) == |set i: nat | i < |h| && h[i].node == Push && h[i].output.Some?|
  {
    var all := set i: nat | i < |h| && h[i].node == Push && h[i].output.Some?;
    if h == [] {
      assert all == {};
    } else {
      var front, last := h[..|h| - 1], h[|h| - 1];
      PushesAreTheirNumber(front);
      assert all == (set i: nat | i < |front| && front[i].node == Push && front[i].output.Some?)
                    + (if last.node == Push && last.output.Some? then {|h| - 1} else {});
    }
  }

  /**
   A merge is asked for only by a release whose input names the head of the last completed push, was
   graded 0, is objected to by no verifier that may block, has the approvals its tier needs, and satisfies
   every clause of the merge policy. This covers requests whose reply was lost. Conversely a release asks
   for the merge whenever all of them hold (`ReleaseAsksExactly`).
   */
  lemma MergesAreSafe(flow: DeliveryFlow, e: Effect)
    requires flow.Valid() && e in flow.effects && e.MergeAsked?
    ensures exists i | 0 <= i < |flow.activities| ::
              && flow.activities[i].node == Release && flow.activities[i].input == e.state
              && LastPush(flow.activities[..i]).Some? && LastPush(flow.activities[..i]).value.headCommit == Some(e.head)
    ensures e.state.ciResult.Some? && e.state.ciResult.value.exitCode == 0
    ensures forall x | x in e.state.verifications && !x.passed :: !Blocks(flow.input, x.verifier)
    ensures ApprovedFor(e.state)
    ensures e.policy.enabled && e.policy.gatedMerge
    ensures e.state.tier == High ==> e.policy.maxTier == High
    ensures e.state.tier == Medium ==> e.policy.maxTier != Low
    ensures e.policy.maxFilesChanged.Some? && e.state.diff.Some? ==>
              |e.state.diff.value| <= e.policy.maxFilesChanged.value
    ensures e.policy.requireExternalAnchor ==> e.state.ciResult.value.source == Ci
  {
    ApprovingIsTheirNumber(e.state.approvals);
    var h := flow.activities;
    assert Justified(h, e);
    var i :| 0 <= i < |h| && CalledFor(h[i].node, h[i].input, e);
    assert WellCalledAt(h, i, Blocking(flow.input));
    assert h[i].node == Release;
    forall x | x in e.state.verifications && !x.passed ensures !Blocks(flow.input, x.verifier) {
      BlockingMeaning(flow.input, x.verifier);
    }
  }

  /**
   Release safety, of any flow at any point of any run. A row that claims control is the only such row;
   the last verdict before it was exit code 0, whom the verifiers named last is not blocking, and the gate
   had passed. It names the commit of a merge made by a release that was given the head of the last
   completed push, with the approvals its tier needs and every clause of the merge policy it read holding.
   */
  lemma ControlIsEarned(flow: DeliveryFlow, i: nat)
    requires flow.Valid() && i < |flow.trail| && flow.trail[i].control.Some?
    ensures var t := flow.trail;
            && t[i].kind.ExternalEffect? && (forall j | 0 <= j < |t| :: t[j].control.Some? ==> j == i)
            && LastExit(t[..i]) == Some(0)
            && (forall v | v in LastFalsified(t[..i]) :: !Blocks(flow.input, v))
            && exists j | 0 <= j < i :: t[j].kind.GatePassed?
    ensures exists k | 0 <= k < |flow.activities| ::
              var a, before := flow.activities[k], flow.activities[..k];
              && a.node == Release && a.output.Some? && a.output.value.mergedCommit == Some(flow.trail[i].kind.merged)
              && LastPush(before).Some? && a.input.headCommit == LastPush(before).value.headCommit
              && a.input.ciResult.Some? && a.input.ciResult.value.exitCode == 0
              && (forall x | x in a.input.verifications && !x.passed :: !Blocks(flow.input, x.verifier))
              && ApprovedFor(a.input)
              && exists e | e in flow.effects ::
                   && e.MergeAsked? && e.state == a.input && Some(e.head) == LastPush(before).value.headCommit
                   && WithinPolicy(e.state, e.policy)
  {
    ReleaseIsSafe(RulesOf(flow.input), flow.trail, i);
    forall v | v in LastFalsified(flow.trail[..i]) ensures !Blocks(flow.input, v) { BlockingMeaning(flow.input, v); }
    assert ClaimedAt(flow.trail, i, flow.activities);
    var k :| 0 <= k < |flow.activities| && MergedAt(flow.activities, k, flow.trail[i].kind.merged);
    var e := MergeIsEarned(flow, k);
  }

  /** A release that made a merge asked for it, and had every right to. */
  lemma MergeIsEarned(flow: DeliveryFlow, k: nat) returns (e: Effect)
    requires flow.Valid() && k < |flow.activities| && MergeOf(flow.activities[k]).Some?
    ensures var a, before := flow.activities[k], flow.activities[..k];
            && LastPush(before).Some? && a.input.headCommit == LastPush(before).value.headCommit
            && a.input.ciResult.Some? && a.input.ciResult.value.exitCode == 0
            && (forall x | x in a.input.verifications && !x.passed :: !Blocks(flow.input, x.verifier))
            && ApprovedFor(a.input)
            && e in flow.effects && e.MergeAsked? && e.state == a.input
            && Some(e.head) == LastPush(before).value.headCommit && WithinPolicy(e.state, e.policy)
  {
    assert WellCalledAt(flow.activities, k, Blocking(flow.input)) && ActedAt(flow.activities, k, flow.effects);
    var s := flow.activities[k].input;
    ApprovingIsTheirNumber(s.approvals);
    forall x | x in s.verifications && !x.passed ensures !Blocks(flow.input, x.verifier) {
      BlockingMeaning(flow.input, x.verifier);
    }
    e :| e in flow.effects && e.MergeAsked? && e.state == s && s.headCommit == Some(e.head) && MayMerge(e.policy, s);
  }

  /** The shape of the trail, of any flow at any point of any run. */
  lemma TrailHasItsShape(flow: DeliveryFlow)
    requires flow.Valid()
    ensures flow.seqNo == |flow.trail| && forall i | 0 <= i < |flow.trail| :: flow.trail[i].seqNo == i + 1
    ensures IsFlowPath(Steps(flow.trail))
    ensures Passes(Steps(flow.trail)) == 0 || Passes(Steps(flow.trail)) <= flow.input.maxCoderRetries + 1
    ensures |set i: nat | i < |flow.trail| && flow.trail[i].kind.RunCost?| == if flow.mon.stage == Costed then 1 else 0
    ensures forall i, j | 0 <= i < j < |flow.activities| ::
              flow.activities[i].node != flow.activities[j].node
                || flow.activities[i].number != flow.activities[j].number
  {
    forall i | 0 <= i < |flow.trail| ensures flow.trail[i].seqNo == i + 1 { assert NumberedAt(flow.trail, i); }
    NodesFollowTheFlow(RulesOf(flow.input), flow.trail);
    RemembersCounts(RulesOf(flow.input), flow.trail);
    CostsAreRows(flow.trail);
    forall i, j | 0 <= i < j < |flow.activities|
      ensures flow.activities[i].node != flow.activities[j].node
              || flow.activities[i].number != flow.activities[j].number
    {
      ActivityIdsAreDistinct(flow, i, j);
    }
  }

  /**
   A merge and its row, of any flow that is not releasing: a merge has a row that names its commit exactly
   when the platform named one.
   */
  lemma MergeHasItsRow(flow: DeliveryFlow, i: nat)
    requires flow.Valid() && !Releasing(flow.mon.stage)
    requires i < |flow.activities| && MergeOf(flow.activities[i]).Some?
    ensures HasRow(flow.trail, MergeOf(flow.activities[i]).value) <==> MergeOf(flow.activities[i]).value != ""
  {
    assert RowedAt(flow.trail, flow.activities, i, flow.owed);
    if HasRow(flow.trail, MergeOf(flow.activities[i]).value) {
      var j :| 0 <= j < |flow.trail| && IsRowFor(flow.trail, j, MergeOf(flow.activities[i]).value);
      assert ClaimedAt(flow.trail, j, flow.activities);
    }
  }

  /** In particular of a run that has been closed by its cost row. */
  lemma FinishedMergeHasItsRow(flow: DeliveryFlow, i: nat, r: FlowResult)
    requires flow.Valid() && flow.Finished(r) && i < |flow.activities| && MergeOf(flow.activities[i]).Some?
    ensures (exists j | 0 <= j < |flow.trail| :: flow.trail[j].control.Some? && flow.trail[j].kind.ExternalEffect?
                                                && Some(flow.trail[j].kind.merged) == MergeOf(flow.activities[i]))
            <==> MergeOf(flow.activities[i]).value != ""
  {
    MergeHasItsRow(flow, i);
    var t, commit := flow.trail, MergeOf(flow.activities[i]).value;
    if HasRow(t, commit) {
      var j :| 0 <= j < |t| && IsRowFor(t, j, commit);
      StepAt(RulesOf(flow.input), t, j);
    }
    if j :|
      && 0 <= j < |t| && t[j].control.Some? && t[j].kind.ExternalEffect?
      && Some(t[j].kind.merged) == MergeOf(flow.activities[i])
    {
      assert IsRowFor(t, j, commit);
    }
  }

  /**
   The row that claims control, of any flow that is not releasing: it is on the trail exactly when some
   release returned and the platform had named the commit it merged.
   */
  lemma ControlRowExactly(flow: DeliveryFlow)
    requires flow.Valid() && !Releasing(flow.mon.stage)
    ensures (exists j | 0 <= j < |flow.trail| :: flow.trail[j].control.Some?) <==>
            exists i | 0 <= i < |flow.activities| :: Truthy(MergeOf(flow.activities[i]))
  {
    var t, h := flow.trail, flow.activities;
    if j :| 0 <= j < |t| && t[j].control.Some? {
      ReleaseIsSafe(RulesOf(flow.input), t, j);
      assert ClaimedAt(t, j, h);
      var i :| 0 <= i < |h| && MergedAt(h, i, t[j].kind.merged);
      assert Truthy(MergeOf(h[i]));
    }
    if i :| 0 <= i < |h| && Truthy(MergeOf(h[i])) {
      MergeHasItsRow(flow, i);
      var j :| 0 <= j < |t| && IsRowFor(t, j, MergeOf(h[i]).value);
      StepAt(RulesOf(flow.input), t, j);
    }
  }

  /**
   So a merge can be without its row in two ways, from every state that may be merged under a policy. The
   first: the platform answers that it merged without naming the commit, and the release makes a merge
   that gets no row.
   */
  lemma EmptyIdIsAMerge(s: FlowState, p: MergePolicy, url: string, notes: Notes, number: nat)
    requires MayMerge(p, s) && s.mergedCommit == None
    requires Truthy(s.branch) && Truthy(s.headCommit) && Truthy(s.baseBranch)
    ensures var reply := ReleaseReply(Some(url), Some(""));
            && AskedToMerge(s, ReleaseEffects(s, p, reply))
            && MergeOf(Activity(Release, number, s, Released(s, p, reply, notes))) == Some("")
  {
    ReleasesAsk(s, p, ReleaseReply(Some(url), Some("")), notes);
  }

  /** The second: the platform merges, its reply is lost, and the attempt raises. If all do, no release returns. */
  lemma LostReplyIsNoRelease(s: FlowState, p: MergePolicy, url: string, notes: Notes)
    requires MayMerge(p, s)
    requires Truthy(s.branch) && Truthy(s.headCommit) && Truthy(s.baseBranch)
    ensures var reply := ReleaseReply(Some(url), None);
            AskedToMerge(s, ReleaseEffects(s, p, reply)) && Released(s, p, reply, notes) == None
  {
    var es := ReleaseEffects(s, p, ReleaseReply(Some(url), None));
    assert es == [Opened(s.branch.value, s.baseBranch.value)] + [MergeAsked(s.headCommit.value, p, s)];
    assert MergeAsked(s.headCommit.value, p, s) in es;
  }

  /**
   A pull request keeps its branch only if the release that opened it returned. The state compensation
   would be given after an attempt asks for the branch to be deleted exactly when the attempt raised,
   whether or not it had asked for the pull request to be opened, because the artifact is then lost.
   */
  lemma RaisedReleaseLosesItsPullRequest(s: FlowState, p: MergePolicy, reply: ReleaseReply, notes: Notes)
    requires Truthy(s.branch) && Truthy(s.headCommit) && Truthy(s.baseBranch) && !HasPullRequest(s)
    ensures Opened(s.branch.value, s.baseBranch.value) in ReleaseEffects(s, p, reply)
    ensures var released := Released(s, p, reply, notes);
            Deletes(if released.Some? then released.value else s) <==> released == None
  {
    var released := Released(s, p, reply, notes);
    if released.Some? {
      assert Artifact(PullRequestArtifact, reply.pullRequest.value) in released.value.artifacts;
    }
  }

  /** Compensation is always given the branch and the commit of the last completed push. */
  lemma CompensationKnowsThePush(flow: DeliveryFlow, i: nat)
    requires flow.Valid() && i < |flow.activities| && flow.activities[i].node == Compensate
    requires LastPush(flow.activities[..i]).Some?
    ensures flow.activities[i].input.branch == LastPush(flow.activities[..i]).value.branch
    ensures flow.activities[i].input.headCommit == LastPush(flow.activities[..i]).value.headCommit
  {
    assert WellCalledAt(flow.activities, i, Blocking(flow.input));
  }

  /**
   Once compensation has returned, a branch was asked to be deleted if and only if some compensation
   was given that branch with a pushed commit and no pull request on its state.
   */
  lemma DeletionsExactly(flow: DeliveryFlow, branch: string)
    requires flow.Valid()
    requires forall i | 0 <= i < |flow.activities| && flow.activities[i].node == Compensate ::
             flow.activities[i].output.Some?
    ensures DeletionAsked(branch) in flow.effects <==>
            exists i | 0 <= i < |flow.activities| ::
              && flow.activities[i].node == Compensate
              && branch != "" && flow.activities[i].input.branch == Some(branch)
              && flow.activities[i].input.headCommit !in {None, Some("")}
              && forall a | a in flow.activities[i].input.artifacts :: a.kind != PullRequestArtifact
  {
    DeletionsAreCalledFor(flow, branch);
    forall i | 0 <= i < |flow.activities|
      ensures Deletes(flow.activities[i].input) && flow.activities[i].input.branch == Some(branch) <==>
              && branch != "" && flow.activities[i].input.branch == Some(branch)
              && flow.activities[i].input.headCommit !in {None, Some("")}
              && forall a | a in flow.activities[i].input.artifacts :: a.kind != PullRequestArtifact
    {
      DeletesMeaning(flow.activities[i].input, branch);
    }
  }

  lemma DeletionsAreCalledFor(flow: DeliveryFlow, branch: string)
    requires flow.Valid()
    requires forall i | 0 <= i < |flow.activities| && flow.activities[i].node == Compensate ::
             flow.activities[i].output.Some?
    ensures DeletionAsked(branch) in flow.effects <==>
            exists i | 0 <= i < |flow.activities| ::
              flow.activities[i].node == Compensate && Deletes(flow.activities[i].input)
                && flow.activities[i].input.branch == Some(branch)
  {
    var h, es := flow.activities, flow.effects;
    if DeletionAsked(branch) in es {
      assert Justified(h, DeletionAsked(branch));
      var i :| 0 <= i < |h| && CalledFor(h[i].node, h[i].input, DeletionAsked(branch));
      assert h[i].node == Compensate && Deletes(h[i].input) && h[i].input.branch == Some(branch);
    }
    if exists i | 0 <= i < |h| :: h[i].node == Compensate && Deletes(h[i].input) && h[i].input.branch == Some(branch) {
      var i :| 0 <= i < |h| && h[i].node == Compensate && Deletes(h[i].input) && h[i].input.branch == Some(branch);
      assert ActedAt(h, i, es);
    }
  }

  /**
   The pushes of a run are numbered 0, 1, 2, ... by their attempt, and each is parented on what the
   one before it returned: what the idempotency of the branch push rests on.
   */
  lemma PushInputs(flow: DeliveryFlow, i: nat)
    requires flow.Valid() && i < |flow.activities| && flow.activities[i].node == Push
    ensures var before, push := flow.activities[..i], flow.activities[i].input;
            && push.pushAttempt == Pushes(before)
            && push.headCommit == (if LastPush(before).Some? then LastPush(before).value.headCommit else None)
            && (Pushes(before) == 0 <==> LastPush(before) == None)
  {
    assert WellCalledAt(flow.activities, i, Blocking(flow.input));
    CountsPushes(flow.activities[..i]);
  }

  lemma {:induction false} CountsPushes(h: seq<Activity>)
    ensures Pushes(h) == 0 <==> LastPush(h) == None
  {
    if h != [] { CountsPushes(h[..|h| - 1]); }
  }

  /** No two activities of a run share an id. */
  lemma ActivityIdsAreDistinct(flow: DeliveryFlow, i: nat, j: nat)
    requires flow.Valid() && i < j < |flow.activities|
    ensures flow.activities[i].node != flow.activities[j].node || flow.activities[i].number != flow.activities[j].number
  {
    assert OrderedAt(flow.activities, i, j);
  }

  // ---------------------------------------------------------------- returned runs

  /**
   A run that returned a result is triage, planner, whole passes of the cycle within the budget, then a
   release if it says succeeded or a compensation if it says rejected, and the reporter. The one cost row
   stands at the end of its trail, and no row records a failure.
   */
  lemma ReturnedRunShape(flow: DeliveryFlow, r: FlowResult)
    requires flow.Valid() && flow.Finished(r)
    ensures r.status == Succeeded || r.status == Rejected
    ensures var steps := Steps(flow.trail);
            var k := Passes(steps);
            && (k == 0 || k <= flow.input.maxCoderRetries + 1)
            && (r.status == Succeeded ==> k > 0 && steps == WholePasses(k) + [Release] + [Reporter])
            && (r.status == Rejected ==> steps == WholePasses(k) + [Compensate] + [Reporter])
    ensures r.status == Rejected <==> exists i | 0 <= i < |flow.trail| :: flow.trail[i].kind.AbortingRun?
    ensures forall i | 0 <= i < |flow.trail| :: !flow.trail[i].kind.RunFailed?
    ensures forall i | 0 <= i < |flow.trail| :: flow.trail[i].kind.RunCost? <==> i == |flow.trail| - 1
    ensures r.events == |flow.trail| && r.runId == flow.input.runId
  {
    ClosedRunShape(RulesOf(flow.input), flow.trail);
    RemembersCounts(RulesOf(flow.input), flow.trail);
    RemembersFailure(RulesOf(flow.input), flow.trail);
    OneCostRow(flow.trail);
  }

  lemma OneCostRow(t: seq<Event>)
    requires Costs(t) == 1 && t != [] && t[|t| - 1].kind.RunCost?
    ensures forall i | 0 <= i < |t| :: t[i].kind.RunCost? <==> i == |t| - 1
  {
    CostsAreRows(t);
    var all := set i: nat | i < |t| && t[i].kind.RunCost?;
    forall i | 0 <= i < |t| && t[i].kind.RunCost? ensures i == |t| - 1 {
      if i != |t| - 1 {
        assert {i, |t| - 1} <= all;
        CardinalityGrows({i, |t| - 1}, all);
      }
    }
  }

  lemma CardinalityGrows(a: set<nat>, b: set<nat>)
    requires a <= b
    ensures |a| <= |b|
  {
    assert b == a + (b - a);
  }

  // ---------------------------------------------------------------- fresh context

  /** Agreement on everything the allow-list names. */
  predicate LookAlike(s: FlowState, t: FlowState) {
    && s.runId == t.runId && s.lineage == t.lineage && s.evidence == t.evidence
    && s.ticket == t.ticket && s.policyCommit == t.policyCommit
    && s.diff == t.diff && s.edits == t.edits && s.branch == t.branch
    && s.baseBranch == t.baseBranch && s.baseCommit == t.baseCommit && s.headCommit == t.headCommit
    && s.ciResult == t.ciResult && s.isolation == t.isolation && s.tier == t.tier
  }

  /** A brief reveals the allow-listed fields and nothing else. */
  lemma BriefIsTheAllowList(s: FlowState, t: FlowState)
    ensures Brief(s) == Brief(t) <==> LookAlike(s, t)
  {}

  /**
   Fresh context, in the history of any flow: a verifier is never given the plan, an earlier verdict, an
   objection, a decision, a cost, the attempt, an artifact or anybody's notes.
   */
  lemma VerifiersSeeBriefs(flow: DeliveryFlow, i: nat)
    requires flow.Valid() && i < |flow.activities| && flow.activities[i].node.Check?
    ensures var shown := flow.activities[i].input;
            && shown.plan == None && shown.provisionalTier == None && shown.tierReason == None
            && shown.verifications == [] && shown.advisoryObjections == [] && shown.rejectedBy == []
            && shown.approvals == [] && shown.spend == Some(0) && shown.retryCount == 0 && shown.pushAttempt == 0
            && shown.mergedCommit == None && shown.cleanup == None && shown.artifacts == [] && shown.notes == ""
  {
    assert WellCalledAt(flow.activities, i, Blocking(flow.input));
    BriefShowsOnlyTheAllowList(flow.activities[i].input);
  }

  lemma {:induction false} AnswersInOrder(hs: seq<Heard>)
    ensures |Verdicts(hs)| == |Amounts(hs)| == |hs|
    ensures forall i | 0 <= i < |hs| :: Verdicts(hs)[i] == hs[i].verification && Amounts(hs)[i] == hs[i].spent
  {
    if hs != [] { AnswersInOrder(hs[..|hs| - 1]); }
  }

  /**
   The fan-out adds one verdict per verifier, in declaration order. States that look alike get the same
   verdicts, the same amounts and the same notes, whatever else they hold.
   */
  lemma FanOutIsAFunctionOfTheBrief(judge: Judge, s: FlowState, t: FlowState)
    requires AllAnswer(judge, Brief(s)) && LookAlike(s, t)
    ensures AllAnswer(judge, Brief(t)) && AllHeard(judge, Brief(t)) == AllHeard(judge, Brief(s))
    ensures var all := Gathered(s, AllHeard(judge, Brief(s))).verifications;
            && |all| == |s.verifications| + |VERIFIERS|
            && forall i | 0 <= i < |VERIFIERS| ::
                 var v, reply := VERIFIERS[i], judge(VERIFIERS[i], Brief(t));
                 all[|s.verifications| + i] == Verification(v, reply.passed, reply.findings)
  {
    BriefIsTheAllowList(s, t);
    AnswersInOrder(AllHeard(judge, Brief(s)));
  }

  /** What the fan-out adds to the spend, when every amount is known: the sum of what the verifiers spent. */
  lemma SpendAfterFanOut(judge: Judge, s: FlowState)
    requires AllAnswer(judge, Brief(s)) && s.spend.Some?
    requires forall v: Verifier :: judge(v, Brief(s)).cost.Some?
    ensures Gathered(s, AllHeard(judge, Brief(s))).spend
            == Some(s.spend.value
                    + judge(Correctness, Brief(s)).cost.value + judge(Security, Brief(s)).cost.value
                    + judge(TestEvidence, Brief(s)).cost.value + judge(RegressionRisk, Brief(s)).cost.value)
  {
    var b := Brief(s);
    var hs := AllHeard(judge, b);
    AnswersInOrder(hs);
    forall i | 0 <= i < 4 ensures Amounts(hs)[i] == judge(VERIFIERS[i], b).cost {
      CombineAdds(Some(0), [judge(VERIFIERS[i], b).cost]);
      assert [Some(0)] + [judge(VERIFIERS[i], b).cost] == [Some(0), judge(VERIFIERS[i], b).cost];
      assert [judge(VERIFIERS[i], b).cost] + [] == [judge(VERIFIERS[i], b).cost];
      CombineAdds(judge(VERIFIERS[i], b).cost, []);
    }
    var c0, c1 := judge(Correctness, b).cost, judge(Security, b).cost;
    var c2, c3 := judge(TestEvidence, b).cost, judge(RegressionRisk, b).cost;
    assert Amounts(hs) == [c0, c1, c2, c3];
    CombineAdds(s.spend, [c0, c1, c2, c3]);
    CombineAdds(c0, [c1, c2, c3]);
    CombineAdds(c1, [c2, c3]);
    CombineAdds(c2, [c3]);
    CombineAdds(c3, []);
  }

  /** The spend after the fan-out is unknown exactly when some part of it is. */
  lemma SpendIsKnownTogether(judge: Judge, s: FlowState)
    requires AllAnswer(judge, Brief(s))
    ensures Gathered(s, AllHeard(judge, Brief(s))).spend == None <==>
            s.spend == None || exists v: Verifier :: judge(v, Brief(s)).cost == None
  {
    var hs := AllHeard(judge, Brief(s));
    var amounts := Amounts(hs);
    AnswersInOrder(hs);
    forall i | 0 <= i < |hs| ensures amounts[i] == None <==> judge(VERIFIERS[i], Brief(s)).cost == None {
      var cost := judge(VERIFIERS[i], Brief(s)).cost;
      assert None in [Some(0), cost] <==> cost == None;
    }
    if v: Verifier :| judge(v, Brief(s)).cost == None {
      assert amounts[Position(v)] == None;
    }
    assert None in [s.spend] + amounts <==> s.spend == None || None in amounts;
  }
}
