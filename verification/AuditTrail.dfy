/**
 The rows a run writes to its audit trail, a monitor that says which trails are well formed, and what
 can be read off any well-formed trail. The monitor never looks at the flow: it is fed one row at a
 time and knows only the rules the run was started with.
 */
module AuditTrail {
  import opened Options
  import opened Policy
  import opened FlowModel

  datatype Kind =
    | NodeStarted(node: NodeId)
    | NodeCompleted(node: NodeId, notes: Notes)
    | NodeFailed(node: NodeId)
    | BranchPushed(branch: Option<string>, commit: Option<string>, base: Option<string>, attempt: nat)
    | BuildTestVerdict(exitCode: int, source: Source)
    | SandboxIsolation(isolation: string)
    | RiskTierFinal(tier: Tier, provisional: Tier, reason: Reason, files: nat)
    | VerifiersStarted(count: nat)
    | VerifierVerdict(verifier: Verifier, notes: Notes)
    | VerifiersCompleted(passed: nat, falsifiedBy: seq<Verifier>)
    | VerifierOverridden(advisory: seq<Verifier>)
    | PreviewPublished(url: string, shown: string)
    | GateReached(tier: Tier, needed: nat)
    | GatePassed(auto: bool)
    | GateRejected
    | ExternalEffect(merged: string, branch: Option<string>, target: Option<string>, tier: Tier)
    | AbortingRun(cause: string, falsifiedBy: seq<Verifier>)
    | RunFailed
    | CleanedUp(detail: string)
    | RunCost(spend: Spend)

  datatype ControlMode = Authorized | Observed

  datatype Event = Event(seqNo: nat, kind: Kind, control: Option<ControlMode>)

  // ---------------------------------------------------------------- the monitor

  /** What the run was started with, as far as the shape of its trail depends on it. */
  datatype Rules = Rules(maxPasses: nat, blocking: set<Verifier>)

  datatype Stage =
    | Unstarted
    | Doing(node: NodeId)
    | Did(node: NodeId)
    | Broke(node: NodeId)
    | Pushed
    | GradedPass
    | IsolationNoted
    | Tiered
    | Verifying
    | Verified
    | OverrideNoted
    | PreviewNoted
    | AtGate
    | GateOpen
    | GateClosed
    | Effected
    | Aborting
    | Failing
    | CleanupNoted
    | Costed

  /**
   `head` is the commit of the last recorded push, `exit` the verdict recorded in the current pass,
   `falsified` the verifiers named when the fan-out completed. `stray` holds once a verifier's
   activity failed: its siblings keep running, so their failures may be recorded anywhere after.
   `failed` and `aborted` hold once the run was recorded to have failed or to be aborting.
   */
  datatype Monitor = Monitor(
    stage: Stage,
    passes: nat,
    head: Option<string>,
    exit: Option<int>,
    tier: Option<Tier>,
    nextVerdict: nat,
    falsified: seq<Verifier>,
    needed: nat,
    stray: bool,
    failed: bool,
    aborted: bool
  )

  const START := Monitor(Unstarted, 0, None, None, None, 0, [], 0, false, false, false)

  function Position(v: Verifier): (i: nat)
    ensures i < |VERIFIERS| && VERIFIERS[i] == v
  {
    match v case Correctness => 0 case Security => 1 case TestEvidence => 2 case RegressionRisk => 3
  }

  /** The members of `named` that are (not) among `blocking`, in order. */
  function Among(named: seq<Verifier>, blocking: set<Verifier>, inside: bool): (r: seq<Verifier>)
    ensures forall v :: v in r <==> v in named && (v in blocking <==> inside)
  {
    if named == [] then []
    else
      var rest := Among(named[1..], blocking, inside);
      if (named[0] in blocking) == inside then [named[0]] + rest else rest
  }

  predicate NothingBlocks(r: Rules, m: Monitor) {
    Among(m.falsified, r.blocking, true) == []
  }

  /** The loop has made all its passes and none of them ended in exit code 0. */
  predicate Exhausted(r: Rules, m: Monitor) {
    && m.passes == r.maxPasses
    && m.exit != Some(0)
    && (m.stage == Did(BuildTest) || m.stage == GradedPass || (m.stage == Did(Planner) && r.maxPasses == 0))
  }

  predicate MayStart(r: Rules, m: Monitor, n: NodeId) {
    match n
    case Triage => m.stage == Unstarted
    case Planner => m.stage == Did(Triage)
    case Coder =>
      && m.passes < r.maxPasses
      && (m.stage == Did(Planner) || ((m.stage == Did(BuildTest) || m.stage == GradedPass) && m.exit != Some(0)))
    case Push => m.stage == Did(Coder)
    case BuildTest => m.stage == Pushed
    case Check(_) => false
    case Release => m.stage == GateOpen
    case Compensate => m.stage == Aborting || m.stage == Failing
    case Reporter =>
      m.stage == Did(Release) || m.stage == Effected || m.stage == Did(Compensate) || m.stage == CleanupNoted
  }

  predicate MayAbort(r: Rules, m: Monitor, names: seq<Verifier>) {
    var blockers := Among(m.falsified, r.blocking, true);
    || (Exhausted(r, m) && names == [])
    || (m.stage == GateClosed && names == [])
    || ((m.stage == Verified || m.stage == OverrideNoted) && names == blockers != [])
  }

  predicate MayFail(m: Monitor) {
    || (m.stage.Broke? && (m.stage.node == Triage || m.stage.node == Planner || m.stage.node == Coder
       || m.stage.node == Push || m.stage.node == BuildTest || m.stage.node == Release))
    || (m.stage == Verifying && m.stray)
    || (m.stage == AtGate && m.needed > 0)
  }

  /** Every advisory objection is on its own row before the gate is reached. */
  predicate ObjectionsNoted(r: Rules, m: Monitor) {
    m.stage == Verified ==> m.falsified == []
  }

  /** The monitor's next state, or `None` when the row may not come here. */
  function Step(r: Rules, m: Monitor, k: Kind): Option<Monitor> {
    match k
    case NodeStarted(n) =>
      if !MayStart(r, m, n) then None
      else if n == Coder then Some(m.(stage := Doing(n), passes := m.passes + 1, exit := None))
      else Some(m.(stage := Doing(n)))
    case NodeCompleted(n, _) => if m.stage == Doing(n) then Some(m.(stage := Did(n))) else None
    case NodeFailed(n) =>
      if n.Check? then
        if m.stray then Some(m) else if m.stage == Verifying then Some(m.(stray := true)) else None
      else if m.stage == Doing(n) then Some(m.(stage := Broke(n)))
      else None
    case BranchPushed(_, commit, _, attempt) =>
      if m.stage == Did(Push) && attempt + 1 == m.passes then Some(m.(stage := Pushed, head := commit)) else None
    case BuildTestVerdict(exit, _) =>
      if m.stage == Did(BuildTest) then Some(m.(stage := GradedPass, exit := Some(exit))) else None
    case SandboxIsolation(_) =>
      if m.stage == GradedPass && m.exit == Some(0) then Some(m.(stage := IsolationNoted)) else None
    case RiskTierFinal(tier, _, _, _) =>
      if (m.stage == GradedPass || m.stage == IsolationNoted) && m.exit == Some(0) then
        Some(m.(stage := Tiered, tier := Some(tier)))
      else None
    case VerifiersStarted(_) => if m.stage == Tiered then Some(m.(stage := Verifying, nextVerdict := 0)) else None
    case VerifierVerdict(v, _) =>
      if m.stage == Verifying && !m.stray && Position(v) >= m.nextVerdict then
        Some(m.(nextVerdict := Position(v) + 1))
      else None
    case VerifiersCompleted(_, names) =>
      if m.stage == Verifying && !m.stray then Some(m.(stage := Verified, falsified := names)) else None
    case VerifierOverridden(names) =>
      if m.stage == Verified && names == Among(m.falsified, r.blocking, false) != [] then
        Some(m.(stage := OverrideNoted))
      else None
    case PreviewPublished(_, shown) =>
      if (m.stage == Verified || m.stage == OverrideNoted) && ObjectionsNoted(r, m) && NothingBlocks(r, m)
         && m.head == Some(shown)
      then Some(m.(stage := PreviewNoted))
      else None
    case GateReached(tier, needed) =>
      if (m.stage == Verified || m.stage == OverrideNoted || m.stage == PreviewNoted) && ObjectionsNoted(r, m)
        && NothingBlocks(r, m)
         && m.tier == Some(tier) && needed == RequiredApprovals(tier)
      then Some(m.(stage := AtGate, needed := needed))
      else None
    case GatePassed(auto) =>
      if m.stage == AtGate && auto == (m.needed == 0) then Some(m.(stage := GateOpen)) else None
    case GateRejected => if m.stage == AtGate && m.needed > 0 then Some(m.(stage := GateClosed)) else None
    case ExternalEffect(_, _, _, _) => if m.stage == Did(Release) then Some(m.(stage := Effected)) else None
    case AbortingRun(_, names) => if MayAbort(r, m, names) then Some(m.(stage := Aborting, aborted := true)) else None
    case RunFailed => if MayFail(m) then Some(m.(stage := Failing, failed := true)) else None
    case CleanedUp(_) => if m.stage == Did(Compensate) then Some(m.(stage := CleanupNoted)) else None
    case RunCost(_) => if m.stage == Did(Reporter) then Some(m.(stage := Costed)) else None
  }

  /** A row names a control mode exactly when it records an effect, and then it is `authorized`. */
  predicate ControlFits(e: Event) {
    e.control == if e.kind.ExternalEffect? then Some(Authorized) else None
  }

  /** The monitor after the whole trail. */
  function Watch(r: Rules, t: seq<Event>): Option<Monitor> {
    if t == [] then Some(START)
    else
      var before, last := Watch(r, t[..|t| - 1]), t[|t| - 1];
      if before.Some? && ControlFits(last) then Step(r, before.value, last.kind) else None
  }

  /** Sequence numbers are 1..N, without gap or repeat. */
  predicate Numbered(t: seq<Event>) {
    forall i | 0 <= i < |t| :: NumberedAt(t, i)
  }

  predicate NumberedAt(t: seq<Event>, i: nat)
    requires i < |t|
  {
    t[i].seqNo == i + 1
  }

  lemma WatchAppend(r: Rules, t: seq<Event>, e: Event)
    requires Watch(r, t).Some? && ControlFits(e)
    requires Numbered(t) && e.seqNo == |t| + 1
    ensures Watch(r, t + [e]) == Step(r, Watch(r, t).value, e.kind)
    ensures Numbered(t + [e])
  {
    assert (t + [e])[..|t|] == t;
    forall i | 0 <= i < |t + [e]| ensures NumberedAt(t + [e], i) {
      if i < |t| { assert NumberedAt(t, i); }
    }
  }

  // ---------------------------------------------------------------- what the trail itself says

  /** The last build-and-test verdict on the trail since the last pass began. */
  function LastExit(t: seq<Event>): Option<int> {
    if t == [] then None
    else
      match t[|t| - 1].kind
      case BuildTestVerdict(exit, _) => Some(exit)
      case NodeStarted(Coder) => None
      case _ => LastExit(t[..|t| - 1])
  }

  /** The commit the last push on the trail put on the branch. */
  function LastHead(t: seq<Event>): Option<string> {
    if t == [] then None
    else
      match t[|t| - 1].kind
      case BranchPushed(_, commit, _, _) => commit
      case _ => LastHead(t[..|t| - 1])
  }

  /** Whom the completed fan-out named as falsifying the change. */
  function LastFalsified(t: seq<Event>): seq<Verifier> {
    if t == [] then []
    else
      match t[|t| - 1].kind
      case VerifiersCompleted(_, names) => names
      case _ => LastFalsified(t[..|t| - 1])
  }

  function Effects(t: seq<Event>): nat {
    if t == [] then 0 else Effects(t[..|t| - 1]) + if t[|t| - 1].kind.ExternalEffect? then 1 else 0
  }

  function Costs(t: seq<Event>): nat {
    if t == [] then 0 else Costs(t[..|t| - 1]) + if t[|t| - 1].kind.RunCost? then 1 else 0
  }

  /** The non-verifier nodes in the order they were started. */
  function Steps(t: seq<Event>): seq<NodeId> {
    if t == [] then []
    else
      Steps(t[..|t| - 1]) + match t[|t| - 1].kind case NodeStarted(n) => [n] case _ => []
  }

  /** The row starts a pass over, or records a verdict. */
  predicate TouchesExit(k: Kind) {
    k.BuildTestVerdict? || k == NodeStarted(Coder)
  }

  /** Which row the last verdict is read from. */
  lemma {:induction false} LastExitIsTheLast(t: seq<Event>) returns (i: nat)
    requires LastExit(t).Some?
    ensures i < |t| && t[i].kind.BuildTestVerdict? && LastExit(t) == Some(t[i].kind.exitCode)
    ensures forall j | i < j < |t| :: !TouchesExit(t[j].kind)
  {
    i := |t| - 1;
    if !t[i].kind.BuildTestVerdict? {
      i := LastExitIsTheLast(t[..|t| - 1]);
      assert forall j | 0 <= j < |t| - 1 :: t[..|t| - 1][j] == t[j];
    }
  }

  /** The last completed fan-out names whom it names. */
  lemma {:induction false} LastFalsifiedIsTheLast(t: seq<Event>, i: nat)
    requires i < |t| && t[i].kind.VerifiersCompleted? && forall j | i < j < |t| :: !t[j].kind.VerifiersCompleted?
    ensures LastFalsified(t) == t[i].kind.falsifiedBy
  {
    if i < |t| - 1 { LastFalsifiedIsTheLast(t[..|t| - 1], i); }
  }

  /** A trail with one cost row that stands last has none before. */
  lemma {:induction false} CostsAreRows(t: seq<Event>)
    ensures Costs(t) == |set i: nat | i < |t| && t[i].kind.RunCost?|
  {
    var all := set i: nat | i < |t| && t[i].kind.RunCost?;
    if t == [] {
      assert all == {};
    } else {
      var front := t[..|t| - 1];
      CostsAreRows(front);
      assert all == (set i: nat | i < |front| && front[i].kind.RunCost?)
                    + (if t[|t| - 1].kind.RunCost? then {|t| - 1} else {});
    }
  }

  /** After the gate. */
  predicate PastGate(s: Stage) {
    (s == GateOpen || s == Doing(Release) || s == Did(Release) || s == Broke(Release) || s == Effected)
  }

  /** Stages only reachable once the run has begun to close down. */
  predicate Closing(s: Stage) {
    || (s == Aborting || s == Failing || s == CleanupNoted || s == Costed)
    || ((s.Doing? || s.Did? || s.Broke?) && (s.node == Compensate || s.node == Reporter))
  }

  /** Stages of a run whose current pass was graded 0. */
  predicate PastGrading(s: Stage) {
    || s == IsolationNoted || s == Tiered || s == Verifying || s == Verified || s == OverrideNoted
    || s == PreviewNoted || s == AtGate || s == GateOpen || s == GateClosed
    || s == Doing(Release) || s == Did(Release) || s == Broke(Release) || s == Effected
  }

  /** One more row: the monitor moves from `m` to `m'` on row `k`. */
  ghost predicate Moves(r: Rules, m: Monitor, k: Kind, m': Monitor) {
    Step(r, m, k) == Some(m')
  }

  lemma WatchMoves(r: Rules, t: seq<Event>)
    requires Watch(r, t).Some? && t != []
    ensures Watch(r, t[..|t| - 1]).Some? && ControlFits(t[|t| - 1])
    ensures Moves(r, Watch(r, t[..|t| - 1]).value, t[|t| - 1].kind, Watch(r, t).value)
  {}

  lemma MoveExit(r: Rules, m: Monitor, k: Kind, m': Monitor)
    requires Moves(r, m, k, m')
    ensures m'.exit == match k case BuildTestVerdict(exit, _) => Some(exit) case NodeStarted(Coder) => None
            case _ => m.exit
    ensures m'.head == match k case BranchPushed(_, commit, _, _) => commit case _ => m.head
  {}

  /** What the monitor remembers of verdicts and pushes is what the rows say. */
  lemma {:induction false} RemembersRows(r: Rules, t: seq<Event>)
    requires Watch(r, t).Some?
    ensures Watch(r, t).value.exit == LastExit(t)
    ensures Watch(r, t).value.head == LastHead(t)
  {
    if t != [] {
      var front := t[..|t| - 1];
      WatchMoves(r, t);
      RemembersRows(r, front);
      MoveExit(r, Watch(r, front).value, t[|t| - 1].kind, Watch(r, t).value);
    }
  }

  /** Between the fan-out's completion and the end of the release. */
  predicate PastReview(s: Stage) {
    s == Verified || s == OverrideNoted || PastBlockers(s)
  }

  predicate PastBlockers(s: Stage) {
    s == PreviewNoted || s == AtGate || s == GateClosed || PastGate(s)
  }

  lemma MoveGrade(r: Rules, m: Monitor, k: Kind, m': Monitor)
    requires Moves(r, m, k, m')
    requires PastGrading(m.stage) ==> m.exit == Some(0)
    ensures PastGrading(m'.stage) ==> m'.exit == Some(0)
  {}

  /** Grading is behind every stage past it. */
  lemma {:induction false} RemembersGrade(r: Rules, t: seq<Event>)
    requires Watch(r, t).Some?
    ensures PastGrading(Watch(r, t).value.stage) ==> Watch(r, t).value.exit == Some(0)
  {
    if t != [] {
      var front := t[..|t| - 1];
      WatchMoves(r, t);
      RemembersGrade(r, front);
      MoveGrade(r, Watch(r, front).value, t[|t| - 1].kind, Watch(r, t).value);
    }
  }

  lemma MoveReview(r: Rules, m: Monitor, k: Kind, m': Monitor)
    requires Moves(r, m, k, m')
    ensures PastReview(m'.stage) ==> k.VerifiersCompleted? || PastReview(m.stage)
    ensures k.VerifiersCompleted? ==> !PastBlockers(m'.stage)
    ensures m'.falsified == if k.VerifiersCompleted? then k.falsifiedBy else m.falsified
    ensures PastBlockers(m'.stage) && !PastBlockers(m.stage) ==> NothingBlocks(r, m)
  {}

  lemma {:induction false} RemembersReview(r: Rules, t: seq<Event>)
    requires Watch(r, t).Some?
    ensures Watch(r, t).value.falsified == LastFalsified(t)
    ensures PastBlockers(Watch(r, t).value.stage) ==> NothingBlocks(r, Watch(r, t).value)
  {
    if t != [] {
      var front := t[..|t| - 1];
      WatchMoves(r, t);
      RemembersReview(r, front);
      MoveReview(r, Watch(r, front).value, t[|t| - 1].kind, Watch(r, t).value);
    }
  }

  lemma MoveRelease(r: Rules, m: Monitor, k: Kind, m': Monitor)
    requires Moves(r, m, k, m') && PastGate(m'.stage)
    ensures k.GatePassed? || PastGate(m.stage)
  {}

  lemma {:induction false} RemembersGate(r: Rules, t: seq<Event>)
    requires Watch(r, t).Some? && PastGate(Watch(r, t).value.stage)
    ensures exists i | 0 <= i < |t| :: t[i].kind.GatePassed?
  {
    var front, last := t[..|t| - 1], t[|t| - 1];
    WatchMoves(r, t);
    MoveRelease(r, Watch(r, front).value, last.kind, Watch(r, t).value);
    if !last.kind.GatePassed? {
      RemembersGate(r, front);
      var i :| 0 <= i < |front| && front[i].kind.GatePassed?;
      assert t[i].kind.GatePassed?;
    }
  }

  lemma MoveCounts(r: Rules, m: Monitor, k: Kind, m': Monitor)
    requires Moves(r, m, k, m')
    ensures k.ExternalEffect? ==> m.stage == Did(Release) && m'.stage == Effected
    ensures k.RunCost? ==> m.stage == Did(Reporter) && m'.stage == Costed
    ensures (m.stage == Effected || Closing(m.stage)) ==> m'.stage == m.stage || Closing(m'.stage)
    ensures m.stage == Costed ==> m'.stage == Costed
    ensures m'.stage == Costed ==> m.stage == Costed || k.RunCost?
  {}

  lemma {:induction false} RemembersCounts(r: Rules, t: seq<Event>)
    requires Watch(r, t).Some?
    ensures Effects(t) <= 1
    ensures Effects(t) == 1 ==> Watch(r, t).value.stage == Effected || Closing(Watch(r, t).value.stage)
    ensures Costs(t) == if Watch(r, t).value.stage == Costed then 1 else 0
  {
    if t != [] {
      var front := t[..|t| - 1];
      WatchMoves(r, t);
      RemembersCounts(r, front);
      MoveCounts(r, Watch(r, front).value, t[|t| - 1].kind, Watch(r, t).value);
    }
  }

  // ---------------------------------------------------------------- release safety

  lemma {:induction false} WatchPrefix(r: Rules, t: seq<Event>, i: nat)
    requires Watch(r, t).Some? && i <= |t|
    ensures Watch(r, t[..i]).Some?
  {
    if i < |t| {
      WatchPrefix(r, t[..|t| - 1], i);
      assert t[..|t| - 1][..i] == t[..i];
    } else {
      assert t[..i] == t;
    }
  }

  lemma StepAt(r: Rules, t: seq<Event>, i: nat)
    requires Watch(r, t).Some? && i < |t|
    ensures Watch(r, t[..i]).Some? && ControlFits(t[i])
    ensures Step(r, Watch(r, t[..i]).value, t[i].kind).Some?
    ensures Watch(r, t[..i + 1]) == Step(r, Watch(r, t[..i]).value, t[i].kind)
  {
    WatchPrefix(r, t, i);
    WatchPrefix(r, t, i + 1);
    assert t[..i + 1][..i] == t[..i];
  }

  lemma MoveEffect(r: Rules, m: Monitor, k: Kind, m': Monitor)
    requires Moves(r, m, k, m') && k.ExternalEffect?
    ensures PastGate(m.stage) && PastGrading(m.stage) && PastBlockers(m.stage)
  {}

  /**
   Release safety. A row that claims control is the record of a merge and there is at most one. When
   it was written the last verdict recorded in that pass was exit code 0, no verifier the rules let
   block had been named, and the gate had been recorded as passed.
   */
  lemma ReleaseIsSafe(r: Rules, t: seq<Event>, i: nat)
    requires Watch(r, t).Some? && i < |t| && t[i].control.Some?
    ensures t[i].kind.ExternalEffect? && t[i].control == Some(Authorized)
    ensures forall j | 0 <= j < |t| :: t[j].control.Some? ==> j == i
    ensures LastExit(t[..i]) == Some(0)
    ensures forall v | v in LastFalsified(t[..i]) :: v !in r.blocking
    ensures exists j | 0 <= j < i :: t[j].kind.GatePassed?
  {
    StepAt(r, t, i);
    var front := t[..i];
    var m := Watch(r, front).value;
    MoveEffect(r, m, t[i].kind, Watch(r, t[..i + 1]).value);
    RemembersRows(r, front);
    RemembersGrade(r, front);
    RemembersReview(r, front);
    RemembersGate(r, front);
    OnlyOneEffect(r, t, i);
    var g :| 0 <= g < |front| && front[g].kind.GatePassed?;
    assert t[g].kind.GatePassed?;
  }

  /** The tier the run settled on last. */
  function LastTier(t: seq<Event>): Option<Tier> {
    if t == [] then None
    else
      match t[|t| - 1].kind
      case RiskTierFinal(tier, _, _, _) => Some(tier)
      case _ => LastTier(t[..|t| - 1])
  }

  lemma MoveTier(r: Rules, m: Monitor, k: Kind, m': Monitor)
    requires Moves(r, m, k, m')
    ensures m'.tier == if k.RiskTierFinal? then Some(k.tier) else m.tier
    ensures m'.stage == GateClosed ==> k == GateRejected || m.stage == GateClosed
  {}

  lemma {:induction false} RemembersTier(r: Rules, t: seq<Event>)
    requires Watch(r, t).Some?
    ensures Watch(r, t).value.tier == LastTier(t)
    ensures Watch(r, t).value.stage == GateClosed ==> exists i | 0 <= i < |t| :: t[i].kind == GateRejected
  {
    if t != [] {
      var front := t[..|t| - 1];
      WatchMoves(r, t);
      RemembersTier(r, front);
      MoveTier(r, Watch(r, front).value, t[|t| - 1].kind, Watch(r, t).value);
      if i :| 0 <= i < |front| && front[i].kind == GateRejected { assert t[i].kind == GateRejected; }
    }
  }

  /** What a row may say, given the rows before it. */
  ghost predicate Agrees(r: Rules, before: seq<Event>, k: Kind) {
    match k
    case BranchPushed(_, _, _, attempt) => attempt + 1 == Passes(Steps(before))
    case VerifierOverridden(names) =>
      names != [] && forall v :: v in names <==> v in LastFalsified(before) && v !in r.blocking
    case PreviewPublished(_, shown) => LastHead(before) == Some(shown)
    case GateReached(tier, needed) =>
      && LastTier(before) == Some(tier)
      && needed == (match tier case Low => 0 case Medium => 1 case High => 2)
      && (forall v | v in LastFalsified(before) :: v !in r.blocking)
    case AbortingRun(_, names) =>
      if names == [] then
        || (Passes(Steps(before)) == r.maxPasses && LastExit(before) != Some(0))
        || (exists i | 0 <= i < |before| :: before[i].kind == GateRejected)
      else forall v :: v in names <==> v in LastFalsified(before) && v in r.blocking
    case _ => true
  }

  lemma {:induction false} MoveAgrees(r: Rules, m: Monitor, k: Kind, m': Monitor, before: seq<Event>)
    requires Moves(r, m, k, m')
    requires m.passes == Passes(Steps(before)) && m.tier == LastTier(before)
    requires m.exit == LastExit(before) && m.head == LastHead(before) && m.falsified == LastFalsified(before)
    requires PastBlockers(m.stage) ==> NothingBlocks(r, m)
    requires m.stage == GateClosed ==> exists i | 0 <= i < |before| :: before[i].kind == GateRejected
    ensures Agrees(r, before, k)
  {
    if NothingBlocks(r, m) { NobodyBlocks(r, m); }
  }

  lemma NobodyBlocks(r: Rules, m: Monitor)
    requires NothingBlocks(r, m)
    ensures forall v | v in m.falsified :: v !in r.blocking
  {
    forall v | v in m.falsified ensures v !in r.blocking {
      assert v in r.blocking ==> v in Among(m.falsified, r.blocking, true);
    }
  }

  /**
   Rows agree with the rows before them: a push row with the pass it belongs to, a preview with the commit
   pushed last, the gate with the final tier and its depth, an overriding with the advisory objections. A
   run is aborted over the blocking verifiers named last, or over nobody when the budget is spent without
   a green verdict or an approver rejected.
   */
  lemma RowsAgree(r: Rules, t: seq<Event>, i: nat)
    requires Watch(r, t).Some? && i < |t|
    ensures Agrees(r, t[..i], t[i].kind)
  {
    StepAt(r, t, i);
    var before := t[..i];
    RemembersRows(r, before);
    RemembersReview(r, before);
    RemembersTier(r, before);
    NodesFollowTheFlow(r, before);
    MoveAgrees(r, Watch(r, before).value, t[i].kind, Watch(r, t[..i + 1]).value, before);
  }

  lemma OnlyOneEffect(r: Rules, t: seq<Event>, i: nat)
    requires Watch(r, t).Some? && i < |t| && t[i].kind.ExternalEffect?
    ensures forall j | 0 <= j < |t| :: t[j].control.Some? ==> j == i
  {
    RemembersCounts(r, t);
    forall j | 0 <= j < |t| && t[j].control.Some? ensures j == i {
      StepAt(r, t, j);
      if j < i { TwoEffects(t, j, i); }
      if i < j { TwoEffects(t, i, j); }
    }
  }

  lemma {:induction false} EffectsGrow(t: seq<Event>, i: nat)
    requires i <= |t|
    ensures Effects(t[..i]) <= Effects(t)
  {
    if i < |t| {
      EffectsGrow(t[..|t| - 1], i);
      assert t[..|t| - 1][..i] == t[..i];
    } else {
      assert t[..i] == t;
    }
  }

  lemma TwoEffects(t: seq<Event>, i: nat, j: nat)
    requires i < j < |t| && t[i].kind.ExternalEffect? && t[j].kind.ExternalEffect?
    ensures Effects(t) >= 2
  {
    assert t[..i + 1][..i] == t[..i];
    EffectsGrow(t[..j], i + 1);
    assert t[..j][..i + 1] == t[..i + 1];
    assert t[..j + 1][..j] == t[..j];
    EffectsGrow(t, j + 1);
  }

  // ---------------------------------------------------------------- the order of nodes

  /** The arrows of the flow: which node may be started after which. */
  predicate Arrow(n: NodeId, next: NodeId) {
    match next
    case Triage => false
    case Planner => n == Triage
    case Coder => n == Planner || n == BuildTest
    case Push => n == Coder
    case BuildTest => n == Push
    case Check(_) => false
    case Release => n == BuildTest
    case Compensate => n == Triage || n == Planner || n == Coder || n == Push || n == BuildTest || n == Release
    case Reporter => n == Release || n == Compensate
  }

  /** The nodes of a run, in the order they were started, follow the arrows from triage. */
  predicate IsFlowPath(s: seq<NodeId>) {
    && (s != [] ==> s[0] == Triage)
    && forall i | 0 < i < |s| :: Arrow(s[i - 1], s[i])
  }

  function Passes(s: seq<NodeId>): nat {
    if s == [] then 0 else Passes(s[..|s| - 1]) + if s[|s| - 1] == Coder then 1 else 0
  }

  /** The node that was started last, as far as the stage tells. */
  predicate StageFits(s: Stage, last: Option<NodeId>) {
    match s
    case Unstarted => last == None
    case Doing(n) => last == Some(n)
    case Did(n) => last == Some(n)
    case Broke(n) => last == Some(n)
    case Pushed => last == Some(Push)
    case Effected => last == Some(Release)
    case Aborting => last == Some(BuildTest) || last == Some(Planner)
    case Failing => last.Some? && Arrow(last.value, Compensate)
    case CleanupNoted => last == Some(Compensate)
    case Costed => last == Some(Reporter)
    case _ => last == Some(BuildTest)
  }

  function Last(s: seq<NodeId>): Option<NodeId> {
    if s == [] then None else Some(s[|s| - 1])
  }

  lemma MoveNode(r: Rules, m: Monitor, k: Kind, m': Monitor, last: Option<NodeId>)
    requires Moves(r, m, k, m') && StageFits(m.stage, last) && m.passes <= r.maxPasses
    ensures k.NodeStarted? ==> if last.Some? then Arrow(last.value, k.node) else k.node == Triage
    ensures StageFits(m'.stage, if k.NodeStarted? then Some(k.node) else last)
    ensures m'.passes == m.passes + (if k == NodeStarted(Coder) then 1 else 0) <= r.maxPasses
  {}

  /** The nodes follow the arrows, and the cycle is entered at most as often as the budget allows. */
  lemma {:induction false} NodesFollowTheFlow(r: Rules, t: seq<Event>)
    requires Watch(r, t).Some?
    ensures IsFlowPath(Steps(t))
    ensures Passes(Steps(t)) == Watch(r, t).value.passes <= r.maxPasses
    ensures StageFits(Watch(r, t).value.stage, Last(Steps(t)))
  {
    if t != [] {
      var front, last := t[..|t| - 1], t[|t| - 1];
      WatchMoves(r, t);
      NodesFollowTheFlow(r, front);
      MoveNode(r, Watch(r, front).value, last.kind, Watch(r, t).value, Last(Steps(front)));
      if last.kind.NodeStarted? {
        assert Steps(t) == Steps(front) + [last.kind.node];
        assert Steps(t)[..|Steps(t)| - 1] == Steps(front);
      } else {
        assert Steps(t) == Steps(front);
      }
    }
  }

  predicate Ends(k: Kind, n: NodeId) {
    (k.NodeCompleted? && k.node == n) || k == NodeFailed(n)
  }

  /** A verifier's failure, which an interrupted fan-out may record anywhere after the interruption. */
  predicate IsStray(k: Kind) {
    k.NodeFailed? && k.node.Check?
  }

  lemma MoveInNode(r: Rules, m: Monitor, k: Kind, m': Monitor, n: NodeId)
    requires Moves(r, m, k, m') && m.stage == Doing(n) && !n.Check?
    ensures IsStray(k) || Ends(k, n)
    ensures IsStray(k) ==> m'.stage == Doing(n)
  {}

  lemma MoveIntoNode(r: Rules, m: Monitor, k: Kind, m': Monitor)
    requires Moves(r, m, k, m') && k.NodeStarted?
    ensures m'.stage == Doing(k.node) && !k.node.Check?
  {}

  /**
   A node that was started is completed or failed before anything else is recorded, except that a
   verifier still running from an interrupted fan-out may record its own failure in between.
   */
  lemma {:induction false} NodesDoNotOverlap(r: Rules, t: seq<Event>, i: nat, j: nat) returns (e: nat)
    requires Watch(r, t).Some? && i < j < |t| && t[i].kind.NodeStarted? && !IsStray(t[j].kind)
    ensures i < e <= j && Ends(t[e].kind, t[i].kind.node)
    ensures forall x | i < x < e :: IsStray(t[x].kind)
  {
    var n := t[i].kind.node;
    StepAt(r, t, i);
    MoveIntoNode(r, Watch(r, t[..i]).value, t[i].kind, Watch(r, t[..i + 1]).value);
    e := FirstOwn(t, i + 1, j);
    StaysInNode(r, t, i + 1, e, n);
    InNodeAt(r, t, e, n);
  }

  /** The first `i` rows leave the monitor inside the node. */
  predicate InNode(r: Rules, t: seq<Event>, i: nat, n: NodeId)
    requires i <= |t|
  {
    var m := Watch(r, t[..i]);
    m.Some? && m.value.stage == Doing(n)
  }

  lemma InNodeAt(r: Rules, t: seq<Event>, i: nat, n: NodeId)
    requires Watch(r, t).Some? && i < |t| && !n.Check? && InNode(r, t, i, n)
    ensures IsStray(t[i].kind) || Ends(t[i].kind, n)
    ensures IsStray(t[i].kind) ==> InNode(r, t, i + 1, n)
  {
    StepAt(r, t, i);
    MoveInNode(r, Watch(r, t[..i]).value, t[i].kind, Watch(r, t[..i + 1]).value, n);
  }

  /** Strays do not move the monitor out of a node. */
  lemma {:induction false} StaysInNode(r: Rules, t: seq<Event>, i: nat, e: nat, n: NodeId)
    requires Watch(r, t).Some? && i <= e <= |t| && !n.Check? && InNode(r, t, i, n)
    requires forall x | i <= x < e :: IsStray(t[x].kind)
    ensures InNode(r, t, e, n)
    decreases e - i
  {
    if i < e {
      InNodeAt(r, t, i, n);
      StaysInNode(r, t, i + 1, e, n);
    }
  }

  function FirstOwn(t: seq<Event>, i: nat, j: nat): (e: nat)
    requires i <= j < |t| && !IsStray(t[j].kind)
    ensures i <= e <= j && !IsStray(t[e].kind)
    ensures forall x | i <= x < e :: IsStray(t[x].kind)
    decreases j - i
  {
    if IsStray(t[i].kind) then FirstOwn(t, i + 1, j) else i
  }

  /** Coder, push and build-and-test, `k` times over. */
  function Cycle(k: nat): seq<NodeId> {
    if k == 0 then [] else Cycle(k - 1) + [Coder, Push, BuildTest]
  }

  /** Triage, planner and `k` whole passes. */
  function WholePasses(k: nat): seq<NodeId> {
    [Triage, Planner] + Cycle(k)
  }

  lemma OnePassMore(k: nat)
    ensures WholePasses(k) + [Coder] + [Push] + [BuildTest] == WholePasses(k + 1)
  {
    assert Cycle(k + 1) == Cycle(k) + [Coder, Push, BuildTest];
  }

  /** Up to a release, a run is triage, planner and whole passes of the cycle, the last perhaps not finished. */
  lemma {:induction false} CompletePasses(s: seq<NodeId>)
    requires IsFlowPath(s) && s != []
    ensures var n, k := s[|s| - 1], Passes(s);
            && (n == Coder ==> k > 0 && s == WholePasses(k - 1) + [Coder])
            && (n == Push ==> k > 0 && s == WholePasses(k - 1) + [Coder] + [Push])
            && (n == BuildTest ==> k > 0 && s == WholePasses(k))
            && (n == Planner ==> k == 0 && s == WholePasses(0))
            && (n == Triage ==> k == 0 && s == [Triage])
  {
    var front, n := s[..|s| - 1], s[|s| - 1];
    assert s == front + [n];
    if front != [] {
      assert Arrow(front[|front| - 1], n);
      CompletePasses(front);
      if n == BuildTest { OnePassMore(Passes(front) - 1); }
      if n == Planner { assert front + [Planner] == WholePasses(0); }
    }
  }

  lemma MoveFailure(r: Rules, m: Monitor, k: Kind, m': Monitor)
    requires Moves(r, m, k, m')
    ensures m'.failed <==> m.failed || k.RunFailed?
    ensures m'.aborted <==> m.aborted || k.AbortingRun?
    ensures m'.stage == Failing ==> k.RunFailed? || m.stage == Failing
  {}

  /** The monitor knows of a failure, and of an abort, exactly when a row records one. */
  lemma {:induction false} RemembersFailure(r: Rules, t: seq<Event>)
    requires Watch(r, t).Some?
    ensures Watch(r, t).value.failed <==> exists i | 0 <= i < |t| :: t[i].kind.RunFailed?
    ensures Watch(r, t).value.aborted <==> exists i | 0 <= i < |t| :: t[i].kind.AbortingRun?
    ensures Watch(r, t).value.stage == Failing ==> Watch(r, t).value.failed
  {
    if t != [] {
      WatchMoves(r, t);
      RemembersFailure(r, t[..|t| - 1]);
      MoveFailure(r, Watch(r, t[..|t| - 1]).value, t[|t| - 1].kind, Watch(r, t).value);
      assert forall i | 0 <= i < |t| - 1 :: t[..|t| - 1][i] == t[i];
    }
  }

  lemma MoveAbort(r: Rules, m: Monitor, k: Kind, m': Monitor)
    requires Moves(r, m, k, m') && (m.aborted ==> Closing(m.stage))
    ensures m'.aborted ==> Closing(m'.stage)
  {}

  /** A run that records an abort is being closed from then on. */
  lemma {:induction false} AbortIsClosing(r: Rules, t: seq<Event>)
    requires Watch(r, t).Some?
    ensures Watch(r, t).value.aborted ==> Closing(Watch(r, t).value.stage)
  {
    if t != [] {
      WatchMoves(r, t);
      AbortIsClosing(r, t[..|t| - 1]);
      MoveAbort(r, Watch(r, t[..|t| - 1]).value, t[|t| - 1].kind, Watch(r, t).value);
    }
  }

  /** A released run did whole passes of the cycle, at least one of them and none after the release. */
  lemma ReleasedRunShape(r: Rules, t: seq<Event>, i: nat)
    requires Watch(r, t).Some? && i < |t| && t[i].kind == NodeStarted(Release)
    ensures exists k :: 1 <= k <= r.maxPasses && Steps(t[..i]) == WholePasses(k)
  {
    StepAt(r, t, i);
    var front := t[..i];
    NodesFollowTheFlow(r, front);
    CompletePasses(Steps(front));
    assert 1 <= Passes(Steps(front)) <= r.maxPasses;
  }

  /** How the steps of a run end that was closed without having failed: after a compensation, or after a release. */
  predicate Ended(steps: seq<NodeId>, k: nat, aborted: bool) {
    if aborted then steps == WholePasses(k) + [Compensate] + [Reporter]
    else k > 0 && steps == WholePasses(k) + [Release] + [Reporter]
  }

  /** The steps so far of a run that has not failed, as the stage tells them, after `k` passes. */
  predicate Shaped(s: Stage, steps: seq<NodeId>, k: nat, aborted: bool) {
    match s
    case Aborting => aborted && steps == WholePasses(k)
    case Effected => !aborted && k > 0 && steps == WholePasses(k) + [Release]
    case CleanupNoted => aborted && steps == WholePasses(k) + [Compensate]
    case Costed => Ended(steps, k, aborted)
    case Doing(n) => ShapedAt(n, steps, k, aborted)
    case Did(n) => ShapedAt(n, steps, k, aborted)
    case Broke(n) => ShapedAt(n, steps, k, aborted)
    case Failing => true
    case _ => !aborted
  }

  predicate ShapedAt(n: NodeId, steps: seq<NodeId>, k: nat, aborted: bool) {
    match n
    case Release => !aborted && k > 0 && steps == WholePasses(k) + [Release]
    case Compensate => aborted && steps == WholePasses(k) + [Compensate]
    case Reporter => Ended(steps, k, aborted)
    case _ => !aborted
  }

  /** A row that starts no node keeps the steps, and moves to a stage that tells the same of them. */
  lemma MoveKeepsShape(r: Rules, m: Monitor, k: Kind, m': Monitor, steps: seq<NodeId>, passes: nat)
    requires Moves(r, m, k, m') && !m'.failed && !k.NodeStarted? && Shaped(m.stage, steps, passes, m.aborted)
    requires k.AbortingRun? ==> steps == WholePasses(passes)
    ensures Shaped(m'.stage, steps, passes, m'.aborted)
  {}

  /** A node is started where its arrow leads from. */
  lemma MoveToShape(r: Rules, m: Monitor, n: NodeId, m': Monitor, steps: seq<NodeId>, passes: nat)
    requires Moves(r, m, NodeStarted(n), m') && !m.failed && Shaped(m.stage, steps, passes, m.aborted)
    requires m.stage == Failing ==> m.failed
    requires n == Release ==> passes > 0 && steps == WholePasses(passes)
    ensures Shaped(m'.stage, steps + [n], if n == Coder then passes + 1 else passes, m'.aborted)
  {}

  /** Any row keeps the shape. */
  lemma MoveShapes(r: Rules, m: Monitor, k: Kind, m': Monitor, before: seq<NodeId>)
    requires Moves(r, m, k, m') && !m'.failed && Shaped(m.stage, before, Passes(before), m.aborted)
    requires IsFlowPath(before) && StageFits(m.stage, Last(before)) && (m.stage == Failing ==> m.failed)
    ensures var now := before + if k.NodeStarted? then [k.node] else [];
            Shaped(m'.stage, now, Passes(now), m'.aborted)
  {
    WholeSoFar(m.stage, before);
    MoveFailure(r, m, k, m');
    if k.NodeStarted? {
      assert (before + [k.node])[..|before|] == before;
      MoveToShape(r, m, k.node, m', before, Passes(before));
    } else {
      assert before + [] == before;
      MoveKeepsShape(r, m, k, m', before, Passes(before));
    }
  }

  lemma {:induction false} StepsAreShaped(r: Rules, t: seq<Event>)
    requires Watch(r, t).Some? && !Watch(r, t).value.failed
    ensures Shaped(Watch(r, t).value.stage, Steps(t), Passes(Steps(t)), Watch(r, t).value.aborted)
  {
    if t != [] {
      var front, last := t[..|t| - 1], t[|t| - 1];
      WatchMoves(r, t);
      MoveFailure(r, Watch(r, front).value, last.kind, Watch(r, t).value);
      StepsAreShaped(r, front);
      NodesFollowTheFlow(r, front);
      RemembersFailure(r, front);
      MoveShapes(r, Watch(r, front).value, last.kind, Watch(r, t).value, Steps(front));
    }
  }

  /** Before a release and before an abort lie whole passes. */
  lemma WholeSoFar(s: Stage, steps: seq<NodeId>)
    requires IsFlowPath(steps) && StageFits(s, Last(steps))
    ensures s == GateOpen ==> Passes(steps) > 0 && steps == WholePasses(Passes(steps))
    ensures s == Did(BuildTest) || s == GradedPass || s == GateClosed || s == Verified || s == OverrideNoted ==>
              Passes(steps) > 0 && steps == WholePasses(Passes(steps))
    ensures s == Did(Planner) ==> steps == WholePasses(Passes(steps))
  {
    if steps != [] { CompletePasses(steps); }
  }

  /**
   A run that was closed without having failed is triage, planner, whole passes of the cycle within the
   budget, then a compensation if the trail records an abort and a release otherwise, and the reporter.
   */
  lemma ClosedRunShape(r: Rules, t: seq<Event>)
    requires Watch(r, t).Some? && Watch(r, t).value.stage == Costed && !Watch(r, t).value.failed
    ensures Passes(Steps(t)) <= r.maxPasses && Ended(Steps(t), Passes(Steps(t)), Watch(r, t).value.aborted)
  {
    StepsAreShaped(r, t);
    NodesFollowTheFlow(r, t);
  }
}
