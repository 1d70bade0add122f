/**
 The delivery run (`engine/flows/delivery.py`). `FlowState` is a mutable object there, and `_latest`
 usually is the very object the flow goes on to change, so states are boxed and the aliasing is kept.

 Whatever the flow awaits is the environment's move: `perform` answers node activities and `judge`
 answers verifiers, both arbitrary functions within what the nodes' code guarantees; signals, merge
 policies, platform replies and the order in which verifiers finish are chosen arbitrarily.
 */
module Delivery {
  import opened Options
  import opened Policy
  import opened FlowModel
  import opened AuditTrail

  class StateObject {
    var v: FlowState

    constructor (s: FlowState)
      ensures v == s
    {
      v := s;
    }
  }

  /** How a stretch of the flow ends: normally, by `_Rejected`, by another exception, or not at all. */
  datatype Outcome =
    | Going(state: StateObject)
    | Refused(reason: string, falsifiedBy: seq<Verifier>)
    | Raised
    | Waiting

  /** How the wait at the gate ends; a decision need not ever come. */
  datatype GateWait = DecisionCame | NoticeFailed | StillSuspended

  /** One entry of the activity history: the id `node#number`, what went in and what came back. */
  datatype Activity = Activity(node: NodeId, number: nat, input: FlowState, output: Option<FlowState>)

  // ---------------------------------------------------------------- reading the history

  /** The state the last successful push returned. */
  function LastPush(h: seq<Activity>): Option<FlowState> {
    if h == [] then None
    else if h[|h| - 1].node == Push && h[|h| - 1].output.Some? then h[|h| - 1].output
    else LastPush(h[..|h| - 1])
  }

  function Pushes(h: seq<Activity>): nat {
    if h == [] then 0
    else Pushes(h[..|h| - 1]) + if h[|h| - 1].node == Push && h[|h| - 1].output.Some? then 1 else 0
  }

  /** The state names the branch and the commit of the last push, or nothing was pushed. */
  ghost predicate Carries(h: seq<Activity>, s: FlowState) {
    LastPush(h).Some? ==>
      s.branch == LastPush(h).value.branch && s.headCommit == LastPush(h).value.headCommit
  }

  /** The commit of the merge that the activity made, if it is a release that made one. */
  function MergeOf(a: Activity): Option<string> {
    if a.node == Release && a.output.Some? && a.output.value.mergedCommit != a.input.mergedCommit then
      a.output.value.mergedCommit
    else None
  }

  ghost predicate MergedAt(h: seq<Activity>, i: nat, commit: string)
    requires i < |h|
  {
    MergeOf(h[i]) == Some(commit)
  }

  ghost predicate Merged(h: seq<Activity>, commit: string) {
    exists i | 0 <= i < |h| :: MergedAt(h, i, commit)
  }

  lemma MergedGrows(h: seq<Activity>, more: seq<Activity>)
    ensures forall c | Merged(h, c) :: Merged(h + more, c)
  {
    forall c | Merged(h, c) ensures Merged(h + more, c) {
      var i :| 0 <= i < |h| && MergedAt(h, i, c);
      assert MergedAt(h + more, i, c);
    }
  }

  /** A row that claims control is about a merge that a release made. */
  ghost predicate ClaimedAt(t: seq<Event>, i: nat, h: seq<Activity>)
    requires i < |t|
  {
    t[i].kind.ExternalEffect? ==> t[i].kind.merged != "" && Merged(h, t[i].kind.merged)
  }

  ghost predicate AllClaimed(t: seq<Event>, h: seq<Activity>) {
    forall i | 0 <= i < |t| :: ClaimedAt(t, i, h)
  }

  lemma ClaimsGrow(t: seq<Event>, h: seq<Activity>, more: seq<Activity>)
    requires AllClaimed(t, h)
    ensures AllClaimed(t, h + more)
  {
    MergedGrows(h, more);
    forall i | 0 <= i < |t| ensures ClaimedAt(t, i, h + more) { assert ClaimedAt(t, i, h); }
  }

  lemma ClaimsMore(t: seq<Event>, e: Event, h: seq<Activity>)
    requires AllClaimed(t, h) && (e.kind.ExternalEffect? ==> e.kind.merged != "" && Merged(h, e.kind.merged))
    ensures AllClaimed(t + [e], h)
  {
    forall i | 0 <= i < |t + [e]| ensures ClaimedAt(t + [e], i, h) {
      if i < |t| { assert ClaimedAt(t, i, h); }
    }
  }

  predicate IsRowFor(t: seq<Event>, i: nat, commit: string)
    requires i < |t|
  {
    t[i].kind.ExternalEffect? && t[i].kind.merged == commit
  }

  ghost predicate HasRow(t: seq<Event>, commit: string) {
    exists i | 0 <= i < |t| :: IsRowFor(t, i, commit)
  }

  /** A merge that named its commit has its row, or is the one whose row is still owed. */
  ghost predicate RowedAt(t: seq<Event>, h: seq<Activity>, i: nat, owed: Option<string>)
    requires i < |h|
  {
    Truthy(MergeOf(h[i])) ==> HasRow(t, MergeOf(h[i]).value) || owed == MergeOf(h[i])
  }

  ghost predicate AllRowed(t: seq<Event>, h: seq<Activity>, owed: Option<string>) {
    forall i | 0 <= i < |h| :: RowedAt(t, h, i, owed)
  }

  /** A row settles what it is about; other rows leave what is owed. */
  lemma RowsSettle(t: seq<Event>, e: Event, h: seq<Activity>, owed: Option<string>)
    requires AllRowed(t, h, owed)
    requires e.kind.ExternalEffect? ==> owed == None || owed == Some(e.kind.merged)
    ensures AllRowed(t + [e], h, if e.kind.ExternalEffect? then None else owed)
  {
    var more, left := t + [e], if e.kind.ExternalEffect? then None else owed;
    forall i | 0 <= i < |h| ensures RowedAt(more, h, i, left) {
      assert RowedAt(t, h, i, owed);
      if Truthy(MergeOf(h[i])) {
        var c := MergeOf(h[i]).value;
        if HasRow(t, c) {
          var j :| 0 <= j < |t| && IsRowFor(t, j, c);
          assert IsRowFor(more, j, c);
        } else if e.kind.ExternalEffect? {
          assert IsRowFor(more, |t|, c);
        }
      }
    }
  }

  /** A new merge is owed its row. */
  lemma MergeIsOwed(t: seq<Event>, h: seq<Activity>, a: Activity, owed: Option<string>)
    requires AllRowed(t, h, owed) && (Truthy(MergeOf(a)) ==> owed == None)
    ensures AllRowed(t, h + [a], if Truthy(MergeOf(a)) then MergeOf(a) else owed)
  {
    var now := if Truthy(MergeOf(a)) then MergeOf(a) else owed;
    forall i | 0 <= i < |h + [a]| ensures RowedAt(t, h + [a], i, now) {
      if i < |h| { assert RowedAt(t, h, i, owed); }
    }
  }

  lemma NothingMoreOwed(t: seq<Event>, h: seq<Activity>, more: seq<Activity>, owed: Option<string>)
    requires AllRowed(t, h, owed) && forall i | 0 <= i < |more| :: MergeOf(more[i]) == None
    ensures AllRowed(t, h + more, owed)
  {
    forall i | 0 <= i < |h + more| ensures RowedAt(t, h + more, i, owed) {
      if i < |h| { assert RowedAt(t, h, i, owed); }
    }
  }

  /** Between a release's start and the row that may follow it. */
  predicate Releasing(s: Stage) {
    s == Doing(Release) || s == Did(Release)
  }

  /** The flow's own state: it carries the last push, no commit before the first one, and a merge that happened. */
  ghost predicate InHand(h: seq<Activity>, s: FlowState) {
    && Carries(h, s)
    && (s.mergedCommit.Some? ==> Merged(h, s.mergedCommit.value))
    && (if LastPush(h).Some? then Truthy(s.branch) && Truthy(s.headCommit) else s.headCommit == None)
  }

  /** A state before anything was pushed or merged. */
  predicate Untouched(s: FlowState) {
    s.headCommit == None && s.mergedCommit == None
  }

  /** A tier that needs approvals has them, and none of the recorded decisions is a rejection. */
  ghost predicate Approved(s: FlowState) {
    RequiredApprovals(s.tier) > 0 ==>
      Approving(s.approvals) >= RequiredApprovals(s.tier) && !Rejecting(s.approvals)
  }

  ghost predicate Unblocked(s: FlowState, blocking: set<Verifier>) {
    forall x | x in s.verifications :: x.passed || x.verifier !in blocking
  }

  /** What the flow promises about the state it hands to a node, given what happened before. */
  ghost predicate WellCalled(h: seq<Activity>, a: Activity, blocking: set<Verifier>) {
    match a.node
    case Push =>
      // The n-th push is attempt n, parented on what the one before it returned.
      && a.input.pushAttempt == Pushes(h)
      && InHand(h, a.input)
    case Release =>
      && LastPush(h).Some?
      && InHand(h, a.input)
      && a.input.ciResult.Some? && a.input.ciResult.value.exitCode == 0
      && Unblocked(a.input, blocking)
      && Approved(a.input)
    case Compensate => Carries(h, a.input)
    case Check(_) => IsBrief(a.input)
    case _ => true
  }

  /** Nothing is in the state that a brief would leave out. */
  predicate IsBrief(s: FlowState) {
    s == Brief(s)
  }

  ghost predicate WellCalledAt(h: seq<Activity>, i: nat, blocking: set<Verifier>)
    requires i < |h|
  {
    WellCalled(h[..i], h[i], blocking)
  }

  ghost predicate AllWellCalled(h: seq<Activity>, blocking: set<Verifier>) {
    forall i | 0 <= i < |h| :: WellCalledAt(h, i, blocking)
  }

  /** Ids do not decrease, and equal numbers belong to different verifiers. */
  ghost predicate Ordered(a: Activity, b: Activity) {
    && a.number <= b.number
    && (a.number == b.number ==> a.node.Check? && b.node.Check? && a.node != b.node)
  }

  ghost predicate OrderedAt(h: seq<Activity>, i: nat, j: nat)
    requires i < j < |h|
  {
    Ordered(h[i], h[j])
  }

  ghost predicate DistinctIds(h: seq<Activity>) {
    forall i, j | 0 <= i < j < |h| :: OrderedAt(h, i, j)
  }

  ghost predicate NumberedUpTo(h: seq<Activity>, i: nat, number: nat)
    requires i < |h|
  {
    h[i].number <= number
  }

  ghost predicate AllUpTo(h: seq<Activity>, number: nat) {
    forall i | 0 <= i < |h| :: NumberedUpTo(h, i, number)
  }

  /** A request sent to the platform is one the node's input calls for. */
  ghost predicate CalledFor(n: NodeId, s: FlowState, e: Effect) {
    match e
    case Opened(source, target) => n == Release && s.branch == Some(source) && s.baseBranch == Some(target)
    case MergeAsked(head, p, judged) => n == Release && judged == s && s.headCommit == Some(head) && MayMerge(p, s)
    case DeletionAsked(branch) => n == Compensate && Deletes(s) && s.branch == Some(branch)
  }

  ghost predicate Justified(h: seq<Activity>, e: Effect) {
    exists i | 0 <= i < |h| :: CalledFor(h[i].node, h[i].input, e)
  }

  ghost predicate AllJustified(h: seq<Activity>, es: seq<Effect>) {
    forall e | e in es :: Justified(h, e)
  }

  /** A merge of the state's head was asked for, and every clause of the policy that was read holds of the state. */
  ghost predicate AskedToMerge(s: FlowState, es: seq<Effect>) {
    exists e | e in es :: e.MergeAsked? && e.state == s && s.headCommit == Some(e.head) && MayMerge(e.policy, s)
  }

  /** A compensation that returned asked for the branch whenever it should have, and a release that merged asked to. */
  ghost predicate Acted(a: Activity, es: seq<Effect>) {
    && (a.node == Compensate && a.output.Some? && Deletes(a.input) ==> DeletionAsked(a.input.branch.value) in es)
    && (MergeOf(a).Some? ==> AskedToMerge(a.input, es))
  }

  lemma ActedGrows(a: Activity, before: seq<Effect>, es: seq<Effect>, after: seq<Effect>)
    requires Acted(a, es)
    ensures Acted(a, before + es + after)
  {
    if MergeOf(a).Some? {
      var e :| e in es && e.MergeAsked? && e.state == a.input && a.input.headCommit == Some(e.head)
        && MayMerge(e.policy, a.input);
      assert e in before + es + after;
    }
  }

  ghost predicate ActedAt(h: seq<Activity>, i: nat, es: seq<Effect>)
    requires i < |h|
  {
    Acted(h[i], es)
  }

  ghost predicate AllActed(h: seq<Activity>, es: seq<Effect>) {
    forall i | 0 <= i < |h| :: ActedAt(h, i, es)
  }

  /** What holds of the history at any point of a run. */
  ghost predicate GoodHistory(h: seq<Activity>, es: seq<Effect>, number: nat, blocking: set<Verifier>) {
    && AllWellCalled(h, blocking)
    && DistinctIds(h)
    && AllUpTo(h, number)
    && AllJustified(h, es)
    && AllActed(h, es)
  }

  /** A compensation that is given what was pushed last. */
  ghost predicate Compensates(h: seq<Activity>, a: Activity) {
    a.node == Compensate && Carries(h, a.input)
  }

  /** A run is closed down by a compensation and, if that returns, by the reporter; if that returns, by the cost row. */
  ghost predicate Closes(h: seq<Activity>, closing: seq<Activity>, end: Stage) {
    && closing != [] && Compensates(h, closing[0])
    && |closing| == (if closing[0].output.Some? then 2 else 1)
    && (|closing| == 2 ==> closing[1].node == Reporter && (closing[1].output.Some? ==> end == Costed))
  }

  // ---------------------------------------------------------------- appending to the history

  lemma CallsGrow(h: seq<Activity>, a: Activity, blocking: set<Verifier>)
    requires AllWellCalled(h, blocking) && WellCalled(h, a, blocking)
    ensures AllWellCalled(h + [a], blocking)
  {
    var g := h + [a];
    assert g[..|h|] == h;
    forall i | 0 <= i < |g| ensures WellCalledAt(g, i, blocking) {
      if i < |h| { assert g[..i] == h[..i] && WellCalledAt(h, i, blocking); }
    }
  }

  /** The id of a new activity: later than every earlier one, or shared with other verifiers. */
  ghost predicate NewId(h: seq<Activity>, a: Activity) {
    forall i | 0 <= i < |h| :: Ordered(h[i], a)
  }

  /** Every id so far is below `number`. */
  ghost predicate AllBelow(h: seq<Activity>, number: nat) {
    number > 0 && AllUpTo(h, number - 1)
  }

  lemma BelowIsNew(h: seq<Activity>, a: Activity)
    requires AllBelow(h, a.number)
    ensures NewId(h, a)
  {
    forall i | 0 <= i < |h| ensures Ordered(h[i], a) {
      assert NumberedUpTo(h, i, a.number - 1);
    }
  }

  lemma UpToGrows(h: seq<Activity>, number: nat, more: nat)
    requires AllUpTo(h, number) && number <= more
    ensures AllUpTo(h, more)
  {
    forall i | 0 <= i < |h| ensures NumberedUpTo(h, i, more) {
      assert NumberedUpTo(h, i, number);
    }
  }

  lemma IdsGrow(h: seq<Activity>, a: Activity)
    requires DistinctIds(h) && NewId(h, a)
    ensures DistinctIds(h + [a])
  {
    var g := h + [a];
    forall i, j | 0 <= i < j < |g| ensures OrderedAt(g, i, j) {
      if j < |h| { assert OrderedAt(h, i, j); }
    }
  }

  lemma JustificationsGrow(h: seq<Activity>, a: Activity, es: seq<Effect>, more: seq<Effect>)
    requires AllJustified(h, es) && forall e | e in more :: CalledFor(a.node, a.input, e)
    ensures AllJustified(h + [a], es + more)
  {
    var g := h + [a];
    forall e | e in es + more ensures Justified(g, e) {
      if e in more {
        assert CalledFor(g[|h|].node, g[|h|].input, e);
      } else {
        var i :| 0 <= i < |h| && CalledFor(h[i].node, h[i].input, e);
        assert g[i] == h[i];
      }
    }
  }

  lemma HistoryGrows(h: seq<Activity>, es: seq<Effect>, number: nat, blocking: set<Verifier>, a: Activity,
                     more: seq<Effect>)
    requires GoodHistory(h, es, number, blocking) && WellCalled(h, a, blocking)
    requires a.number <= number && NewId(h, a)
    requires Acted(a, more) && forall e | e in more :: CalledFor(a.node, a.input, e)
    ensures GoodHistory(h + [a], es + more, number, blocking)
  {
    forall i | 0 <= i < |h + [a]| ensures ActedAt(h + [a], i, es + more) {
      if i < |h| {
        assert ActedAt(h, i, es);
        ActedGrows(h[i], [], es, more);
        assert [] + es + more == es + more;
      } else {
        ActedGrows(a, es, more, []);
        assert es + more + [] == es + more;
      }
    }
    CallsGrow(h, a, blocking);
    IdsGrow(h, a);
    JustificationsGrow(h, a, es, more);
    forall i | 0 <= i < |h + [a]| ensures NumberedUpTo(h + [a], i, number) {
      if i < |h| { assert NumberedUpTo(h, i, number); }
    }
  }

  lemma LastPushGrows(h: seq<Activity>, a: Activity)
    ensures LastPush(h + [a]) == if a.node == Push && a.output.Some? then a.output else LastPush(h)
    ensures Pushes(h + [a]) == Pushes(h) + if a.node == Push && a.output.Some? then 1 else 0
  {
    assert (h + [a])[..|h|] == h;
  }

  lemma WithoutOne(s: seq<Verifier>, k: nat)
    requires k < |s|
    ensures forall v | v in s :: v == s[k] || v in s[..k] + s[k + 1..]
    ensures forall v | v in s[..k] + s[k + 1..] :: v in s
  {
    assert s == s[..k] + [s[k]] + s[k + 1..];
  }

  function CheckActivity(judge: Judge, shown: FlowState, number: nat, v: Verifier): Activity {
    var reply := judge(v, shown);
    Activity(Check(v), number, shown, if reply.Verdict? then Some(Graded(shown, v, reply)) else None)
  }

  /** The four verifier activities; they share a number, which names no other activity. */
  function Dispatched(judge: Judge, shown: FlowState, number: nat): seq<Activity> {
    [CheckActivity(judge, shown, number, Correctness), CheckActivity(judge, shown, number, Security),
     CheckActivity(judge, shown, number, TestEvidence), CheckActivity(judge, shown, number, RegressionRisk)]
  }

  lemma AddCheck(h: seq<Activity>, es: seq<Effect>, number: nat, blocking: set<Verifier>, a: Activity)
    requires GoodHistory(h, es, number, blocking) && a.node.Check? && a.number == number && NewId(h, a)
    requires IsBrief(a.input)
    ensures GoodHistory(h + [a], es, number, blocking)
    ensures LastPush(h + [a]) == LastPush(h) && Pushes(h + [a]) == Pushes(h)
  {
    HistoryGrows(h, es, number, blocking, a, []);
    LastPushGrows(h, a);
    assert es + [] == es;
  }

  predicate Checks(d: seq<Activity>, number: nat) {
    && (forall j | 0 <= j < |d| :: d[j].node.Check? && d[j].number == number && IsBrief(d[j].input))
    && (forall j, k | 0 <= j < k < |d| :: d[j].node != d[k].node)
  }

  lemma NewAmongChecks(h: seq<Activity>, number: nat, d: seq<Activity>, i: nat)
    requires AllBelow(h, number) && Checks(d, number) && i < |d|
    ensures NewId(h + d[..i], d[i])
  {
    var g := h + d[..i];
    BelowIsNew(h, d[i]);
    forall j | 0 <= j < |g| ensures Ordered(g[j], d[i]) {
      if j >= |h| { assert g[j] == d[j - |h|]; }
    }
  }

  lemma {:induction false} DispatchUpTo(h: seq<Activity>, es: seq<Effect>, number: nat, blocking: set<Verifier>,
                                        d: seq<Activity>, i: nat)
    requires GoodHistory(h, es, number, blocking) && AllBelow(h, number)
    requires Checks(d, number) && i <= |d|
    ensures var g := h + d[..i];
            GoodHistory(g, es, number, blocking) && LastPush(g) == LastPush(h) && Pushes(g) == Pushes(h)
  {
    if i == 0 {
      assert h + d[..0] == h;
    } else {
      DispatchUpTo(h, es, number, blocking, d, i - 1);
      NewAmongChecks(h, number, d, i - 1);
      AddCheck(h + d[..i - 1], es, number, blocking, d[i - 1]);
      assert h + d[..i] == h + d[..i - 1] + [d[i - 1]];
    }
  }

  /** Only a push changes what a state in hand has to carry. */
  lemma HandsGrow(h: seq<Activity>, a: Activity)
    ensures LastPush(h + [a]) == if a.node == Push && a.output.Some? then a.output else LastPush(h)
    ensures !(a.node == Push && a.output.Some?) ==> forall s | InHand(h, s) :: InHand(h + [a], s)
  {
    LastPushGrows(h, a);
    MergedGrows(h, [a]);
  }

  // ---------------------------------------------------------------- the whole record

  /** What holds of trail, history, requests and monitor together at any point of a run. */
  ghost predicate GoodRecord(r: Rules, t: seq<Event>, h: seq<Activity>, es: seq<Effect>, n: nat, m: Monitor,
                             owed: Option<string>) {
    && n == |t| && Numbered(t) && Watch(r, t) == Some(m)
    && GoodHistory(h, es, n, r.blocking)
    && AllClaimed(t, h)
    && AllRowed(t, h, owed) && (owed.Some? ==> Releasing(m.stage))
  }

  lemma RowKeepsRecord(r: Rules, t: seq<Event>, h: seq<Activity>, es: seq<Effect>, n: nat, m: Monitor,
                       owed: Option<string>, row: Event)
    requires GoodRecord(r, t, h, es, n, m, owed)
    requires row.seqNo == n + 1 && ControlFits(row) && Step(r, m, row.kind).Some?
    requires row.kind.ExternalEffect? ==> row.kind.merged != "" && Merged(h, row.kind.merged)
    requires owed.Some? ==> if row.kind.ExternalEffect? then owed == Some(row.kind.merged)
             else Releasing(Step(r, m, row.kind).value.stage)
    ensures GoodRecord(r, t + [row], h, es, n + 1, Step(r, m, row.kind).value,
                       if row.kind.ExternalEffect? then None else owed)
  {
    WatchAppend(r, t, row);
    UpToGrows(h, n, n + 1);
    ClaimsMore(t, row, h);
    RowsSettle(t, row, h, owed);
  }

  lemma ActivityKeepsRecord(r: Rules, t: seq<Event>, h: seq<Activity>, es: seq<Effect>, n: nat, m: Monitor,
                            owed: Option<string>, a: Activity, asked: seq<Effect>)
    requires GoodRecord(r, t, h, es, n, m, owed)
    requires WellCalled(h, a, r.blocking) && a.number <= n && AllBelow(h, a.number)
    requires Acted(a, asked) && forall e | e in asked :: CalledFor(a.node, a.input, e)
    requires Truthy(MergeOf(a)) ==> owed == None && Releasing(m.stage)
    ensures GoodRecord(r, t, h + [a], es + asked, n, m, if Truthy(MergeOf(a)) then MergeOf(a) else owed)
  {
    BelowIsNew(h, a);
    HistoryGrows(h, es, n, r.blocking, a, asked);
    ClaimsGrow(t, h, [a]);
    MergeIsOwed(t, h, a, owed);
  }

  lemma ChecksKeepRecord(r: Rules, t: seq<Event>, h: seq<Activity>, es: seq<Effect>, n: nat, m: Monitor,
                         owed: Option<string>, d: seq<Activity>)
    requires GoodRecord(r, t, h, es, n, m, owed) && Checks(d, n) && AllBelow(h, n)
    ensures GoodRecord(r, t, h + d, es, n, m, owed)
    ensures LastPush(h + d) == LastPush(h) && Pushes(h + d) == Pushes(h)
  {
    DispatchUpTo(h, es, n, r.blocking, d, |d|);
    assert d[..|d|] == d;
    ClaimsGrow(t, h, d);
    NothingMoreOwed(t, h, d, owed);
  }

  // ---------------------------------------------------------------- the fan-out, without an order

  /** What the flow reads off the state a verifier returns: its verdict, what it spent and its notes. */
  datatype Heard = Heard(verification: Verification, spent: Spend, notes: Notes)

  function HeardFrom(judge: Judge, brief: FlowState, v: Verifier): Heard
    requires judge(v, brief).Verdict?
  {
    var reply := judge(v, brief);
    Heard(Verification(v, reply.passed, reply.findings), Combine([Some(0), reply.cost]), reply.notes)
  }

  /** What is read is what the state that the activity returned holds: one verdict, its own spend, its notes. */
  predicate ReadOff(judge: Judge, s: FlowState, v: Verifier)
    requires judge(v, Brief(s)).Verdict?
  {
    var result, heard := Graded(Brief(s), v, judge(v, Brief(s))), HeardFrom(judge, Brief(s), v);
    result.verifications == [heard.verification] && result.spend == heard.spent && result.notes == heard.notes
  }

  lemma GradedParts(judge: Judge, s: FlowState, v: Verifier)
    requires judge(v, Brief(s)).Verdict?
    ensures ReadOff(judge, s, v)
  {}

  /** The history went on with one activity per verifier, in declaration order, each shown the brief. */
  predicate ShownTo(h: seq<Activity>, h0: seq<Activity>, brief: FlowState) {
    && |h| == |h0| + |VERIFIERS| && h0 <= h
    && forall i | 0 <= i < |VERIFIERS| :: h[|h0| + i].node == Check(VERIFIERS[i]) && h[|h0| + i].input == brief
  }

  lemma DispatchedIsShown(h: seq<Activity>, judge: Judge, brief: FlowState, number: nat)
    ensures ShownTo(h + Dispatched(judge, brief, number), h, brief)
  {
    var d := Dispatched(judge, brief, number);
    assert VERIFIERS == [Correctness, Security, TestEvidence, RegressionRisk];
    assert forall i | 0 <= i < 4 :: d[i].node == Check(VERIFIERS[i]) && d[i].input == brief;
  }

  predicate AllAnswer(judge: Judge, brief: FlowState) {
    forall v: Verifier :: judge(v, brief).Verdict?
  }

  /** The four answers, in declaration order. */
  function AllHeard(judge: Judge, brief: FlowState): (hs: seq<Heard>)
    requires AllAnswer(judge, brief)
    ensures |hs| == |VERIFIERS|
    ensures forall i | 0 <= i < |hs| ::
            hs[i] == HeardFrom(judge, brief, VERIFIERS[i]) && Position(hs[i].verification.verifier) == i
  {
    [HeardFrom(judge, brief, Correctness), HeardFrom(judge, brief, Security),
     HeardFrom(judge, brief, TestEvidence), HeardFrom(judge, brief, RegressionRisk)]
  }

  function Verdicts(hs: seq<Heard>): seq<Verification> {
    if hs == [] then [] else Verdicts(hs[..|hs| - 1]) + [hs[|hs| - 1].verification]
  }

  function Amounts(hs: seq<Heard>): seq<Spend> {
    if hs == [] then [] else Amounts(hs[..|hs| - 1]) + [hs[|hs| - 1].spent]
  }

  /** The state after the fan-out: a function of the state before it and of the four answers. */
  function Gathered(s: FlowState, hs: seq<Heard>): FlowState {
    s.(verifications := s.verifications + Verdicts(hs), spend := Combine([s.spend] + Amounts(hs)))
  }

  function Falsifying(vs: seq<Verification>): seq<Verifier> {
    if vs == [] then [] else (if vs[0].passed then [] else [vs[0].verifier]) + Falsifying(vs[1..])
  }

  function PassedCount(vs: seq<Verification>): nat {
    if vs == [] then 0 else (if vs[0].passed then 1 else 0) + PassedCount(vs[1..])
  }

  /** The row of a verifier that wrote notes, after `n` others. */
  function RowOf(h: Heard, n: nat): seq<Event> {
    if h.notes == "" then [] else [Event(n + 1, VerifierVerdict(h.verification.verifier, h.notes), None)]
  }

  /** The rows of those that wrote notes, numbered from `n + 1`. */
  function VerdictRows(hs: seq<Heard>, n: nat): seq<Event> {
    if hs == [] then []
    else
      var before := VerdictRows(hs[..|hs| - 1], n);
      before + RowOf(hs[|hs| - 1], n + |before|)
  }

  predicate HasKind(rows: seq<Event>, k: Kind) {
    exists i | 0 <= i < |rows| :: rows[i].kind == k
  }

  lemma KindsOfBoth(a: seq<Event>, b: seq<Event>, k: Kind)
    ensures HasKind(a + b, k) <==> HasKind(a, k) || HasKind(b, k)
  {
    if i :| 0 <= i < |a| && a[i].kind == k { assert (a + b)[i].kind == k; }
    if i :| 0 <= i < |b| && b[i].kind == k { assert (a + b)[|a| + i].kind == k; }
  }

  predicate Noted(h: Heard, k: Kind) {
    h.notes != "" && k == VerifierVerdict(h.verification.verifier, h.notes)
  }

  lemma {:induction false} RowsAreNumbered(hs: seq<Heard>, n: nat)
    ensures forall i | 0 <= i < |VerdictRows(hs, n)| :: VerdictRows(hs, n)[i].seqNo == n + 1 + i
  {
    if hs != [] { RowsAreNumbered(hs[..|hs| - 1], n); }
  }

  predicate AnyNoted(hs: seq<Heard>, k: Kind) {
    exists i | 0 <= i < |hs| :: Noted(hs[i], k)
  }

  lemma AnyNotedOfBoth(front: seq<Heard>, h: Heard, k: Kind)
    ensures AnyNoted(front + [h], k) <==> AnyNoted(front, k) || Noted(h, k)
  {
    if i :| 0 <= i < |front| && Noted(front[i], k) { assert Noted((front + [h])[i], k); }
    if Noted(h, k) { assert Noted((front + [h])[|front|], k); }
  }

  /** Every answer with notes has its row, and every row is of such an answer; they are numbered from `n + 1`. */
  lemma {:induction false} RowsOfTheNotes(hs: seq<Heard>, n: nat, k: Kind)
    ensures HasKind(VerdictRows(hs, n), k) <==> AnyNoted(hs, k)
    ensures forall i | 0 <= i < |VerdictRows(hs, n)| :: VerdictRows(hs, n)[i].seqNo == n + 1 + i
  {
    RowsAreNumbered(hs, n);
    if hs != [] {
      var front, h := hs[..|hs| - 1], hs[|hs| - 1];
      RowsOfTheNotes(front, n, k);
      var before := VerdictRows(front, n);
      KindsOfBoth(before, RowOf(h, n + |before|), k);
      assert HasKind(RowOf(h, n + |before|), k) <==> Noted(h, k) by {
        if h.notes != "" { assert RowOf(h, n + |before|)[0].kind == VerifierVerdict(h.verification.verifier, h.notes); }
      }
      assert hs == front + [h];
      AnyNotedOfBoth(front, h, k);
    }
  }

  /** A trail that went on with the rows of the first `i` answers. */
  predicate ReadUpTo(t: seq<Event>, t0: seq<Event>, hs: seq<Heard>, i: nat)
    requires i <= |hs|
  {
    t == t0 + VerdictRows(hs[..i], |t0|)
  }

  lemma OneMoreRow(t: seq<Event>, t0: seq<Event>, hs: seq<Heard>, i: nat)
    requires i < |hs| && ReadUpTo(t, t0, hs, i)
    ensures ReadUpTo(t + RowOf(hs[i], |t|), t0, hs, i + 1)
  {
    assert hs[..i + 1][..i] == hs[..i];
  }

  predicate VerdictsUpTo(vs: seq<Verification>, hs: seq<Heard>, i: nat)
    requires i <= |hs|
  {
    vs == Verdicts(hs[..i])
  }

  lemma OneMoreVerdict(vs: seq<Verification>, hs: seq<Heard>, i: nat)
    requires i < |hs| && VerdictsUpTo(vs, hs, i)
    ensures VerdictsUpTo(vs + [hs[i].verification], hs, i + 1)
  {
    assert hs[..i + 1][..i] == hs[..i];
  }

  lemma AllRead(t: seq<Event>, t0: seq<Event>, hs: seq<Heard>, vs: seq<Verification>)
    requires ReadUpTo(t, t0, hs, |hs|) && VerdictsUpTo(vs, hs, |hs|)
    ensures t == t0 + VerdictRows(hs, |t0|) && vs == Verdicts(hs)
  {
    assert hs[..|hs|] == hs;
  }

  function Completion(n: nat, all: seq<Verification>): Event {
    Event(n, VerifiersCompleted(PassedCount(all), Falsifying(all)), None)
  }

  /** The rows of the fan-out before the completing one, when the trail already has `n` rows. */
  function OpeningRows(hs: seq<Heard>, n: nat): seq<Event> {
    [Event(n + 1, VerifiersStarted(|VERIFIERS|), None)] + VerdictRows(hs, n + 1)
  }

  /** Every row the fan-out writes. */
  function FanOutRows(s: FlowState, hs: seq<Heard>, n: nat): seq<Event> {
    var rows := OpeningRows(hs, n);
    rows + [Completion(n + |rows| + 1, Gathered(s, hs).verifications)]
  }

  /** A trail that went on with the rows of a fan-out that heard `hs`, up to the last but one. */
  predicate ReadAll(t: seq<Event>, t0: seq<Event>, hs: seq<Heard>) {
    t == t0 + OpeningRows(hs, |t0|)
  }

  lemma RowsAfterTheFirst(t: seq<Event>, t0: seq<Event>, hs: seq<Heard>)
    requires t == t0 + [Event(|t0| + 1, VerifiersStarted(|VERIFIERS|), None)]
    ensures ReadAll(t + VerdictRows(hs, |t|), t0, hs)
  {}

  /** A trail that went on with the rows of a fan-out from state `s` that heard `hs`. */
  predicate FannedOut(t: seq<Event>, t0: seq<Event>, s: FlowState, hs: seq<Heard>) {
    t == t0 + FanOutRows(s, hs, |t0|)
  }

  lemma RowsWithTheLast(t: seq<Event>, t0: seq<Event>, s: FlowState, hs: seq<Heard>)
    requires ReadAll(t, t0, hs)
    ensures FannedOut(t + [Completion(|t| + 1, Gathered(s, hs).verifications)], t0, s, hs)
  {}

  lemma EndsInCompletion(t: seq<Event>, t0: seq<Event>, s: FlowState, hs: seq<Heard>)
    requires FannedOut(t, t0, s, hs)
    ensures t != [] && Tells(t[|t| - 1], Gathered(s, hs).verifications)
  {
    var n := |t0| + |OpeningRows(hs, |t0|)| + 1;
    CompletionTells(n, Gathered(s, hs).verifications);
    assert t[|t| - 1] == Completion(n, Gathered(s, hs).verifications);
  }

  /** The row written last. */
  predicate LastRow(t: seq<Event>, k: Kind) {
    t != [] && t[|t| - 1].kind == k
  }

  /** The verifier did not pass the change. */
  predicate Objects(vs: seq<Verification>, v: Verifier) {
    exists x | x in vs :: x.verifier == v && !x.passed
  }

  /** The input lets the verifier block. */
  predicate Blocks(p: FlowInput, v: Verifier) {
    p.blockingVerifiers == [] || v in p.blockingVerifiers
  }

  /** Named are exactly the verifiers that object, once per objection. */
  lemma {:induction false} FalsifyingMeaning(vs: seq<Verification>, v: Verifier)
    ensures v in Falsifying(vs) <==> Objects(vs, v)
    ensures PassedCount(vs) + |Falsifying(vs)| == |vs|
  {
    if vs != [] {
      FalsifyingMeaning(vs[1..], v);
      assert forall x | x in vs :: x == vs[0] || x in vs[1..];
    }
  }

  lemma {:induction false} PassedIsTheirNumber(vs: seq<Verification>)
    ensures PassedCount(vs) == |set i: nat | i < |vs| && vs[i].passed|
  {
    var marks := PassedMarks(vs);
    assert (set i: nat | i < |vs| && vs[i].passed) == Marked(marks);
    if vs != [] {
      PassedIsTheirNumber(vs[1..]);
      assert marks[1..] == PassedMarks(vs[1..]);
      assert (set i: nat | i < |vs[1..]| && vs[1..][i].passed) == Marked(marks[1..]);
      OneMarkMore(marks);
    }
  }

  function PassedMarks(vs: seq<Verification>): seq<bool> {
    seq(|vs|, i requires 0 <= i < |vs| => vs[i].passed)
  }

  /** The row counts the verifications that passed and names the verifiers that object. */
  ghost predicate Tells(row: Event, vs: seq<Verification>) {
    && row.kind.VerifiersCompleted?
    && row.kind.passed == (|set i: nat | i < |vs| && vs[i].passed|)
    && forall v :: v in row.kind.falsifiedBy <==> Objects(vs, v)
  }

  lemma CompletionTells(n: nat, vs: seq<Verification>)
    ensures Tells(Completion(n, vs), vs)
  {
    PassedIsTheirNumber(vs);
    forall v ensures v in Falsifying(vs) <==> Objects(vs, v) { FalsifyingMeaning(vs, v); }
  }

  /** Who falsified the change and who merely objected, told apart by whether the input lets them block. */
  ghost predicate SplitsObjections(p: FlowInput, vs: seq<Verification>, falsified: seq<Verifier>,
                                   advisory: seq<Verifier>)
  {
    && (forall v :: v in falsified <==> Objects(vs, v) && Blocks(p, v))
    && (forall v :: v in advisory <==> Objects(vs, v) && !Blocks(p, v))
  }

  lemma ObjectionsAreSplit(p: FlowInput, vs: seq<Verification>)
    ensures SplitsObjections(p, vs, Among(Falsifying(vs), Blocking(p), true), Among(Falsifying(vs), Blocking(p), false))
  {
    forall v
      ensures v in Falsifying(vs) <==> Objects(vs, v)
      ensures v in Blocking(p) <==> Blocks(p, v)
    {
      FalsifyingMeaning(vs, v);
      BlockingMeaning(p, v);
    }
  }

  lemma NoBlockerMeansUnblocked(s: FlowState, blocking: set<Verifier>)
    requires Among(Falsifying(s.verifications), blocking, true) == []
    ensures Unblocked(s, blocking)
  {
    forall x | x in s.verifications && !x.passed ensures x.verifier !in blocking {
      FalsifyingMeaning(s.verifications, x.verifier);
      assert x.verifier in blocking ==> x.verifier in Among(Falsifying(s.verifications), blocking, true);
    }
  }

  /** Some decision rejects, or enough of them approve: what the gate waits for. */
  predicate Decided(signals: seq<Signal>, needed: nat) {
    (exists a | a in signals :: !a.approved) || ApprovingSignals(signals) >= needed
  }

  function ApprovingSignals(signals: seq<Signal>): nat {
    if signals == [] then 0
    else (if signals[0].approved then 1 else 0) + ApprovingSignals(signals[1..])
  }

  /** Somebody rejects, or as many approve as are needed. */
  lemma DecidedMeaning(signals: seq<Signal>, needed: nat)
    ensures Decided(signals, needed) <==>
            || (exists i :: 0 <= i < |signals| && !signals[i].approved)
            || |set i: nat | i < |signals| && signals[i].approved| >= needed
  {
    var recorded := Recorded(signals, Low);
    RecordedKeepsApprovals(signals, Low);
    RecordedKeepsRejections(signals, Low);
    ApprovingIsTheirNumber(recorded);
    assert (set i: nat | i < |recorded| && recorded[i].approved) == set i: nat | i < |signals| && signals[i].approved;
  }

  lemma {:induction false} ApprovingConcat(a: seq<Signal>, b: seq<Signal>)
    ensures ApprovingSignals(a + b) == ApprovingSignals(a) + ApprovingSignals(b)
  {
    if a == [] {
      assert a + b == b;
    } else {
      assert (a + b)[1..] == a[1..] + b;
      ApprovingConcat(a[1..], b);
    }
  }

  /** Once the wait is over, later decisions cannot make it not so. */
  lemma DecidedIsStable(before: seq<Signal>, after: seq<Signal>, needed: nat)
    requires before <= after && Decided(before, needed)
    ensures Decided(after, needed)
  {
    assert after == before + after[|before|..];
    ApprovingConcat(before, after[|before|..]);
    forall a | a in before ensures a in after {
      var i :| 0 <= i < |before| && before[i] == a;
      assert after[i] == a;
    }
  }

  lemma {:induction false} RecordedKeepsApprovals(signals: seq<Signal>, tier: Tier)
    ensures Approving(Recorded(signals, tier)) == ApprovingSignals(signals)
  {
    if signals != [] {
      RecordedKeepsApprovals(signals[1..], tier);
      assert Recorded(signals, tier)[1..] == Recorded(signals[1..], tier);
    }
  }

  lemma RecordedKeepsRejections(signals: seq<Signal>, tier: Tier)
    ensures Rejecting(Recorded(signals, tier)) <==> exists a | a in signals :: !a.approved
  {
    var r := Recorded(signals, tier);
    if exists a | a in signals :: !a.approved {
      var i :| 0 <= i < |signals| && !signals[i].approved;
      assert r[i] in r;
    }
    if Rejecting(r) {
      var i :| 0 <= i < |r| && !r[i].approved;
      assert signals[i] in signals;
    }
  }

  lemma AmongCovers(named: seq<Verifier>, blocking: set<Verifier>)
    ensures named == [] || Among(named, blocking, true) != [] || Among(named, blocking, false) != []
  {}

  // ---------------------------------------------------------------- the flow

  function RulesOf(p: FlowInput): Rules {
    Rules(MaxPasses(p), Blocking(p))
  }

  /** Activity answers stay within what the nodes guarantee. */
  ghost predicate Honest(perform: (NodeId, FlowState, nat) -> Option<FlowState>) {
    forall n: NodeId, s: FlowState, k: nat :: perform(n, s, k).Some? ==> Does(n, s, perform(n, s, k).value)
  }

  lemma Honestly(perform: (NodeId, FlowState, nat) -> Option<FlowState>, n: NodeId, s: FlowState, k: nat)
    requires Honest(perform)
    ensures perform(n, s, k).Some? ==> Does(n, s, perform(n, s, k).value)
  {}

  lemma ReleasingIsReleased(s: FlowState, p: MergePolicy, reply: ReleaseReply, notes: Notes)
    requires Released(s, p, reply, notes).Some?
    ensures Does(Release, s, Released(s, p, reply, notes).value)
  {
    var t := Released(s, p, reply, notes).value;
    assert Released(s, p, reply, t.notes) == Some(t);
  }

  lemma CompensatingIsCompensated(s: FlowState, answer: string, notes: Notes)
    ensures Does(Compensate, s, Compensated(s, answer, notes))
  {
    var t := Compensated(s, answer, notes);
    assert t == Compensated(s, answer, t.notes);
  }

  /** What chance brings to one attempt at a node: it may come to nothing before any request. */
  datatype Chance =
    | Nothing
    | ForRelease(policy: MergePolicy, reply: ReleaseReply, notes: Notes)
    | ForCompensation(answer: string, notes: Notes)
    | ForOthers(result: Option<FlowState>)

  predicate Fits(n: NodeId, c: Chance) {
    c.Nothing? || match n case Release => c.ForRelease? case Compensate => c.ForCompensation? case _ => c.ForOthers?
  }

  function AnswerOf(s: FlowState, c: Chance): Option<FlowState> {
    match c
    case Nothing => None
    case ForRelease(policy, reply, notes) => Released(s, policy, reply, notes)
    case ForCompensation(answer, notes) => Some(Compensated(s, answer, notes))
    case ForOthers(result) => result
  }

  /** Only a release and a compensation ask anything of the platform. */
  function AskedOf(s: FlowState, c: Chance): seq<Effect> {
    match c
    case Nothing => []
    case ForRelease(policy, reply, notes) => ReleaseEffects(s, policy, reply)
    case ForCompensation(answer, notes) => Deletions(s)
    case ForOthers(result) => []
  }

  /** Attempts at a node until one answers or no more are made. */
  predicate Attempts(n: NodeId, s: FlowState, cs: seq<Chance>) {
    && (forall i | 0 <= i < |cs| :: Fits(n, cs[i]))
    && (forall i | 0 <= i < |cs| - 1 :: AnswerOf(s, cs[i]) == None)
  }

  /** Everything the attempts asked for, in order. */
  function AllAsked(s: FlowState, cs: seq<Chance>): seq<Effect> {
    if cs == [] then [] else AllAsked(s, cs[..|cs| - 1]) + AskedOf(s, cs[|cs| - 1])
  }

  lemma OneMoreAttempt(n: NodeId, s: FlowState, cs: seq<Chance>, c: Chance)
    requires Attempts(n, s, cs) && (cs != [] ==> AnswerOf(s, cs[|cs| - 1]) == None) && Fits(n, c)
    ensures Attempts(n, s, cs + [c]) && AllAsked(s, cs + [c]) == AllAsked(s, cs) + AskedOf(s, c)
  {
    assert (cs + [c])[..|cs|] == cs;
  }

  /** What a compensation asks for: the deletion of a pushed branch that no pull request was opened against. */
  function Deletions(s: FlowState): (asked: seq<Effect>)
    ensures |asked| <= 1
    ensures forall branch :: DeletionAsked(branch) in asked <==>
              && branch != "" && s.branch == Some(branch) && s.headCommit !in {None, Some("")}
              && forall a | a in s.artifacts :: a.kind != PullRequestArtifact
  {
    if Deletes(s) then [DeletionAsked(s.branch.value)] else []
  }

  class DeliveryFlow {
    const input: FlowInput
    const judge: Judge
    const perform: (NodeId, FlowState, nat) -> Option<FlowState>

    var seqNo: nat
    var approvals: seq<Signal>
    var status: Status
    var latest: StateObject?

    // The record outside the flow: the trail, the activity history and the requests to the platform.
    var trail: seq<Event>
    var activities: seq<Activity>
    var effects: seq<Effect>

    // Verifiers of an interrupted fan-out that are still running, and what they were shown.
    var running: seq<Verifier>
    var brief: FlowState

    ghost var mon: Monitor

    /** The commit of a merge whose row has not been written yet. */
    ghost var owed: Option<string>

    constructor (p: FlowInput, judge: Judge, perform: (NodeId, FlowState, nat) -> Option<FlowState>)
      requires Honest(perform)
      ensures Valid() && input == p && this.judge == judge && this.perform == perform
      ensures mon == START && running == [] && activities == [] && latest == null
    {
      input, this.judge, this.perform := p, judge, perform;
      seqNo, approvals, status, latest := 0, [], Running, null;
      trail, activities, effects, running := [], [], [], [];
      brief := Fresh(p.runId, p.lineage, p.ticket, p.policyCommit, p.provisionalTier);
      mon := START;
      owed := None;
    }

    ghost predicate RecordOk()
      reads this`trail, this`activities, this`effects, this`seqNo, this`mon, this`owed
    {
      GoodRecord(RulesOf(input), trail, activities, effects, seqNo, mon, owed)
    }

    ghost predicate LatestOk()
      reads this`activities, this`latest, this`running, this`brief, this`mon, latest
    {
      && (latest != null ==> InHand(activities, latest.v))
      && (LastPush(activities).Some? ==> latest != null)
      && (running != [] ==> mon.stray && InHand(activities, brief))
    }

    ghost predicate Valid()
      reads this, latest
    {
      Honest(perform) && RecordOk() && LatestOk()
    }

    /** No interrupted fan-out and no failure: nothing runs beside the flow. */
    ghost predicate Quiet()
      reads this`running, this`mon
    {
      running == [] && !mon.stray && !mon.failed
    }

    /** Whether a row of this kind may be written now. */
    ghost predicate Admits(k: Kind)
      reads this
    {
      var next := Step(RulesOf(input), mon, k);
      && next.Some? && (running != [] ==> next.value.stray)
      && (k.ExternalEffect? ==> k.merged != "" && Merged(activities, k.merged))
      && (owed.Some? ==> if k.ExternalEffect? then owed == Some(k.merged) else Releasing(next.value.stage))
    }

    ghost function Next(k: Kind): Monitor
      reads this
      requires Admits(k)
    {
      Step(RulesOf(input), mon, k).value
    }

    /** A decision by a human. */
    method Approve(signal: Signal)
      requires Valid()
      modifies this`approvals
      ensures Valid() && approvals == old(approvals) + [signal]
    {
      approvals := approvals + [signal];
    }

    /** The numbered row, without the wait for its activity. */
    method Record(k: Kind)
      requires Valid() && Admits(k)
      modifies this`seqNo, this`trail, this`mon, this`owed
      ensures Valid() && mon == old(Next(k)) && owed == if k.ExternalEffect? then None else old(owed)
      ensures trail == old(trail) + [Event(old(seqNo) + 1, k, if k.ExternalEffect? then Some(Authorized) else None)]
    {
      var row := Event(seqNo + 1, k, if k.ExternalEffect? then Some(Authorized) else None);
      RowKeepsRecord(RulesOf(input), trail, activities, effects, seqNo, mon, owed, row);
      seqNo := seqNo + 1;
      trail := trail + [row];
      mon := Next(k);
      if k.ExternalEffect? { owed := None; }
    }

    /** One verifier left over from an interrupted fan-out finishes. */
    method Straggle()
      requires Valid() && running != []
      modifies this`running, this`latest, this`seqNo, this`trail, this`mon, this`owed
      ensures Valid() && mon == old(mon) && owed == old(owed) && |running| < |old(running)|
      ensures latest == old(latest) || fresh(latest)
      ensures |trail| >= |old(trail)|
    {
      var k :| 0 <= k < |running|;
      var v := running[k];
      running := running[..k] + running[k + 1..];
      var reply := judge(v, brief);
      if reply.Verdict? {
        latest := new StateObject(Graded(brief, v, reply));
      } else {
        Record(NodeFailed(Check(v)));
      }
    }

    /**
     Any time the flow awaits something: decisions arrive, and verifiers left over from an interrupted
     fan-out finish, each publishing its state or recording its failure.
     */
    method Await()
      requires Valid()
      modifies this
      ensures Valid() && mon == old(mon) && owed == old(owed)
      ensures old(approvals) <= approvals
      ensures old(running) == [] ==>
                running == [] && latest == old(latest) && trail == old(trail) && seqNo == old(seqNo)
      ensures latest == old(latest) || fresh(latest)
      ensures |trail| >= |old(trail)|
      ensures activities == old(activities) && effects == old(effects) && status == old(status) && brief == old(brief)
    {
      var arrived: seq<Signal> := *;
      approvals := approvals + arrived;
      var more: bool := *;
      while running != [] && more
        invariant Valid() && mon == old(mon) && owed == old(owed)
        invariant old(approvals) <= approvals
        invariant old(running) == [] ==>
                    running == [] && latest == old(latest) && trail == old(trail) && seqNo == old(seqNo)
        invariant latest == old(latest) || fresh(latest)
        invariant |trail| >= |old(trail)|
        invariant activities == old(activities) && effects == old(effects) && status == old(status)
                  && brief == old(brief)
        decreases |running|
      {
        Straggle();
        more := *;
      }
    }

    method Emit(k: Kind)
      requires Valid() && Admits(k)
      modifies this
      ensures Valid() && mon == old(Next(k)) && owed == if k.ExternalEffect? then None else old(owed)
      ensures old(approvals) <= approvals
      ensures old(running) == [] ==>
                && running == [] && latest == old(latest)
                && trail == old(trail) +
                   [Event(old(seqNo) + 1, k, if k.ExternalEffect? then Some(Authorized) else None)]
      ensures latest == old(latest) || fresh(latest)
      ensures |trail| > |old(trail)| && AllBelow(activities, seqNo)
      ensures activities == old(activities) && effects == old(effects) && status == old(status) && brief == old(brief)
    {
      ghost var number := seqNo;
      Record(k);
      Await();
      UpToGrows(activities, number, seqNo - 1);
    }

    // -------------------------------------------------------------- one node

    /** One attempt of a node activity, with what it asked of the platform on the way. */
    method Attempt(n: NodeId, s: FlowState)
      returns (out: Option<FlowState>, asked: seq<Effect>, ghost c: Chance)
      requires Honest(perform) && !n.Check?
      ensures Fits(n, c) && out == AnswerOf(s, c) && asked == AskedOf(s, c)
      ensures out.Some? ==> Does(n, s, out.value)
      ensures forall e | e in asked :: CalledFor(n, s, e)
      ensures Acted(Activity(n, 0, s, out), asked)
    {
      var reached: bool := *;
      var notes: Notes := *;
      if !reached {
        out, asked, c := None, [], Nothing;
      } else if n == Release {
        var policy: MergePolicy := *;
        var reply: ReleaseReply := *;
        out, asked := Released(s, policy, reply, notes), ReleaseEffects(s, policy, reply);
        c := ForRelease(policy, reply, notes);
        if out.Some? {
          ReleasingIsReleased(s, policy, reply, notes);
          if out.value.mergedCommit != s.mergedCommit { ReleasesAsk(s, policy, reply, notes); }
        }
      } else if n == Compensate {
        var answer: string := *;
        out, asked := Some(Compensated(s, answer, notes)), Deletions(s);
        c := ForCompensation(answer, notes);
        CompensatingIsCompensated(s, answer, notes);
      } else {
        var chance: nat := *;
        out, asked := perform(n, s, chance), [];
        c := ForOthers(out);
        Honestly(perform, n, s, chance);
      }
    }

    /** The activity: at most three attempts, of which the platform sees every one. */
    method Execute(n: NodeId, s: FlowState)
      returns (out: Option<FlowState>, asked: seq<Effect>, ghost cs: seq<Chance>)
      requires Honest(perform) && !n.Check?
      ensures 1 <= |cs| <= 3 && Attempts(n, s, cs)
      ensures out == AnswerOf(s, cs[|cs| - 1]) && asked == AllAsked(s, cs)
      ensures out.Some? ==> Does(n, s, out.value)
      ensures forall e | e in asked :: CalledFor(n, s, e)
      ensures Acted(Activity(n, 0, s, out), asked)
    {
      ghost var c;
      out, asked, c := Attempt(n, s);
      cs := [c];
      OneMoreAttempt(n, s, [], c);
      var tries, more: bool := 1, *;
      while tries < 3 && out.None? && more
        invariant tries == |cs| <= 3 && cs != [] && Attempts(n, s, cs)
        invariant out == AnswerOf(s, cs[|cs| - 1]) && asked == AllAsked(s, cs)
        invariant out.Some? ==> Does(n, s, out.value)
        invariant forall e | e in asked :: CalledFor(n, s, e)
        invariant Acted(Activity(n, 0, s, out), asked)
        decreases 3 - tries
      {
        var sent;
        out, sent, c := Attempt(n, s);
        ActedGrows(Activity(n, 0, s, out), asked, sent, []);
        assert asked + sent + [] == asked + sent;
        OneMoreAttempt(n, s, cs, c);
        asked, cs, tries := asked + sent, cs + [c], tries + 1;
        more := *;
      }
    }

    /** The history with one more node activity, and its state published as the latest. */
    method Publish(a: Activity, asked: seq<Effect>) returns (r: StateObject?)
      requires Valid() && WellCalled(activities, a, Blocking(input))
      requires a.number <= seqNo && AllBelow(activities, a.number)
      requires Acted(a, asked) && forall e | e in asked :: CalledFor(a.node, a.input, e)
      requires a.output.Some? ==> InHand(activities + [a], a.output.value)
      requires a.node == Push ==> running == []
      requires a.node == Release ==> owed == None && Releasing(mon.stage)
      modifies this`activities, this`effects, this`latest, this`owed
      ensures Valid()
      ensures owed == if Truthy(MergeOf(a)) then MergeOf(a) else old(owed)
      ensures activities == old(activities) + [a]
      ensures r == null <==> a.output.None?
      ensures r == null ==> latest == old(latest)
      ensures r != null ==> fresh(r) && r.v == a.output.value && latest == r
    {
      ActivityKeepsRecord(RulesOf(input), trail, activities, effects, seqNo, mon, owed, a, asked);
      HandsGrow(activities, a);
      if Truthy(MergeOf(a)) { owed := MergeOf(a); }
      activities := activities + [a];
      effects := effects + asked;
      r := null;
      if a.output.Some? {
        r := new StateObject(a.output.value);
        latest := r;
      }
    }

    /** Whether the flow may run the node on this state now. */
    ghost predicate Ready(n: NodeId, s: FlowState)
      reads this
    {
      && !n.Check?
      && Admits(NodeStarted(n))
      && WellCalled(activities, Activity(n, 0, s, None), Blocking(input))
      && InHand(activities, s)
      && (n == Push ==> running == [])
    }

    /** The node is announced; its activity is then under way, with an id of its own. */
    method StartNode(n: NodeId) returns (number: nat)
      requires Valid() && Admits(NodeStarted(n))
      modifies this
      ensures Valid() && mon == old(Next(NodeStarted(n))) && owed == old(owed)
      ensures status == old(status)
      ensures old(running) == [] ==> running == [] && latest == old(latest)
      ensures activities == old(activities)
      ensures number <= seqNo && AllBelow(activities, number)
    {
      Emit(NodeStarted(n));
      number := seqNo;
      Await();
    }

    /** The outcome is recorded and, if there is a state, its notes are drained. */
    method EndNode(n: NodeId, r: StateObject?)
      requires Valid() && !n.Check? && mon.stage == Doing(n) && (running != [] ==> mon.stray)
      requires running == [] ==> r == null || latest == r
      requires r == null ==> owed == None
      modifies this, r
      ensures Valid()
      ensures mon == old(mon).(stage := if r == null then Broke(n) else Did(n)) && owed == old(owed)
      ensures status == old(status)
      ensures old(running) == [] ==> running == [] && latest == old(latest)
      ensures activities == old(activities)
      ensures r != null ==> r.v == old(r.v).(notes := "")
    {
      if r == null {
        Emit(NodeFailed(n));
      } else {
        Emit(NodeCompleted(n, r.v.notes));
        r.v := r.v.(notes := "");
      }
    }

    /** `_node_step`: `null` is the exception it raises again. */
    method NodeStep(n: NodeId, s: FlowState) returns (r: StateObject?, ghost a: Activity)
      requires Valid() && Ready(n, s)
      modifies this
      ensures Valid()
      ensures mon == old(Next(NodeStarted(n))).(stage := if r == null then Broke(n) else Did(n))
      ensures status == old(status)
      ensures activities == old(activities) + [a] && Answered(a, n, s, r)
      ensures r != null ==> fresh(r) && r.v.notes == ""
      ensures owed == OwedAfter(n, s, r)
      ensures old(running) == [] ==> running == [] && latest == if r == null then old(latest) else r
    {
      assert owed == None;
      var number := StartNode(n);
      r, a := NodeBody(n, number, s);
    }

    /** The activity and the record of its outcome. */
    method NodeBody(n: NodeId, number: nat, s: FlowState) returns (r: StateObject?, ghost a: Activity)
      requires Valid() && !n.Check? && InHand(activities, s) && (n == Push ==> running == [])
      requires WellCalled(activities, Activity(n, 0, s, None), Blocking(input))
      requires number <= seqNo && AllBelow(activities, number)
      requires owed == None && mon.stage == Doing(n) && (running != [] ==> mon.stray)
      modifies this
      ensures Valid()
      ensures mon == old(mon).(stage := if r == null then Broke(n) else Did(n))
      ensures status == old(status)
      ensures activities == old(activities) + [a] && Answered(a, n, s, r)
      ensures r != null ==> fresh(r) && r.v.notes == ""
      ensures owed == OwedAfter(n, s, r)
      ensures old(running) == [] ==> running == [] && latest == if r == null then old(latest) else r
    {
      r, a := RunNode(n, number, s);
      ghost var given := if r == null then s else r.v;
      EndNode(n, r);
      assert r != null ==> Gave(a, n, s, given.(notes := ""));
    }

    /** What is owed once the node has run on `s`: the row of a merge that named its commit. */
    ghost function OwedAfter(n: NodeId, s: FlowState, r: StateObject?): Option<string>
      reads r
    {
      if n == Release && r != null && r.v.mergedCommit != s.mergedCommit && Truthy(r.v.mergedCommit) then
        r.v.mergedCommit
      else None
    }

    /** The activity itself, from its dispatch to the moment its state is published. */
    method RunNode(n: NodeId, number: nat, s: FlowState) returns (r: StateObject?, ghost a: Activity)
      requires Valid() && !n.Check? && InHand(activities, s) && (n == Push ==> running == [])
      requires WellCalled(activities, Activity(n, 0, s, None), Blocking(input))
      requires number <= seqNo && AllBelow(activities, number)
      requires owed == None && (n == Release ==> Releasing(mon.stage))
      modifies this`activities, this`effects, this`latest, this`owed
      ensures Valid()
      ensures owed == OwedAfter(n, s, r)
      ensures activities == old(activities) + [a]
      ensures Answered(a, n, s, r) && (r != null ==> r.v == a.output.value)
      ensures r != null ==> fresh(r)
      ensures latest == if r == null then old(latest) else r
    {
      var out, asked, _ := Execute(n, s);
      a := Activity(n, number, s, out);
      if out.Some? { StaysInHand(activities, a); }
      r := Publish(Activity(n, number, s, out), asked);
    }

    // -------------------------------------------------------------- the cycle

    /** The flow holds the latest state, nothing runs beside it, and `s` carries what was pushed. */
    ghost predicate Holding(s: StateObject)
      reads this, latest
    {
      Valid() && Quiet() && latest == s && InHand(activities, s.v)
    }

    /** The loop head: `attempt` whole passes are behind the run and none was graded 0. */
    ghost predicate AtLoopHead(s: StateObject, attempt: nat)
      reads this, latest
    {
      && Holding(s)
      && attempt == mon.passes == Pushes(activities)
      && mon.exit != Some(0)
      && (mon.stage == Did(BuildTest) || mon.stage == GradedPass || (mon.stage == Did(Planner) && attempt == 0))
    }

    /** The coder, on a state that says which pass this is. */
    method Code(start: StateObject, attempt: nat) returns (r: StateObject?)
      requires AtLoopHead(start, attempt) && attempt < MaxPasses(input)
      modifies this, start
      ensures Valid() && Quiet()
      ensures r == null ==> MayFail(mon)
      ensures r != null ==>
                && fresh(r) && Holding(r) && mon.stage == Did(Coder) && mon.exit == None
                && mon.passes == attempt + 1 && Pushes(activities) == attempt == r.v.pushAttempt
    {
      start.v := start.v.(pushAttempt := attempt);
      ghost var a;
      r, a := NodeStep(Coder, start.v);
      LastPushGrows(old(activities), a);
    }

    /** The push; from here on the branch exists. */
    method PushOnce(coded: StateObject) returns (r: StateObject?)
      requires Holding(coded) && mon.stage == Did(Coder) && Pushes(activities) == coded.v.pushAttempt
      modifies this
      ensures Valid() && Quiet()
      ensures r == null ==> MayFail(mon)
      ensures r != null ==>
                && fresh(r) && Holding(r) && mon == old(mon).(stage := Did(Push))
                && Pushes(activities) == old(Pushes(activities)) + 1 && LastPush(activities).Some?
    {
      ghost var a;
      r, a := NodeStep(Push, coded.v);
      LastPushGrows(old(activities), a);
    }

    /** Build and test, with the verdict on the trail if there is one. */
    method Grade(pushed: StateObject) returns (r: StateObject?)
      requires Holding(pushed) && mon.stage == Pushed && mon.exit == None && mon.head == pushed.v.headCommit
      modifies this, pushed
      ensures Valid() && Quiet()
      ensures r == null ==> MayFail(mon)
      ensures r != null ==>
                && fresh(r) && Holding(r) && mon.head == r.v.headCommit
                && mon.passes == old(mon.passes) && Pushes(activities) == old(Pushes(activities))
                && LastPush(activities) == old(LastPush(activities))
                && (r.v.ciResult.Some? ==>
                      LastRow(trail, BuildTestVerdict(r.v.ciResult.value.exitCode, r.v.ciResult.value.source)))
                && (if r.v.ciResult.Some? then mon.stage == GradedPass && mon.exit == Some(r.v.ciResult.value.exitCode)
                    else mon.stage == Did(BuildTest) && mon.exit == None)
    {
      ghost var a;
      r, a := NodeStep(BuildTest, pushed.v);
      LastPushGrows(old(activities), a);
      if r != null && r.v.ciResult.Some? {
        Emit(BuildTestVerdict(r.v.ciResult.value.exitCode, r.v.ciResult.value.source));
      }
    }

    /** The row of the push, and the index of the files it changed. */
    method Note(pushed: StateObject, attempt: nat)
      requires Holding(pushed) && mon.stage == Did(Push) && attempt + 1 == mon.passes
      modifies this
      ensures Holding(pushed) && activities == old(activities)
      ensures mon == old(mon).(stage := Pushed, head := pushed.v.headCommit)
      ensures LastRow(trail, BranchPushed(pushed.v.branch, pushed.v.headCommit, pushed.v.baseCommit, attempt))
    {
      Emit(BranchPushed(pushed.v.branch, pushed.v.headCommit, pushed.v.baseCommit, attempt));
      Await();
    }

    /** One pass of the cycle. */
    method Pass(start: StateObject, attempt: nat) returns (r: StateObject?)
      requires AtLoopHead(start, attempt) && attempt < MaxPasses(input)
      modifies this, start
      ensures Valid() && Quiet()
      ensures r == null ==> MayFail(mon)
      ensures r != null ==>
                && fresh(r) && Holding(r) && mon.head == r.v.headCommit && LastPush(activities).Some?
                && mon.passes == Pushes(activities) == attempt + 1
                && (if r.v.ciResult.Some? then mon.stage == GradedPass && mon.exit == Some(r.v.ciResult.value.exitCode)
                    else mon.stage == Did(BuildTest) && mon.exit == None)
    {
      r := Code(start, attempt);
      if r != null { r := PushOnce(r); }
      if r != null {
        Note(r, attempt);
        r := Grade(r);
      }
    }

    /** The bounded loop; leaving it without a verdict of 0 is the `else` of the source's `for`. */
    method CycleUntilGreen(start: StateObject) returns (o: Outcome)
      requires AtLoopHead(start, 0) && mon.stage == Did(Planner)
      modifies this, start
      ensures Valid() && Quiet()
      ensures o.Going? || o.Raised? || (o.Refused? && o.falsifiedBy == [])
      ensures o.Raised? ==> MayFail(mon)
      ensures o.Refused? ==> MayAbort(RulesOf(input), mon, [])
      ensures o.Refused? ==>
                && mon.exit != Some(0)
                && mon.passes == if input.maxCoderRetries < 0 then 0 else input.maxCoderRetries + 1
      ensures o.Going? ==>
                && fresh(o.state) && Holding(o.state) && mon.stage == GradedPass && mon.exit == Some(0)
                && mon.head == o.state.v.headCommit && LastPush(activities).Some?
                && o.state.v.ciResult.Some? && o.state.v.ciResult.value.exitCode == 0
    {
      var state: StateObject, attempt := start, 0;
      while attempt < MaxPasses(input)
        invariant attempt <= MaxPasses(input) && AtLoopHead(state, attempt)
        invariant state == start || fresh(state)
        decreases MaxPasses(input) - attempt
      {
        var r := Pass(state, attempt);
        if r == null { return Raised; }
        if r.v.ciResult.Some? && r.v.ciResult.value.exitCode == 0 { return Going(r); }
        state, attempt := r, attempt + 1;
      }
      return Refused("retry budget exhausted", []);
    }

    // -------------------------------------------------------------- the fan-out

    /** Every verifier's activity is dispatched with the same brief. */
    method Dispatch(shown: FlowState)
      requires Valid() && AllBelow(activities, seqNo) && IsBrief(shown)
      modifies this`activities
      ensures Valid()
      ensures activities == old(activities) + Dispatched(judge, shown, seqNo)
      ensures LastPush(activities) == old(LastPush(activities)) && Pushes(activities) == old(Pushes(activities))
    {
      var all := Dispatched(judge, shown, seqNo);
      ChecksKeepRecord(RulesOf(input), trail, activities, effects, seqNo, mon, owed, all);
      MergedGrows(activities, all);
      activities := activities + all;
    }

    /** `gather`: verifiers finish in any order, and the first failure interrupts the wait. */
    method Gather(shown: FlowState) returns (ok: bool)
      requires Valid() && Quiet() && mon.stage == Verifying && InHand(activities, shown)
      modifies this
      ensures Valid() && activities == old(activities) && status == old(status)
      ensures ok <==> AllAnswer(judge, shown)
      ensures ok ==> Quiet() && mon == old(mon) && trail == old(trail)
      ensures !ok ==> MayFail(mon)
    {
      var waiting := VERIFIERS;
      forall v: Verifier ensures v in waiting { assert waiting[Position(v)] == v; }
      while waiting != []
        invariant Valid() && Quiet() && mon == old(mon) && trail == old(trail) && activities == old(activities)
        invariant status == old(status)
        invariant forall v: Verifier :: v in waiting || judge(v, shown).Verdict?
        decreases |waiting|
      {
        Await();
        var k :| 0 <= k < |waiting|;
        var v := waiting[k];
        WithoutOne(waiting, k);
        waiting := waiting[..k] + waiting[k + 1..];
        var reply := judge(v, shown);
        if reply.Crashed? {
          Interrupt(v, shown, waiting);
          return false;
        }
        latest := new StateObject(Graded(shown, v, reply));
      }
      ok := true;
    }

    /** A verifier failed; its siblings go on beside the flow. */
    method Interrupt(v: Verifier, shown: FlowState, siblings: seq<Verifier>)
      requires Valid() && Quiet() && mon.stage == Verifying && InHand(activities, shown)
      modifies this
      ensures Valid() && MayFail(mon) && activities == old(activities) && status == old(status)
    {
      Record(NodeFailed(Check(v)));
      running, brief := siblings, shown;
      Await();
    }

    /** The answers are read back in declaration order, each with its row. */
    method ReadBack(hs: seq<Heard>, ghost t0: seq<Event>) returns (verdicts: seq<Verification>)
      requires Valid() && Quiet() && mon.stage == Verifying && mon.nextVerdict == 0
      requires (forall i | 0 <= i < |hs| :: Position(hs[i].verification.verifier) == i) && trail == t0
      modifies this
      ensures Valid() && Quiet() && mon == old(mon).(nextVerdict := mon.nextVerdict)
      ensures activities == old(activities) && status == old(status) && latest == old(latest)
      ensures trail == t0 + VerdictRows(hs, |t0|)
      ensures verdicts == Verdicts(hs)
    {
      var i := 0;
      verdicts := [];
      while i < |hs|
        invariant i <= |hs|
        invariant Valid() && Quiet() && mon == old(mon).(nextVerdict := mon.nextVerdict) && mon.nextVerdict <= i
        invariant activities == old(activities) && status == old(status) && latest == old(latest)
        invariant ReadUpTo(trail, t0, hs, i) && VerdictsUpTo(verdicts, hs, i)
        decreases |hs| - i
      {
        OneMoreRow(trail, t0, hs, i);
        OneMoreVerdict(verdicts, hs, i);
        ReadOne(hs[i], i);
        verdicts := verdicts + [hs[i].verification];
        i := i + 1;
      }
      AllRead(trail, t0, hs, verdicts);
    }

    /** The row of one verifier, if it wrote notes. */
    method ReadOne(h: Heard, i: nat)
      requires Valid() && Quiet() && mon.stage == Verifying && mon.nextVerdict <= i == Position(h.verification.verifier)
      modifies this
      ensures Valid() && Quiet() && mon == old(mon).(nextVerdict := mon.nextVerdict) && mon.nextVerdict <= i + 1
      ensures activities == old(activities) && status == old(status) && latest == old(latest)
      ensures trail == old(trail) + RowOf(h, |old(trail)|)
    {
      if h.notes != "" {
        Emit(VerifierVerdict(h.verification.verifier, h.notes));
      }
    }

    method Announce(state: StateObject)
      requires Holding(state) && mon.stage == Tiered
      modifies this
      ensures Holding(state) && AllBelow(activities, seqNo) && activities == old(activities) && status == old(status)
      ensures mon == old(mon).(stage := Verifying, nextVerdict := 0)
      ensures trail == old(trail) + [Event(old(seqNo) + 1, VerifiersStarted(|VERIFIERS|), None)]
    {
      Emit(VerifiersStarted(|VERIFIERS|));
    }

    /** The fan-out up to the point where every verifier has answered. */
    method FanOut(state: StateObject) returns (ok: bool)
      requires Holding(state) && mon.stage == Tiered
      modifies this
      ensures Valid() && LastPush(activities) == old(LastPush(activities)) && status == old(status)
      ensures ShownTo(activities, old(activities), Brief(old(state.v)))
      ensures ok <==> AllAnswer(judge, Brief(state.v))
      ensures !ok ==> MayFail(mon)
      ensures ok ==>
                && Quiet() && mon == old(mon).(stage := Verifying, nextVerdict := 0)
                && InHand(activities, state.v)
                && trail == old(trail) + [Event(old(seqNo) + 1, VerifiersStarted(|VERIFIERS|), None)]
    {
      Announce(state);
      var shown := Brief(state.v);
      DispatchedIsShown(activities, judge, shown, seqNo);
      Dispatch(shown);
      ok := Gather(shown);
    }

    /** The fan-out with its per-verifier rows. */
    method Collect(state: StateObject, ghost t0: seq<Event>)
      returns (ok: bool, hs: seq<Heard>, verdicts: seq<Verification>)
      requires Holding(state) && mon.stage == Tiered && trail == t0
      modifies this
      ensures Valid() && LastPush(activities) == old(LastPush(activities)) && status == old(status)
      ensures ShownTo(activities, old(activities), Brief(old(state.v)))
      ensures ok <==> AllAnswer(judge, Brief(state.v))
      ensures !ok ==> MayFail(mon)
      ensures ok ==>
                && Quiet() && mon == old(mon).(stage := Verifying, nextVerdict := mon.nextVerdict)
                && InHand(activities, state.v)
                && hs == AllHeard(judge, Brief(state.v)) && verdicts == Verdicts(hs)
                && (forall v: Verifier :: ReadOff(judge, state.v, v))
                && ReadAll(trail, t0, hs)
    {
      hs, verdicts := [], [];
      ok := FanOut(state);
      if ok {
        hs := AllHeard(judge, Brief(state.v));
        forall v: Verifier ensures ReadOff(judge, state.v, v) { GradedParts(judge, state.v, v); }
        RowsAfterTheFirst(trail, t0, hs);
        verdicts := ReadBack(hs, trail);
      }
    }

    /** What was gathered is summed, and the fan-out's leftover state is replaced. */
    method Conclude(state: StateObject, hs: seq<Heard>, verdicts: seq<Verification>, ghost s0: FlowState,
                    ghost t0: seq<Event>)
      requires Valid() && Quiet() && mon.stage == Verifying && InHand(activities, s0) && state.v == s0
      requires verdicts == Verdicts(hs) && ReadAll(trail, t0, hs)
      modifies this, state
      ensures Holding(state) && activities == old(activities) && status == old(status)
      ensures state.v == Gathered(s0, hs)
      ensures mon == old(mon).(stage := Verified, falsified := Falsifying(state.v.verifications))
      ensures FannedOut(trail, t0, s0, hs)
    {
      state.v := state.v.(
        spend := Combine([state.v.spend] + Amounts(hs)),
        verifications := state.v.verifications + verdicts
      );
      RowsWithTheLast(trail, t0, s0, hs);
      CloseFanOut(state);
    }

    /** The completing row, after which the latest state is the flow's own again. */
    method CloseFanOut(state: StateObject)
      requires Valid() && Quiet() && mon.stage == Verifying && InHand(activities, state.v)
      modifies this
      ensures Holding(state) && activities == old(activities) && status == old(status)
      ensures mon == old(mon).(stage := Verified, falsified := Falsifying(state.v.verifications))
      ensures trail == old(trail) + [Completion(|old(trail)| + 1, state.v.verifications)]
    {
      Emit(VerifiersCompleted(PassedCount(state.v.verifications), Falsifying(state.v.verifications)));
      latest := state;
    }

    /** `_verify`: `false` when a verifier's activity failed. */
    method Verify(state: StateObject, ghost s0: FlowState, ghost t0: seq<Event>) returns (ok: bool)
      requires Holding(state) && mon.stage == Tiered && state.v == s0 && trail == t0
      modifies this, state
      ensures Valid() && LastPush(activities) == old(LastPush(activities)) && status == old(status)
      ensures ShownTo(activities, old(activities), Brief(s0))
      ensures ok <==> AllAnswer(judge, Brief(s0))
      ensures !ok ==> MayFail(mon)
      ensures ok ==>
                && Holding(state) && state.v == Gathered(s0, AllHeard(judge, Brief(s0)))
                && FannedOut(trail, t0, s0, AllHeard(judge, Brief(s0)))
                && trail != [] && Tells(trail[|trail| - 1], state.v.verifications)
                && mon == old(mon).(stage := Verified, nextVerdict := mon.nextVerdict,
                   falsified := Falsifying(state.v.verifications))
    {
      var hs, verdicts;
      ok, hs, verdicts := Collect(state, t0);
      if ok {
        Conclude(state, hs, verdicts, s0, t0);
        EndsInCompletion(trail, t0, s0, hs);
      }
    }

    // -------------------------------------------------------------- review and gate

    /** The change survived the review: no blocking verifier objects, and advisory objections have their row. */
    ghost predicate Reviewed(state: StateObject)
      reads this, latest, state
    {
      && Holding(state)
      && (mon.stage == Verified || mon.stage == OverrideNoted)
      && ObjectionsNoted(RulesOf(input), mon) && NothingBlocks(RulesOf(input), mon)
      && Unblocked(state.v, Blocking(input))
    }

    /** What the verdicts lead to. */
    method Review(state: StateObject) returns (o: Outcome)
      requires Holding(state) && mon.stage == Verified && mon.falsified == Falsifying(state.v.verifications)
      modifies this, state
      ensures Valid() && Quiet() && activities == old(activities) && status == old(status)
      ensures o == Going(state) || o.Refused?
      ensures o.Refused? ==> MayAbort(RulesOf(input), mon, o.falsifiedBy)
      ensures o.Refused? ==> o.falsifiedBy != []
      ensures SplitsObjections(input, old(state.v).verifications, if o.Refused? then o.falsifiedBy else [],
                               state.v.advisoryObjections)
      ensures if state.v.advisoryObjections == [] then trail == old(trail)
              else LastRow(trail, VerifierOverridden(state.v.advisoryObjections))
      ensures o.Going? ==> Reviewed(state) && mon == old(mon).(stage := mon.stage)
      ensures o.Going? ==> state.v == old(state.v).(advisoryObjections := state.v.advisoryObjections)
    {
      ObjectionsAreSplit(input, state.v.verifications);
      var named := Falsifying(state.v.verifications);
      var falsified, overridden := Among(named, Blocking(input), true), Among(named, Blocking(input), false);
      state.v := state.v.(advisoryObjections := overridden);
      if overridden != [] {
        Emit(VerifierOverridden(overridden));
      }
      if falsified != [] {
        return Refused("a verifier falsified the change", falsified);
      }
      NoBlockerMeansUnblocked(state.v, Blocking(input));
      AmongCovers(named, Blocking(input));
      return Going(state);
    }

    /** A preview of the pushed commit, if the platform published one. */
    method ShowPreview(state: StateObject)
      requires Holding(state) && (mon.stage == Verified || mon.stage == OverrideNoted) && mon.head == state.v.headCommit
      requires ObjectionsNoted(RulesOf(input), mon) && NothingBlocks(RulesOf(input), mon)
      modifies this
      ensures Holding(state) && activities == old(activities) && status == old(status)
      ensures mon == old(mon).(stage := mon.stage) && ObjectionsNoted(RulesOf(input), mon)
      ensures mon.stage == old(mon.stage) || mon.stage == PreviewNoted
    {
      if Truthy(state.v.headCommit) {
        var preview: string := *;
        Await();
        if preview != "" {
          Emit(PreviewPublished(preview, state.v.headCommit.value));
        }
      }
    }

    /** The preview, and the gate's own row. */
    method ReachGate(state: StateObject)
      requires Reviewed(state) && mon.tier == Some(state.v.tier) && mon.head == state.v.headCommit
      modifies this
      ensures Holding(state) && activities == old(activities) && status == old(status)
      ensures mon == old(mon).(stage := AtGate, needed := RequiredApprovals(state.v.tier))
    {
      ShowPreview(state);
      Emit(GateReached(state.v.tier, RequiredApprovals(state.v.tier)));
    }

    /** The run is suspended at its gate: nobody has rejected, and too few have approved. */
    ghost predicate Paused()
      reads this`running, this`mon, this`status, this`approvals
    {
      Quiet() && mon.stage == AtGate && mon.needed > 0 && status == Suspended && !Decided(approvals, mon.needed)
    }

    /** Suspended until the decisions suffice. */
    method AwaitDecision(needed: nat) returns (w: GateWait)
      requires Valid() && Quiet() && needed > 0
      modifies this
      ensures Valid() && Quiet() && mon == old(mon) && latest == old(latest) && activities == old(activities)
      ensures w == DecisionCame ==> Decided(approvals, needed) && status == Running
      ensures w == StillSuspended ==> !Decided(approvals, needed)
      ensures w != DecisionCame ==> status == Suspended
    {
      status := Suspended;
      Await();  // the status row
      var notified: bool := *;
      Await();  // the notification, three attempts at most
      if !notified { return NoticeFailed; }
      Await();
      if !Decided(approvals, needed) { return StillSuspended; }
      ghost var decided := approvals;
      status := Running;
      Await();  // the status row
      DecidedIsStable(decided, approvals, needed);
      return DecisionCame;
    }

    method RecordDecisions(state: StateObject, needed: nat)
      requires Holding(state) && needed == RequiredApprovals(state.v.tier) && needed > 0 && Decided(approvals, needed)
      modifies state
      ensures Holding(state)
      ensures state.v == old(state.v).(approvals := Recorded(approvals, old(state.v).tier))
      ensures Rejecting(state.v.approvals) || Approved(state.v)
    {
      RecordedKeepsApprovals(approvals, state.v.tier);
      RecordedKeepsRejections(approvals, state.v.tier);
      state.v := state.v.(approvals := Recorded(approvals, state.v.tier));
    }

    /** The decisions are recorded on the state, and a rejection among them ends the run. */
    method Settle(state: StateObject, needed: nat) returns (o: Outcome)
      requires Holding(state) && mon.stage == AtGate && mon.needed == needed == RequiredApprovals(state.v.tier)
      requires needed > 0 && Decided(approvals, needed)
      modifies this, state
      ensures Holding(state) && activities == old(activities)
      ensures state.v == old(state.v).(approvals := Recorded(old(approvals), old(state.v).tier))
      ensures o == Going(state) || o == Refused("rejected by an approver", [])
      ensures o.Going? ==> mon == old(mon).(stage := GateOpen) && Approved(state.v)
      ensures o.Refused? ==> MayAbort(RulesOf(input), mon, [])
      ensures o.Refused? <==> Rejecting(state.v.approvals)
    {
      RecordDecisions(state, needed);
      if Rejecting(state.v.approvals) {
        Emit(GateRejected);
        return Refused("rejected by an approver", []);
      }
      Emit(GatePassed(false));
      return Going(state);
    }

    /** `_gate`. */
    method Gate(state: StateObject) returns (o: Outcome)
      requires Reviewed(state) && mon.tier == Some(state.v.tier) && mon.head == state.v.headCommit
      modifies this, state
      ensures Valid() && Quiet() && activities == old(activities)
      ensures state.v == old(state.v).(approvals := state.v.approvals)
      ensures o == Going(state) || o == Raised || o == Waiting || o.Refused?
      ensures o.Going? ==> Holding(state) && mon.stage == GateOpen && mon.head == old(mon.head) && Approved(state.v)
      ensures o.Going? ==> state.v.tier == Low || (state.v.tier == Medium && Approving(state.v.approvals) >= 1)
                           || (state.v.tier == High && Approving(state.v.approvals) >= 2)
      ensures o.Refused? ==> o.falsifiedBy == [] && MayAbort(RulesOf(input), mon, []) && Rejecting(state.v.approvals)
      ensures o.Raised? ==> MayFail(mon)
      ensures state.v.tier == Low ==> o.Going?
      ensures o.Waiting? ==> Paused()
    {
      var needed := RequiredApprovals(state.v.tier);
      ReachGate(state);
      if needed == 0 {
        Emit(GatePassed(true));
        return Going(state);
      }
      var w := AwaitDecision(needed);
      match w
      case DecisionCame => o := Settle(state, needed);
      case NoticeFailed => o := Raised;
      case StillSuspended => o := Waiting;
    }

    // -------------------------------------------------------------- the run

    /** The pushed change was graded 0, and the trail knows its commit. */
    ghost predicate Green(state: StateObject)
      reads this, latest, state
    {
      && Holding(state) && LastPush(activities).Some? && mon.head == state.v.headCommit
      && state.v.ciResult.Some? && state.v.ciResult.value.exitCode == 0
    }

    /** The second tiering stage, over the diff as it is. */
    method SettleTier(state: StateObject)
      requires Green(state) && mon.stage == GradedPass && mon.exit == Some(0)
      modifies this, state
      ensures Green(state) && mon.stage == Tiered && mon.tier == Some(state.v.tier) && status == old(status)
      ensures state.v.tier == FinalTier(old(state.v.tier), Paths(old(state.v)), input.riskRules)
      ensures var reason := TierForDiff(old(state.v.tier), Paths(old(state.v)), input.riskRules).1;
              && state.v == old(state.v).(tier := state.v.tier, tierReason := Some(reason),
                                          provisionalTier := Some(old(state.v.tier)))
              && LastRow(trail, RiskTierFinal(state.v.tier, old(state.v.tier), reason, |Paths(old(state.v))|))
    {
      if state.v.isolation.Some? {
        Emit(SandboxIsolation(state.v.isolation.value));
      }
      var provisional, paths := state.v.tier, Paths(state.v);
      var (proposed, reason) := TierForDiff(provisional, paths, input.riskRules);
      state.v := state.v.(
        tier := RaiseTo(provisional, proposed),
        tierReason := Some(reason),
        provisionalTier := Some(provisional)
      );
      Emit(RiskTierFinal(state.v.tier, provisional, reason, |paths|));
    }

    /** The fan-out, with what the rest of the run needs to know of it. */
    method VerifyGreen(state: StateObject) returns (ok: bool)
      requires Green(state) && mon.stage == Tiered && mon.tier == Some(state.v.tier)
      modifies this, state
      ensures Valid()
      ensures !ok ==> MayFail(mon)
      ensures ok ==> Green(state) && mon.stage == Verified && mon.tier == Some(state.v.tier)
      ensures ok ==> mon.falsified == Falsifying(state.v.verifications)
    {
      ok := Verify(state, state.v, trail);
    }

    /** Fan-out and review. */
    method VerifyAndReview(state: StateObject) returns (o: Outcome)
      requires Green(state) && mon.stage == Tiered && mon.tier == Some(state.v.tier)
      modifies this, state
      ensures Valid()
      ensures o == Going(state) || o == Raised || o.Refused?
      ensures o.Going? ==> Green(state) && Reviewed(state) && mon.tier == Some(state.v.tier)
      ensures o.Refused? ==> Quiet() && MayAbort(RulesOf(input), mon, o.falsifiedBy)
      ensures o.Raised? ==> MayFail(mon)
    {
      var ok := VerifyGreen(state);
      if !ok { return Raised; }
      o := Review(state);
    }

    /** Fan-out, review and gate. */
    method Judge(state: StateObject) returns (o: Outcome)
      requires Green(state) && mon.stage == Tiered && mon.tier == Some(state.v.tier)
      modifies this, state
      ensures Valid()
      ensures o == Going(state) || o == Raised || o == Waiting || o.Refused?
      ensures o.Going? ==>
                Green(state) && mon.stage == GateOpen && Approved(state.v) && Unblocked(state.v, Blocking(input))
      ensures o.Refused? ==> Quiet() && MayAbort(RulesOf(input), mon, o.falsifiedBy)
      ensures o.Waiting? ==> Paused()
      ensures o.Raised? ==> MayFail(mon)
    {
      o := VerifyAndReview(state);
      if o.Going? { o := Gate(state); }
    }

    /** No row is owed any more: there was none to write, or it was written. */
    ghost predicate ReleaseIsOver()
      reads this`mon, this`owed
    {
      mon.stage == Effected || (mon.stage == Did(Release) && owed == None)
    }

    /** The release and, if it merged, the one row that claims control. */
    method ReleaseStep(state: StateObject) returns (o: Outcome)
      requires Green(state) && mon.stage == GateOpen && Approved(state.v) && Unblocked(state.v, Blocking(input))
      modifies this
      ensures Valid() && Quiet()
      ensures o.Going? || o.Raised?
      ensures o.Going? ==> fresh(o.state) && Holding(o.state) && ReleaseIsOver()
      ensures o.Going? ==> (mon.stage == Effected <==> Truthy(o.state.v.mergedCommit))
      ensures o.Raised? ==> MayFail(mon)
    {
      var r, a := NodeStep(Release, state.v);
      if r == null { return Raised; }
      ClaimControl(r);
      return Going(r);
    }

    /** The one row that claims control, if the release names a merge. */
    method ClaimControl(released: StateObject)
      requires Holding(released) && mon.stage == Did(Release)
               && (owed.Some? ==> owed == released.v.mergedCommit && Truthy(owed))
      modifies this
      ensures Holding(released) && activities == old(activities) && ReleaseIsOver()
      ensures mon.stage == Effected <==> Truthy(released.v.mergedCommit)
      ensures Truthy(released.v.mergedCommit) ==>
                LastRow(trail, ExternalEffect(released.v.mergedCommit.value, released.v.branch, released.v.baseBranch,
                                              released.v.tier))
    {
      if Truthy(released.v.mergedCommit) {
        Emit(ExternalEffect(released.v.mergedCommit.value, released.v.branch, released.v.baseBranch, released.v.tier));
      }
    }

    /** `_deliver`. */
    method Deliver(start: FlowState) returns (o: Outcome)
      requires Valid() && Quiet() && mon == START && activities == [] && Untouched(start)
      modifies this
      ensures Valid()
      ensures o.Going? ==> fresh(o.state) && Holding(o.state) && ReleaseIsOver()
      ensures o.Refused? ==> Quiet() && MayAbort(RulesOf(input), mon, o.falsifiedBy)
      ensures o.Waiting? ==> Paused()
      ensures o.Raised? ==> MayFail(mon)
    {
      var planned := TriageAndPlan(start);
      if planned == null { return Raised; }
      o := CycleUntilGreen(planned);
      if o.Going? { o := AfterGreen(o.state); }
    }

    method TriageAndPlan(start: FlowState) returns (r: StateObject?)
      requires Valid() && Quiet() && mon == START && activities == [] && Untouched(start)
      modifies this
      ensures Valid() && Quiet()
      ensures r == null ==> MayFail(mon)
      ensures r != null ==> fresh(r) && AtLoopHead(r, 0) && mon.stage == Did(Planner)
    {
      ghost var a;
      r, a := NodeStep(Triage, start);
      LastPushGrows([], a);
      if r != null {
        ghost var h := activities;
        r, a := NodeStep(Planner, r.v);
        LastPushGrows(h, a);
      }
    }

    method AfterGreen(state: StateObject) returns (o: Outcome)
      requires Green(state) && mon.stage == GradedPass && mon.exit == Some(0)
      modifies this, state
      ensures Valid()
      ensures o.Going? ==> fresh(o.state) && Holding(o.state) && ReleaseIsOver()
      ensures o.Refused? ==> Quiet() && MayAbort(RulesOf(input), mon, o.falsifiedBy)
      ensures o.Waiting? ==> Paused()
      ensures o.Raised? ==> MayFail(mon)
    {
      SettleTier(state);
      o := Judge(state);
      if o.Going? { o := ReleaseStep(state); }
    }

    /** Whether the run failed or was aborted is as it was. */
    twostate predicate SameEnd()
      reads this`mon
    {
      mon.failed == old(mon.failed) && mon.aborted == old(mon.aborted)
    }

    /** The status of a run that comes to its end without having failed. */
    ghost predicate StatusFits()
      reads this`mon, this`status
    {
      !mon.failed ==> status == if mon.aborted then Rejected else Succeeded
    }

    /** The compensating node, on the state that knows most. */
    method CompensateStep(doomed: FlowState) returns (r: StateObject?, ghost a: Activity)
      requires Valid() && (mon.stage == Aborting || mon.stage == Failing) && InHand(activities, doomed)
      modifies this
      ensures Valid() && (old(Quiet()) ==> Quiet()) && status == old(status) && SameEnd()
      ensures activities == old(activities) + [a] && Answered(a, Compensate, doomed, r)
      ensures r != null ==> fresh(r) && InHand(activities, r.v) && mon.stage == Did(Compensate)
      ensures r == null ==> mon.stage == Broke(Compensate)
    {
      r, a := NodeStep(Compensate, doomed);
      if r != null { StaysInHandAfter(old(activities), a, r.v); }
    }

    /** A row for what the cleanup did, if it did anything. */
    method EmitCleanup(s: FlowState)
      requires Valid() && mon.stage == Did(Compensate)
      modifies this
      ensures Valid() && (old(Quiet()) ==> Quiet()) && status == old(status) && activities == old(activities)
      ensures Admits(NodeStarted(Reporter)) && SameEnd()
      ensures Truthy(s.cleanup) && old(running) == [] ==> LastRow(trail, CleanedUp(s.cleanup.value))
    {
      if Truthy(s.cleanup) {
        Emit(CleanedUp(s.cleanup.value));
      }
    }

    /** Cleanup after an abort or a failure. */
    method CleanUp(doomed: FlowState) returns (r: StateObject?, ghost a: Activity)
      requires Valid() && (mon.stage == Aborting || mon.stage == Failing) && InHand(activities, doomed)
      modifies this
      ensures Valid() && (old(Quiet()) ==> Quiet()) && status == old(status) && SameEnd()
      ensures activities == old(activities) + [a] && Answered(a, Compensate, doomed, r)
      ensures r != null ==> InHand(activities, r.v) && Admits(NodeStarted(Reporter))
      ensures r == null ==> mon.stage == Broke(Compensate)
    {
      r, a := CompensateStep(doomed);
      if r != null { EmitCleanup(r.v); }
    }

    /** `_finish`: the row with the cost, and the end of the run's own row. */
    method Finish()
      requires Valid() && mon.stage == Did(Reporter)
      modifies this
      ensures Valid() && (old(Quiet()) ==> Quiet()) && status == old(status) && mon.stage == Costed && SameEnd()
      ensures activities == old(activities)
      ensures Quiet() && old(Quiet()) ==>
                LastRow(trail, RunCost(if latest != null then latest.v.spend else Some(0))) && latest == old(latest)
    {
      Emit(RunCost(if latest != null then latest.v.spend else Some(0)));
      Await();
    }

    /** The reporting node. */
    method ReportStep(s: FlowState) returns (r: StateObject?, ghost a: Activity)
      requires Valid() && Admits(NodeStarted(Reporter)) && InHand(activities, s)
      modifies this
      ensures Valid() && (old(Quiet()) ==> Quiet()) && SameEnd() && status == old(status)
      ensures activities == old(activities) + [a] && a.node == Reporter && (r == null <==> a.output.None?)
      ensures if r == null then mon.stage == Broke(Reporter) else mon.stage == Did(Reporter)
      ensures r != null ==> ReportedAs(a, r.v.tier)
    {
      r, a := NodeStep(Reporter, s);
    }

    /** The reporter and the closing rows; `None` when the reporter raises. */
    method Report(s: FlowState) returns (r: Option<FlowResult>, ghost a: Activity)
      requires Valid() && Admits(NodeStarted(Reporter)) && InHand(activities, s) && StatusFits()
      modifies this
      ensures Valid() && (old(Quiet()) ==> Quiet()) && SameEnd() && status == old(status)
      ensures activities == old(activities) + [a] && a.node == Reporter
      ensures r.Some? <==> a.output.Some?
      ensures if r.Some? then mon.stage == Costed else mon.stage == Broke(Reporter)
      ensures r.Some? && old(Quiet()) ==> Finished(r.value)
    {
      var reported;
      r := None;
      reported, a := ReportStep(s);
      if reported == null { return; }
      Finish();
      r := Some(FlowResult(input.runId, status, reported.v.tier, seqNo));
    }

    /** What a result says of the run it closes: its last activity is the report, its last row the cost. */
    ghost predicate Finished(r: FlowResult)
      reads this
    {
      && mon.stage == Costed && !mon.failed && Quiet()
      && r.runId == input.runId && r.events == |trail|
      && r.status == (if mon.aborted then Rejected else Succeeded)
      && trail != [] && trail[|trail| - 1].kind.RunCost?
      && activities != [] && ReportedAs(activities[|activities| - 1], r.tier)
    }

    /** The latest published state, or the one the run started from. */
    function Latest(start: FlowState): FlowState
      reads this, latest
    {
      if latest == null then start else latest.v
    }

    /** `_Rejected`, caught. The doomed state is marked with whom it failed; nobody else holds it by now. */
    method Abort(start: FlowState, reason: string, names: seq<Verifier>)
      returns (r: Option<FlowResult>, ghost closing: seq<Activity>)
      requires Valid() && Quiet() && MayAbort(RulesOf(input), mon, names) && Untouched(start)
      modifies this
      ensures Valid() && Quiet()
      ensures activities == old(activities) + closing && Closes(old(activities), closing, mon.stage)
      ensures status == Rejected && mon.aborted && closing[0].input.rejectedBy == names
      ensures r.Some? <==> |closing| == 2 && closing[1].output.Some?
      ensures r.Some? ==> Finished(r.value)
      ensures r.None? ==> mon.stage == Broke(Compensate) || mon.stage == Broke(Reporter)
    {
      var cleaned, a := AbortAndClean(start, reason, names);
      closing := [a];
      status := Rejected;
      r := None;
      if cleaned != null {
        ghost var f;
        r, f := Report(cleaned.v);
        closing := [a, f];
      }
    }

    method AbortAndClean(start: FlowState, reason: string, names: seq<Verifier>)
      returns (r: StateObject?, ghost a: Activity)
      requires Valid() && Quiet() && MayAbort(RulesOf(input), mon, names) && Untouched(start)
      modifies this
      ensures Valid() && Quiet() && mon.aborted
      ensures activities == old(activities) + [a] && Compensates(old(activities), a) && (r == null <==> a.output.None?)
      ensures a.input.rejectedBy == names
      ensures r != null ==> InHand(activities, r.v) && Admits(NodeStarted(Reporter))
      ensures r == null ==> mon.stage == Broke(Compensate)
    {
      var doomed := Doom(start, reason, names);
      r, a := CleanUp(doomed);
    }

    method Doom(start: FlowState, reason: string, names: seq<Verifier>) returns (doomed: FlowState)
      requires Valid() && Quiet() && MayAbort(RulesOf(input), mon, names) && Untouched(start)
      modifies this
      ensures Valid() && Quiet() && mon.stage == Aborting && activities == old(activities)
      ensures InHand(activities, doomed) && doomed == old(Latest(start)).(rejectedBy := names)
      ensures mon.aborted && LastRow(trail, AbortingRun(reason, names))
    {
      Emit(AbortingRun(reason, names));
      doomed := Latest(start).(rejectedBy := names);
      if latest != null { latest := new StateObject(doomed); }
    }

    /** Any other exception, caught and raised again once the run has been closed down. */
    method Fail(start: FlowState) returns (ghost closing: seq<Activity>)
      requires Valid() && MayFail(mon) && Untouched(start)
      modifies this
      ensures Valid() && mon.failed && status == FailedStatus
      ensures activities == old(activities) + closing && Closes(old(activities), closing, mon.stage)
    {
      var cleaned, a := FailAndClean(start);
      closing := [a];
      status := FailedStatus;
      if cleaned != null {
        var ended, f := Report(cleaned.v);
        closing := [a, f];
      }
    }

    method FailAndClean(start: FlowState) returns (r: StateObject?, ghost a: Activity)
      requires Valid() && MayFail(mon) && Untouched(start)
      modifies this
      ensures Valid() && mon.failed
      ensures activities == old(activities) + [a] && Compensates(old(activities), a) && (r == null <==> a.output.None?)
      ensures r != null ==> InHand(activities, r.v) && Admits(NodeStarted(Reporter))
    {
      Emit(RunFailed);
      r, a := CleanUp(Latest(start));
    }

    /**
     `run`: `None` is a run that raises or is still suspended. A result says succeeded exactly if nothing
     on the trail records an abort and rejected exactly if something does; it names the run, counts its
     rows, and has the tier of the state the reporter returned.
     */
    method Run() returns (r: Option<FlowResult>)
      requires Valid() && mon == START && Quiet() && activities == [] && latest == null
      modifies this
      ensures Valid()
      ensures r.Some? ==> Finished(r.value)
      ensures r.Some? ==>
                && r.value.runId == input.runId && r.value.events == |trail|
                && (r.value.status == Succeeded <==> forall i | 0 <= i < |trail| :: !trail[i].kind.AbortingRun?)
                && (r.value.status == Rejected <==> exists i | 0 <= i < |trail| :: trail[i].kind.AbortingRun?)
      ensures r.Some? ==>
                && activities != [] && activities[|activities| - 1].node == Reporter
                && activities[|activities| - 1].output.Some?
                && r.value.tier == activities[|activities| - 1].output.value.tier
      ensures r.None? ==> mon.failed || Paused() || mon.stage == Broke(Compensate) || mon.stage == Broke(Reporter)
      ensures mon.failed ==> status == FailedStatus
    {
      var start := Fresh(input.runId, input.lineage, input.ticket, input.policyCommit, input.provisionalTier);
      Await();  // the row of the run itself
      var o := Deliver(start);
      r := Close(o, start);
      RemembersFailure(RulesOf(input), trail);
    }

    /** What `run` does with each way `_deliver` can end. */
    method Close(o: Outcome, start: FlowState) returns (r: Option<FlowResult>)
      requires Valid() && Untouched(start)
      requires o.Going? ==> Holding(o.state) && ReleaseIsOver()
      requires o.Refused? ==> Quiet() && MayAbort(RulesOf(input), mon, o.falsifiedBy)
      requires o.Raised? ==> MayFail(mon)
      requires o.Waiting? ==> Paused()
      modifies this
      ensures Valid()
      ensures r.Some? ==> Finished(r.value)
      ensures r.None? ==> mon.failed || Paused() || mon.stage == Broke(Compensate) || mon.stage == Broke(Reporter)
      ensures mon.failed ==> status == FailedStatus
    {
      match o
      case Going(state) =>
        status := Succeeded;
        AbortIsClosing(RulesOf(input), trail);
        ghost var f;
        r, f := Report(state.v);
      case Refused(reason, names) =>
        ghost var closing;
        r, closing := Abort(start, reason, names);
      case Raised =>
        ghost var closing := Fail(start);
        r := None;
      case Waiting => r := None;
    }

    /** The activity ran the node on `s` and `r` holds what it returned, without its notes. */
    ghost predicate Answered(a: Activity, n: NodeId, s: FlowState, r: StateObject?)
      reads r
    {
      && a.node == n && a.input == s
      && (r == null <==> a.output.None?)
      && (r != null ==> Gave(a, n, s, r.v))
    }
  }

  /** The report returned a state of that tier. */
  predicate ReportedAs(a: Activity, tier: Tier) {
    a.node == Reporter && a.output.Some? && a.output.value.tier == tier
  }

  /** The activity returned a state of the node's making, which `v` is but for its notes. */
  ghost predicate Gave(a: Activity, n: NodeId, s: FlowState, v: FlowState) {
    a.output.Some? && Does(n, s, a.output.value) && v.(notes := "") == a.output.value.(notes := "")
  }

  lemma StaysInHandAfter(h: seq<Activity>, a: Activity, s: FlowState)
    requires a.node == Compensate && a.output.Some? && InHand(h, a.input) && Does(Compensate, a.input, a.output.value)
    requires s == a.output.value.(notes := "")
    ensures InHand(h + [a], s)
  {
    StaysInHand(h, a);
  }

  /** A node that answers leaves the flow holding what was pushed last, which push alone changes. */
  lemma StaysInHand(h: seq<Activity>, a: Activity)
    requires !a.node.Check? && a.output.Some? && Does(a.node, a.input, a.output.value) && InHand(h, a.input)
    ensures InHand(h + [a], a.output.value)
  {
    LastPushGrows(h, a);
    MergedGrows(h, [a]);
    if a.node == Release { ReleasesMerge(a); }
    assert MergeOf(a).Some? ==> MergedAt(h + [a], |h|, MergeOf(a).value);
  }

  /** A release that changes the merged commit has asked for the merge, and the policy allows it. */
  lemma ReleasesAsk(s: FlowState, p: MergePolicy, reply: ReleaseReply, notes: Notes)
    requires Released(s, p, reply, notes).Some? && Released(s, p, reply, notes).value.mergedCommit != s.mergedCommit
    ensures AskedToMerge(s, ReleaseEffects(s, p, reply))
  {
    var es := ReleaseEffects(s, p, reply);
    assert es == [Opened(s.branch.value, s.baseBranch.value)] + [MergeAsked(s.headCommit.value, p, s)];
    assert MergeAsked(s.headCommit.value, p, s) in es;
  }

  lemma ReleasesMerge(a: Activity)
    requires a.node == Release && a.output.Some? && Does(Release, a.input, a.output.value)
    ensures a.output.value.mergedCommit == a.input.mergedCommit || MergeOf(a).Some?
  {
    var p, reply :| Released(a.input, p, reply, a.output.value.notes) == a.output;
  }
}
