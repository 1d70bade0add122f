/**
 The GitHub push as it is written, one request after another, with everybody else moving in between;
 and what the push protocol says once the run's real messages and edits are put into it.
 */
module GitHubPush {
  import opened Options
  import opened Globs
  import opened Policy
  import opened FlowModel
  import opened CommitMessage
  import opened Trees
  import opened PushProtocol

  // ---------------------------------------------------------------- what happens between two requests

  /** What execution `e` may find changed: the graph and the landings grow, its own progress does not. */
  ghost predicate Between(p: Plan, s: State, e: nat, t: State) {
    && Inv(p, t)
    && s.commits <= t.commits && s.landed <= t.landed
    && e < |s.runs| <= |t.runs| && t.runs[e] == s.runs[e]
  }

  predicate Concerns(step: Step, e: nat) {
    match step
    case ReadTip(x) => x == e
    case ReadMessage(x) => x == e
    case PostCommit(x) => x == e
    case MoveRef(x) => x == e
    case Crash(x) => x == e
    case _ => false
  }

  /** Every step of anybody else, deletions included, is such a change; and so is any number of them. */
  lemma OthersStayBetween(p: Plan, s: State, e: nat, t: State, step: Step)
    requires DistinctMessages(p) && Between(p, s, e, t) && Enabled(p, t, step) && Fair(p, step) && !Concerns(step, e)
    ensures Between(p, s, e, Next(p, t, step))
  {
    StepKeepsInv(p, t, step);
  }

  // ---------------------------------------------------------------- the push itself

  class Remote {
    const plan: Plan
    const others: (State, nat, nat) -> State
    var st: State

    constructor (p: Plan, s: State, others: (State, nat, nat) -> State)
      requires DistinctMessages(p) && Inv(p, s)
      requires OthersBehave(p, others)
      ensures Valid() && plan == p && st == s && this.others == others
    {
      plan, st, this.others := p, s, others;
    }

    ghost predicate Valid()
      reads this
    {
      DistinctMessages(plan) && OthersBehave(plan, others) && Inv(plan, st)
    }

    /** Nobody else ever moves. */
    ghost predicate Idle() {
      NobodyMoves(others)
    }

    /** Everybody else moves. */
    method Interfere(e: nat)
      requires Valid() && e < |st.runs|
      modifies this`st
      ensures Valid() && Between(plan, old(st), e, st)
      ensures Idle() ==> st == old(st)
    {
      var chance: nat := *;
      ghost var before := st;
      Behaved(plan, others, st, e, chance);
      if Idle() { NothingMoves(others, st, e, chance); }
      st := others(st, e, chance);
    }

    /** The server answers one request of execution `e`. */
    method Serve(step: Step)
      requires Valid() && Enabled(plan, st, step) && !step.Foreign?
      modifies this`st
      ensures Valid() && st == Next(plan, old(st), step)
    {
      StepKeepsInv(plan, st, step);
      st := Next(plan, st, step);
    }

    /** The next request of execution `e`. */
    method Send(e: nat, step: Step)
      requires Valid() && e < |st.runs| && !Done(st.runs[e].at) && step == Request(e, st.runs[e].at)
      modifies this`st
      ensures Enabled(plan, old(st), step)
      ensures Valid() && st == Next(plan, old(st), step) && e < |st.runs|
      ensures Alone(plan, st, e) == Alone(plan, old(st), e)
    {
      RequestIsEnabled(plan, st, e);
      Serve(step);
    }

    /** The push node: the check first, and only if it passes an execution is started. */
    method PushNode() returns (r: Option<nat>)
      requires Valid()
      modifies this`st
      ensures Valid()
      ensures !plan.passes(old(st.attempt)) ==> r == None && st == old(st)
      ensures r.Some? ==>
                && plan.passes(old(st.attempt)) && r.value in st.landed
                && Of(plan, st.commits, r.value, old(st.attempt))
                && st.commits[r.value].tree == Apply(st.commits[plan.base].tree, plan.edits(old(st.attempt)))
      ensures Idle() ==>
                var handed := match old(st.head) case Some(previous) => previous case None => plan.base;
                r.Some? <==>
                && plan.passes(old(st.attempt)) && plan.edits(old(st.attempt)) != []
                && (|| old(st.tip) == None || old(st.tip) == Some(handed)
                    || Carries(old(st.commits), old(st.tip).value, plan.message(old(st.attempt))))
    {
      if !plan.passes(st.attempt) { return None; }
      var e := |st.runs|;
      Serve(Step.Begin);
      r := Push(e);
    }

    /**
     `_push`, for an execution that was just started. `None` is the error it raises; on success the
     commit it names carries the attempt's message, was on the branch and holds base plus edits. When
     nobody moves, whether it succeeds and what lands is settled by where the branch was.
     */
    method Push(e: nat) returns (r: Option<nat>)
      requires Valid() && e < |st.runs| && st.runs[e].at == Begun
      modifies this`st
      ensures Valid() && e < |st.runs| && old(st.commits) <= st.commits && old(st.landed) <= st.landed
      ensures st.runs[e] == old(st).runs[e].(at := if r.Some? then Returned(r.value) else Stopped)
      ensures r.Some? ==> plan.edits(st.runs[e].attempt) != []
      ensures r.Some? ==>
                && r.value in st.landed && r.value < |st.commits|
                && st.commits[r.value].message == plan.message(st.runs[e].attempt)
                && st.commits[r.value].tree == Apply(st.commits[plan.base].tree, plan.edits(st.runs[e].attempt))
      ensures Idle() && plan.edits(st.runs[e].attempt) != [] ==> Owed(plan, old(st), e, st)
      ensures Idle() ==>
                var x := old(st).runs[e];
                var handed := match x.parent case Some(previous) => previous case None => plan.base;
                r.Some? <==>
                && plan.edits(x.attempt) != []
                && (|| old(st.tip) == None || old(st.tip) == Some(handed)
                    || Carries(old(st.commits), old(st.tip).value, plan.message(x.attempt)))
    {
      UndisturbedPush(plan, st, e);
      var me := st.runs[e];
      var message, expected := plan.message(me.attempt), ExpectedTip(plan, me);
      if plan.edits(me.attempt) == [] {
        Serve(Crash(e));  // an empty change is refused before any request
        return None;
      }
      Interfere(e);
      var existing := st.tip;
      Send(e, ReadTip(e));
      Interfere(e);
      if existing.Some? {
        var found := Compare(e, existing.value, message, expected);
        if found == Mine { ReturnedCommitLanded(plan, st, e); return existing; }
        if found == Moved { return None; }
      }
      r := Build(e, existing, message, expected);
    }

    /** The message on the tip, and whether this push may go on. */
    method Compare(e: nat, tip: nat, message: string, expected: nat) returns (found: Comparison)
      requires Valid() && e < |st.runs| && st.runs[e].at == Saw(tip)
      requires message == plan.message(st.runs[e].attempt) && expected == ExpectedTip(plan, st.runs[e])
      modifies this`st
      ensures Valid() && e < |st.runs| && old(st.commits) <= st.commits && old(st.landed) <= st.landed
      ensures st.runs[e] == old(st).runs[e].(at :=
                match found case Mine => Returned(tip) case Moved => Stopped case Expected => Building(Some(tip)))
      ensures found == Mine <==> Carries(old(st.commits), tip, message)
      ensures found == Moved <==>
                && !Carries(old(st.commits), tip, message)
                && tip != (match old(st).runs[e].parent case Some(previous) => previous case None => plan.base)
      ensures Idle() ==> Alone(plan, st, e) == Alone(plan, old(st), e)
    {
      assert GoodRun(plan, st, e);
      var read := st.commits[tip].message;
      Send(e, ReadMessage(e));
      found := if read == message then Mine else if tip != expected then Moved else Expected;
      Interfere(e);
    }

    /** The new commit on the base tree, and the move of the ref. */
    method Build(e: nat, existing: Option<nat>, message: string, expected: nat) returns (r: Option<nat>)
      requires Valid() && e < |st.runs| && st.runs[e].at == Building(existing)
      requires message == plan.message(st.runs[e].attempt) && expected == ExpectedTip(plan, st.runs[e])
      modifies this`st
      ensures Valid() && e < |st.runs| && old(st.commits) <= st.commits && old(st.landed) <= st.landed
      ensures st.runs[e] == old(st).runs[e].(at := if r.Some? then Returned(r.value) else Stopped)
      ensures r.Some? ==>
                && r.value in st.landed && r.value < |st.commits|
                && st.commits[r.value].message == message
                && st.commits[r.value].tree == Apply(st.commits[plan.base].tree, plan.edits(st.runs[e].attempt))
      ensures Idle() ==> st == Alone(plan, old(st), e)
    {
      assert GoodRun(plan, st, e);
      var baseTree := st.commits[plan.base].tree;
      var entries := TreeEntries(plan.edits(st.runs[e].attempt));
      EntriesAmountToEdits(baseTree, plan.edits(st.runs[e].attempt), entries);
      var commit := Commit(Some(expected), message, Posted(baseTree, entries));
      var id := |st.commits|;
      Send(e, PostCommit(e));
      assert st.commits[id] == commit;
      Interfere(e);
      var moved := Allows(st, existing, id);
      Send(e, MoveRef(e));
      if !moved { return None; }
      ReturnedCommitLanded(plan, st, e);
      r := Some(id);
    }
  }

  datatype Comparison = Mine | Moved | Expected

  ghost predicate OthersBehave(p: Plan, others: (State, nat, nat) -> State) {
    forall s: State, e: nat, k: nat :: Inv(p, s) && e < |s.runs| ==> Between(p, s, e, others(s, e, k))
  }

  lemma Behaved(p: Plan, others: (State, nat, nat) -> State, s: State, e: nat, k: nat)
    requires OthersBehave(p, others) && Inv(p, s) && e < |s.runs|
    ensures Between(p, s, e, others(s, e, k))
  {}

  ghost predicate NobodyMoves(others: (State, nat, nat) -> State) {
    forall s: State, e: nat, k: nat :: others(s, e, k) == s
  }

  lemma NothingMoves(others: (State, nat, nat) -> State, s: State, e: nat, k: nat)
    requires NobodyMoves(others)
    ensures others(s, e, k) == s
  {}

  // ---------------------------------------------------------------- the run's own plan

  /** The plan of a run whose states differ, as far as messages go, in the attempt alone. */
  function PlanOf(s: FlowState, base: nat, edits: nat -> seq<Edit>): Plan {
    Plan(base, (k: nat) => Message(s.(pushAttempt := k)), edits, (k: nat) => NotProtected(EditPaths(edits(k))))
  }

  /** Its messages are an idempotency key: each names one attempt. */
  lemma MessagesAreAKey(s: FlowState, base: nat, edits: nat -> seq<Edit>)
    requires SingleLine(s)
    ensures DistinctMessages(PlanOf(s, base, edits))
  {
    var p := PlanOf(s, base, edits);
    forall j, k | p.message(j) == p.message(k) ensures j == k {
      MessagesIdentifyThePush(s.(pushAttempt := j), s.(pushAttempt := k));
    }
  }

  /** And no commit another run made with the same function carries one of them. */
  lemma OtherRunsDoNotCollide(s: FlowState, t: FlowState, base: nat, edits: nat -> seq<Edit>)
    requires SingleLine(s) && SingleLine(t) && s.runId != t.runId
    ensures !IsOwn(PlanOf(s, base, edits), Message(t))
  {
    var p := PlanOf(s, base, edits);
    forall k ensures p.message(k) != Message(t) {
      if p.message(k) == Message(t) {
        MessagesIdentifyThePush(s.(pushAttempt := k), t);
      }
    }
  }

  /**
   Protected content is invariant along the branch: on any commit of the run that is or was on it,
   every protected path has its base content, whatever the attempts wanted to push.
   */
  lemma ProtectedContentIsInvariant(s: FlowState, base: nat, edits: nat -> seq<Edit>,
                                    st: State, c: nat, k: nat, path: string)
    requires var p := PlanOf(s, base, edits); Inv(p, st) && c in st.landed && Of(p, st.commits, c, k)
    requires Protected(path) && forall e | e in edits(k) :: GitStyle(e.path)
    ensures At(st.commits[c].tree, path) == At(st.commits[base].tree, path)
  {
    var p := PlanOf(s, base, edits);
    assert HoldsItsEdits(p, st.commits, c) && p.passes(k);
    ProtectedContentStays(st.commits[base].tree, edits(k), path);
  }

  /** The paths checked, read off the diff, are those of the edits pushed: the coder makes both from one map. */
  lemma CheckedIsPushed(before: FlowState, coded: FlowState, pushed: FlowState)
    requires Does(Coder, before, coded)
    ensures Paths(coded) == EditPaths(coded.edits)
    ensures Does(Push, coded, pushed) ==> NotProtected(EditPaths(coded.edits))
  {
    assert |Paths(coded)| == |coded.edits|;
  }
}
