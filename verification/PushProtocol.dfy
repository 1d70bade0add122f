/**
 The branch push (`engine/adapters/scm/github.py`, `engine/nodes/push.py`) as it really runs: an
 activity delivered at least once, whose executions overlap, crash between any two requests and linger
 into later attempts, against a server that refuses to create a branch that exists and refuses updates
 that are not fast-forward, while others push to the same branch or delete it.
 */
module PushProtocol {
  import opened Options
  import opened FlowModel
  import opened Trees

  /** A commit on the server; its number is its identity and exceeds its parent's. */
  datatype Commit = Commit(parent: Option<nat>, message: string, tree: Tree)

  /** The run: the pinned base, what each attempt pushes under which message, and whether its paths pass the check. */
  datatype Plan = Plan(base: nat, message: nat -> string, edits: nat -> seq<Edit>, passes: nat -> bool)

  /** How far an execution got: the next request it sends depends on nothing else. */
  datatype Progress =
    | Begun
    | Saw(tip: nat)
    | Building(existing: Option<nat>)
    | Made(commit: nat, existing: Option<nat>)
    | Returned(result: nat)
    | Stopped

  datatype Execution = Execution(attempt: nat, parent: Option<nat>, at: Progress)

  /**
   `attempt` and `head` are the flow's: the attempt it is on and what the previous one returned.
   `landed` remembers every commit that was ever on the branch.
   */
  datatype State = State(
    commits: seq<Commit>,
    tip: Option<nat>,
    runs: seq<Execution>,
    attempt: nat,
    head: Option<nat>,
    landed: set<nat>
  )

  // ---------------------------------------------------------------- the commit graph

  predicate Acyclic(commits: seq<Commit>) {
    forall i | 0 <= i < |commits| :: ParentBelow(commits, i)
  }

  predicate ParentBelow(commits: seq<Commit>, i: nat)
    requires i < |commits|
  {
    commits[i].parent.Some? ==> commits[i].parent.value < i
  }

  /** The commit and everything it is built on. */
  function History(commits: seq<Commit>, c: nat): set<nat>
    requires c < |commits| && Acyclic(commits)
  {
    {c} + (
      assert ParentBelow(commits, c);
      if commits[c].parent.Some? then History(commits, commits[c].parent.value) else {})
  }

  lemma {:induction false} HistoryBelow(commits: seq<Commit>, c: nat)
    requires c < |commits| && Acyclic(commits)
    ensures c in History(commits, c)
    ensures forall x | x in History(commits, c) :: x <= c
  {
    assert ParentBelow(commits, c);
    if commits[c].parent.Some? { HistoryBelow(commits, commits[c].parent.value); }
  }

  lemma {:induction false} HistoryIsClosed(commits: seq<Commit>, c: nat, x: nat)
    requires c < |commits| && Acyclic(commits) && x in History(commits, c)
    ensures x < |commits| && History(commits, x) <= History(commits, c)
  {
    HistoryBelow(commits, c);
    assert ParentBelow(commits, c);
    if x != c { HistoryIsClosed(commits, commits[c].parent.value, x); }
  }

  /** One parent each: of two commits in one history, one is in the other's. */
  lemma {:induction false} HistoryIsLinear(commits: seq<Commit>, c: nat, x: nat, y: nat)
    requires c < |commits| && Acyclic(commits) && x in History(commits, c) && y in History(commits, c)
    ensures x < |commits| && y < |commits|
    ensures x in History(commits, y) || y in History(commits, x)
  {
    HistoryBelow(commits, c);
    assert ParentBelow(commits, c);
    if x != c && y != c { HistoryIsLinear(commits, commits[c].parent.value, x, y); }
  }

  lemma {:induction false} HistoryIsPermanent(commits: seq<Commit>, more: seq<Commit>, c: nat)
    requires c < |commits| && Acyclic(commits) && Acyclic(commits + more)
    ensures History(commits + more, c) == History(commits, c)
  {
    assert ParentBelow(commits, c);
    if commits[c].parent.Some? { HistoryIsPermanent(commits, more, commits[c].parent.value); }
  }

  // ---------------------------------------------------------------- steps

  datatype Step =
    | Begin
    | ReadTip(e: nat)
    | ReadMessage(e: nat)
    | PostCommit(e: nat)
    | MoveRef(e: nat)
    | Crash(e: nat)
    | Accept(e: nat)
    | Foreign(parent: nat, message: string, tree: Tree)
    | DeleteBranch

  function ExpectedTip(p: Plan, e: Execution): nat {
    if e.parent.Some? then e.parent.value else p.base
  }

  function Advance(s: State, e: nat, at: Progress): State
    requires e < |s.runs|
  {
    s.(runs := s.runs[e := s.runs[e].(at := at)])
  }

  /** The branch now points to `c`. */
  function Land(s: State, c: nat): State
    requires c < |s.commits| && Acyclic(s.commits)
  {
    s.(tip := Some(c), landed := s.landed + History(s.commits, c))
  }

  /** Whether the server lets the ref move: creation only if absent, update only if fast-forward. */
  predicate Allows(s: State, existing: Option<nat>, c: nat)
    requires c < |s.commits| && Acyclic(s.commits)
  {
    if existing.None? then s.tip.None? else s.tip.Some? && s.tip.value in History(s.commits, c)
  }

  predicate Enabled(p: Plan, s: State, step: Step) {
    && Acyclic(s.commits) && p.base < |s.commits|
    && (s.tip.Some? ==> s.tip.value < |s.commits|)
    && match step
       // The node checks the paths of the diff before it pushes anything.
       case Begin => p.passes(s.attempt)
       case ReadTip(e) => e < |s.runs| && s.runs[e].at == Begun
       case ReadMessage(e) => e < |s.runs| && s.runs[e].at.Saw? && s.runs[e].at.tip < |s.commits|
       case PostCommit(e) => e < |s.runs| && s.runs[e].at.Building? && ExpectedTip(p, s.runs[e]) < |s.commits|
       case MoveRef(e) => e < |s.runs| && s.runs[e].at.Made? && s.runs[e].at.commit < |s.commits|
       case Crash(e) => e < |s.runs|
       case Accept(e) => e < |s.runs| && s.runs[e].at.Returned? && s.runs[e].attempt == s.attempt
       case Foreign(parent, message, _) =>
         && parent < |s.commits| && (s.tip.Some? ==> s.tip.value in History(s.commits, parent))
       case DeleteBranch => true
  }

  /** One request, one crash, or one move of somebody else. */
  function Next(p: Plan, s: State, step: Step): State
    requires Enabled(p, s, step)
  {
    match step
    case Begin => s.(runs := s.runs + [Execution(s.attempt, s.head, Begun)])
    case ReadTip(e) => Advance(s, e, if s.tip.Some? then Saw(s.tip.value) else Building(None))
    case ReadMessage(e) =>
      var x, t := s.runs[e], s.runs[e].at.tip;
      // The idempotency key: its own message on the tip is its own push, already landed.
      if s.commits[t].message == p.message(x.attempt) then Advance(s, e, Returned(t))
      else if t != ExpectedTip(p, x) then Advance(s, e, Stopped)
      else Advance(s, e, Building(Some(t)))
    case PostCommit(e) =>
      var x := s.runs[e];
      var c := Commit(Some(ExpectedTip(p, x)), p.message(x.attempt), Apply(s.commits[p.base].tree, p.edits(x.attempt)));
      Advance(s, e, Made(|s.commits|, x.at.existing)).(commits := s.commits + [c])
    case MoveRef(e) =>
      var at := s.runs[e].at;
      if Allows(s, at.existing, at.commit) then Land(Advance(s, e, Returned(at.commit)), at.commit)
      else Advance(s, e, Stopped)
    case Crash(e) => Advance(s, e, Stopped)
    case Accept(e) => s.(head := Some(s.runs[e].at.result), attempt := s.attempt + 1)
    case Foreign(parent, message, tree) =>
      var commits := s.commits + [Commit(Some(parent), message, tree)];
      GraphGrows(s.commits, Commit(Some(parent), message, tree));
      Land(s.(commits := commits), |s.commits|)
    case DeleteBranch => s.(tip := None)
  }

  lemma GraphGrows(commits: seq<Commit>, c: Commit)
    requires Acyclic(commits) && (c.parent.Some? ==> c.parent.value < |commits|)
    ensures Acyclic(commits + [c])
    ensures forall x | 0 <= x < |commits| :: History(commits + [c], x) == History(commits, x)
    ensures c.parent.Some? ==> History(commits + [c], |commits|) == {|commits|} + History(commits, c.parent.value)
  {
    var more := commits + [c];
    forall i | 0 <= i < |more| ensures ParentBelow(more, i) {
      if i < |commits| { assert ParentBelow(commits, i); }
    }
    forall x | 0 <= x < |commits| ensures History(more, x) == History(commits, x) {
      HistoryIsPermanent(commits, [c], x);
    }
  }

  // ---------------------------------------------------------------- what the run relies on

  /** Equal messages mean the same attempt. */
  ghost predicate DistinctMessages(p: Plan) {
    forall j, k :: p.message(j) == p.message(k) ==> j == k
  }

  ghost predicate IsOwn(p: Plan, message: string) {
    exists k :: p.message(k) == message
  }

  /** Before the run pushes, nothing in the repository carries one of its messages. */
  ghost predicate Initial(p: Plan, s: State) {
    && Acyclic(s.commits) && p.base < |s.commits|
    && (s.tip.Some? ==> s.tip.value < |s.commits|)
    && (forall c | 0 <= c < |s.commits| :: !IsOwn(p, s.commits[c].message))
    && s.runs == [] && s.attempt == 0 && s.head == None
    && s.landed == if s.tip.Some? then History(s.commits, s.tip.value) else {}
  }

  /** Others do not imitate the run's messages. */
  ghost predicate Fair(p: Plan, step: Step) {
    step.Foreign? ==> !IsOwn(p, step.message)
  }

  // ---------------------------------------------------------------- the invariant

  ghost predicate Of(p: Plan, commits: seq<Commit>, c: nat, k: nat) {
    c < |commits| && commits[c].message == p.message(k)
  }

  /** Below a commit of attempt `a`, only earlier attempts of this run are found. */
  ghost predicate Tidy(p: Plan, commits: seq<Commit>, x: nat)
    requires x < |commits| && Acyclic(commits)
  {
    forall y, a, b | y in History(commits, x) && y != x && Of(p, commits, x, a) && Of(p, commits, y, b) :: b < a
  }

  /** A commit of attempt `a` holds the base with the edits of attempt `a`, which passed the check. */
  ghost predicate HoldsItsEdits(p: Plan, commits: seq<Commit>, x: nat)
    requires x < |commits| && p.base < |commits|
  {
    forall a | Of(p, commits, x, a) :: p.passes(a) && commits[x].tree == Apply(commits[p.base].tree, p.edits(a))
  }

  ghost predicate GoodGraph(p: Plan, commits: seq<Commit>) {
    && Acyclic(commits) && p.base < |commits|
    && !IsOwn(p, commits[p.base].message)
    && (forall y | y in History(commits, p.base) :: y < |commits| && !IsOwn(p, commits[y].message))
    && (forall x | 0 <= x < |commits| :: Tidy(p, commits, x))
    && (forall x | 0 <= x < |commits| :: HoldsItsEdits(p, commits, x))
  }

  ghost predicate GoodProgress(p: Plan, s: State, x: Execution) {
    match x.at
    case Begun => true
    case Saw(t) => t < |s.commits| && t in s.landed
    case Building(existing) => existing.Some? ==> existing.value in s.landed
    case Made(c, existing) => Of(p, s.commits, c, x.attempt)
    case Returned(c) => Of(p, s.commits, c, x.attempt) && c in s.landed
    case Stopped => true
  }

  /** What an execution is handed: the previous attempt's commit, or nothing on the first. */
  ghost predicate GoodInput(p: Plan, commits: seq<Commit>, attempt: nat, parent: Option<nat>) {
    if parent.None? then attempt == 0 else attempt > 0 && Of(p, commits, parent.value, attempt - 1)
  }

  ghost predicate GoodRun(p: Plan, s: State, e: nat)
    requires e < |s.runs|
  {
    && p.passes(s.runs[e].attempt)
    && GoodInput(p, s.commits, s.runs[e].attempt, s.runs[e].parent) && GoodProgress(p, s, s.runs[e])
  }

  ghost predicate Inv(p: Plan, s: State) {
    && GoodGraph(p, s.commits)
    && (s.tip.Some? ==> s.tip.value < |s.commits| && s.tip.value in s.landed)
    && (forall c | c in s.landed :: c < |s.commits|)
    && GoodInput(p, s.commits, s.attempt, s.head)
    && (forall e | 0 <= e < |s.runs| :: GoodRun(p, s, e))
  }

  lemma InitialIsGood(p: Plan, s: State)
    requires Initial(p, s)
    ensures Inv(p, s)
  {
    HistoryBelow(s.commits, p.base);
    if s.tip.Some? { HistoryBelow(s.commits, s.tip.value); }
    forall x | 0 <= x < |s.commits| ensures Tidy(p, s.commits, x) && HoldsItsEdits(p, s.commits, x) {
      assert !IsOwn(p, s.commits[x].message);
    }
  }

  // ---------------------------------------------------------------- every step keeps the invariant

  lemma OwnCommitKeepsGraph(p: Plan, commits: seq<Commit>, attempt: nat, parent: Option<nat>)
    requires GoodGraph(p, commits) && DistinctMessages(p) && GoodInput(p, commits, attempt, parent) && p.passes(attempt)
    ensures var c := Commit(Some(if parent.Some? then parent.value else p.base), p.message(attempt),
                            Apply(commits[p.base].tree, p.edits(attempt)));
            GoodGraph(p, commits + [c])
  {
    var on := if parent.Some? then parent.value else p.base;
    var c := Commit(Some(on), p.message(attempt), Apply(commits[p.base].tree, p.edits(attempt)));
    var more, n := commits + [c], |commits|;
    GraphGrows(commits, c);
    HistoryBelow(commits, on);
    forall y, a, b | y in History(more, n) && y != n && Of(p, more, n, a) && Of(p, more, y, b) ensures b < a {
      assert y in History(commits, on) && Of(p, commits, y, b) && IsOwn(p, commits[y].message);
      if parent.Some? && y != on { assert Tidy(p, commits, on); }
    }
    assert Tidy(p, more, n) && HoldsItsEdits(p, more, n);
    OldCommitsStayGood(p, commits, c);
  }

  lemma OldCommitsStayGood(p: Plan, commits: seq<Commit>, c: Commit)
    requires GoodGraph(p, commits) && c.parent.Some? && c.parent.value < |commits|
    ensures Acyclic(commits + [c])
    ensures forall x | 0 <= x < |commits| :: Tidy(p, commits + [c], x) && HoldsItsEdits(p, commits + [c], x)
    ensures forall y | y in History(commits + [c], p.base) ::
            y < |commits + [c]| && !IsOwn(p, (commits + [c])[y].message)
  {
    GraphGrows(commits, c);
    forall x | 0 <= x < |commits| ensures Tidy(p, commits + [c], x) && HoldsItsEdits(p, commits + [c], x) {
      assert Tidy(p, commits, x) && HoldsItsEdits(p, commits, x);
      HistoryBelow(commits, x);
      forall y, a, b | y in History(commits + [c], x) && y != x && Of(p, commits + [c], x, a)
        && Of(p, commits + [c], y, b)
        ensures b < a
      {
        assert Of(p, commits, x, a) && Of(p, commits, y, b);
      }
      forall a | Of(p, commits + [c], x, a) ensures Of(p, commits, x, a) {}
    }
  }

  lemma ForeignCommitKeepsGraph(p: Plan, commits: seq<Commit>, c: Commit)
    requires GoodGraph(p, commits) && c.parent.Some? && c.parent.value < |commits| && !IsOwn(p, c.message)
    ensures GoodGraph(p, commits + [c])
  {
    OldCommitsStayGood(p, commits, c);
    var more, n := commits + [c], |commits|;
    forall a ensures !Of(p, more, n, a) {}
    assert Tidy(p, more, n) && HoldsItsEdits(p, more, n);
  }

  /** Executions are indifferent to a longer graph and to further landings. */
  lemma RunsStayGood(p: Plan, s: State, t: State)
    requires s.commits <= t.commits && s.landed <= t.landed
    requires forall e | 0 <= e < |s.runs| :: GoodRun(p, s, e)
    ensures forall e | 0 <= e < |s.runs| ::
              p.passes(s.runs[e].attempt) && GoodInput(p, t.commits, s.runs[e].attempt, s.runs[e].parent)
                && GoodProgress(p, t, s.runs[e])
    ensures forall attempt, parent :: GoodInput(p, s.commits, attempt, parent) ==>
            GoodInput(p, t.commits, attempt, parent)
  {
    forall e | 0 <= e < |s.runs|
      ensures p.passes(s.runs[e].attempt) && GoodInput(p, t.commits, s.runs[e].attempt, s.runs[e].parent)
              && GoodProgress(p, t, s.runs[e])
    {
      assert GoodRun(p, s, e);
    }
  }

  lemma LandingsAreCommits(commits: seq<Commit>, c: nat, landed: set<nat>)
    requires c < |commits| && Acyclic(commits) && forall x | x in landed :: x < |commits|
    ensures forall x | x in landed + History(commits, c) :: x < |commits|
    ensures c in landed + History(commits, c)
  {
    HistoryBelow(commits, c);
  }

  /** A step that only moves one execution on. */
  lemma AdvanceKeeps(p: Plan, s: State, e: nat, at: Progress)
    requires Inv(p, s) && e < |s.runs| && GoodProgress(p, s, s.runs[e].(at := at))
    ensures Inv(p, Advance(s, e, at))
  {
    var t := Advance(s, e, at);
    RunsStayGood(p, s, t);
    assert GoodRun(p, s, e);
  }

  lemma PostKeeps(p: Plan, s: State, e: nat)
    requires Inv(p, s) && DistinctMessages(p) && Enabled(p, s, PostCommit(e))
    ensures Inv(p, Next(p, s, PostCommit(e)))
  {
    var x, t := s.runs[e], Next(p, s, PostCommit(e));
    assert GoodRun(p, s, e);
    OwnCommitKeepsGraph(p, s.commits, x.attempt, x.parent);
    RunsStayGood(p, s, t);
  }

  lemma MoveKeeps(p: Plan, s: State, e: nat)
    requires Inv(p, s) && Enabled(p, s, MoveRef(e))
    ensures Inv(p, Next(p, s, MoveRef(e)))
  {
    var at := s.runs[e].at;
    assert GoodRun(p, s, e);
    if Allows(s, at.existing, at.commit) {
      LandingsAreCommits(s.commits, at.commit, s.landed);
      RunsStayGood(p, s, Next(p, s, MoveRef(e)));
    } else {
      AdvanceKeeps(p, s, e, Stopped);
    }
  }

  lemma ForeignKeeps(p: Plan, s: State, step: Step)
    requires Inv(p, s) && step.Foreign? && Fair(p, step) && Enabled(p, s, step)
    ensures Inv(p, Next(p, s, step))
  {
    var c := Commit(Some(step.parent), step.message, step.tree);
    ForeignCommitKeepsGraph(p, s.commits, c);
    LandingsAreCommits(s.commits + [c], |s.commits|, s.landed);
    RunsStayGood(p, s, Next(p, s, step));
  }

  lemma StepKeepsInv(p: Plan, s: State, step: Step)
    requires Inv(p, s) && DistinctMessages(p) && Enabled(p, s, step) && Fair(p, step)
    ensures Inv(p, Next(p, s, step))
  {
    match step
    case Begin => RunsStayGood(p, s, Next(p, s, step));
    case ReadTip(e) => AdvanceKeeps(p, s, e, if s.tip.Some? then Saw(s.tip.value) else Building(None));
    case ReadMessage(e) =>
      assert GoodRun(p, s, e);
      AdvanceKeeps(p, s, e, Next(p, s, step).runs[e].at);
    case PostCommit(e) => PostKeeps(p, s, e);
    case MoveRef(e) => MoveKeeps(p, s, e);
    case Crash(e) => AdvanceKeeps(p, s, e, Stopped);
    case Accept(e) =>
      assert GoodRun(p, s, e);
      RunsStayGood(p, s, Next(p, s, step));
    case Foreign(_, _, _) => ForeignKeeps(p, s, step);
    case DeleteBranch => RunsStayGood(p, s, Next(p, s, step));
  }

  // ---------------------------------------------------------------- at any moment

  /** The branch, at any moment, holds at most one commit of each attempt of the run. */
  lemma AtMostOnePerAttempt(p: Plan, s: State, k: nat, x: nat, y: nat)
    requires Inv(p, s) && s.tip.Some?
    requires x in History(s.commits, s.tip.value) && y in History(s.commits, s.tip.value)
    requires Of(p, s.commits, x, k) && Of(p, s.commits, y, k)
    ensures x == y
  {
    HistoryIsLinear(s.commits, s.tip.value, x, y);
    assert Tidy(p, s.commits, x) && Tidy(p, s.commits, y);
  }

  /** What a push returns is this attempt's commit, was on the branch, and holds base plus its edits. */
  lemma ReturnedCommitLanded(p: Plan, s: State, e: nat)
    requires Inv(p, s) && e < |s.runs| && s.runs[e].at.Returned?
    ensures var c := s.runs[e].at.result;
            && c in s.landed && c < |s.commits|
            && s.commits[c].message == p.message(s.runs[e].attempt)
            && s.commits[c].tree == Apply(s.commits[p.base].tree, p.edits(s.runs[e].attempt))
  {
    assert GoodRun(p, s, e);
    assert HoldsItsEdits(p, s.commits, s.runs[e].at.result);
  }

  /** No move of the branch but its deletion ever takes a commit off it. */
  lemma NothingIsDropped(p: Plan, s: State, step: Step)
    requires Inv(p, s) && Enabled(p, s, step) && step != DeleteBranch && s.tip.Some?
    ensures var t := Next(p, s, step);
            && t.tip.Some? && t.tip.value < |t.commits| && Acyclic(t.commits)
            && History(s.commits, s.tip.value) <= History(t.commits, t.tip.value)
  {
    match step
    case PostCommit(e) =>
      var x := s.runs[e];
      GraphGrows(s.commits, Commit(Some(ExpectedTip(p, x)), p.message(x.attempt),
                                   Apply(s.commits[p.base].tree, p.edits(x.attempt))));
    case MoveRef(e) =>
      if Allows(s, s.runs[e].at.existing, s.runs[e].at.commit) {
        HistoryIsClosed(s.commits, s.runs[e].at.commit, s.tip.value);
      }
    case Foreign(parent, message, tree) =>
      GraphGrows(s.commits, Commit(Some(parent), message, tree));
      HistoryIsClosed(s.commits, parent, s.tip.value);
    case _ =>
  }

  /**
   A retry after a push that landed and was not acknowledged: if its commit is the tip when the retry
   reads it, then whatever happens in between, the retry returns that commit and creates none.
   */
  lemma RetryReturnsTheLandedCommit(p: Plan, s: State, e: nat, later: State)
    requires Inv(p, s) && Enabled(p, s, ReadTip(e)) && s.tip.Some?
    requires Of(p, s.commits, s.tip.value, s.runs[e].attempt)
    requires s.commits <= later.commits && e < |later.runs| && later.runs[e] == Next(p, s, ReadTip(e)).runs[e]
    requires Enabled(p, later, ReadMessage(e))
    ensures Next(p, later, ReadMessage(e)) == Advance(later, e, Returned(s.tip.value))
  {}

  // ---------------------------------------------------------------- nobody in the way

  predicate Done(at: Progress) {
    at.Returned? || at.Stopped?
  }

  /** The request an execution sends next. */
  function Request(e: nat, at: Progress): Step
    requires !Done(at)
  {
    match at
    case Begun => ReadTip(e)
    case Saw(_) => ReadMessage(e)
    case Building(_) => PostCommit(e)
    case Made(_, _) => MoveRef(e)
  }

  function RequestsLeft(at: Progress): nat {
    match at case Begun => 4 case Saw(_) => 3 case Building(_) => 2 case Made(_, _) => 1 case _ => 0
  }

  lemma RequestIsEnabled(p: Plan, s: State, e: nat)
    requires Inv(p, s) && e < |s.runs| && !Done(s.runs[e].at)
    ensures Enabled(p, s, Request(e, s.runs[e].at))
  {
    assert GoodRun(p, s, e);
  }

  /** The state when an execution sends its remaining requests one after another, undisturbed. */
  ghost function Alone(p: Plan, s: State, e: nat): State
    requires DistinctMessages(p) && Inv(p, s) && e < |s.runs|
    decreases RequestsLeft(s.runs[e].at)
  {
    if Done(s.runs[e].at) then s
    else
      RequestIsEnabled(p, s, e);
      var step := Request(e, s.runs[e].at);
      StepKeepsInv(p, s, step);
      Alone(p, Next(p, s, step), e)
  }

  /**
   What an undisturbed push owes to whoever started it. Its own message on the tip: that commit is
   returned and nothing moves. No branch, or the tip it was handed (the previous attempt's commit, the
   base on the first attempt): one new commit lands on what was handed. Any other tip: it stops.
   */
  ghost predicate Owed(p: Plan, s: State, e: nat, t: State)
    requires Acyclic(s.commits) && p.base < |s.commits| && e < |s.runs|
  {
    var x := s.runs[e];
    var handed := match x.parent case Some(previous) => previous case None => p.base;
    var message, id := p.message(x.attempt), |s.commits|;
    if s.tip.Some? && Carries(s.commits, s.tip.value, message) then
      t == s.(runs := s.runs[e := x.(at := Returned(s.tip.value))])
    else if s.tip == None || s.tip == Some(handed) then
      && t.commits == s.commits + [Commit(Some(handed), message, Apply(s.commits[p.base].tree, p.edits(x.attempt)))]
      && t.tip == Some(id)
      && handed < id && t.landed == s.landed + {id} + History(s.commits, handed)
      && t.runs == s.runs[e := x.(at := Returned(id))]
      && t.attempt == s.attempt && t.head == s.head
    else t == s.(runs := s.runs[e := x.(at := Stopped)])
  }

  predicate Carries(commits: seq<Commit>, c: nat, message: string) {
    c < |commits| && commits[c].message == message
  }

  /** The two requests that build: the commit, and the ref if it may still move. */
  lemma BuildsAlone(p: Plan, s: State, e: nat, existing: Option<nat>, handed: nat)
    requires DistinctMessages(p) && Inv(p, s) && e < |s.runs| && s.runs[e].at == Building(existing)
    requires s.runs[e].parent == Some(handed) || (s.runs[e].parent == None && handed == p.base)
    requires s.tip == existing && (existing == None || existing == Some(handed))
    ensures var t, x, id := Alone(p, s, e), s.runs[e], |s.commits|;
            && t.commits
               == s.commits + [Commit(Some(handed), p.message(x.attempt),
                                      Apply(s.commits[p.base].tree, p.edits(x.attempt)))]
            && t.tip == Some(id)
            && handed < id && t.landed == s.landed + {id} + History(s.commits, handed)
            && t.runs == s.runs[e := x.(at := Returned(id))]
            && t.attempt == s.attempt && t.head == s.head
  {
    var x, id := s.runs[e], |s.commits|;
    assert GoodRun(p, s, e);
    StepKeepsInv(p, s, PostCommit(e));
    var made := Next(p, s, PostCommit(e));
    GraphGrows(s.commits, made.commits[id]);
    HistoryBelow(s.commits, handed);
    assert Allows(made, existing, id);
    StepKeepsInv(p, made, MoveRef(e));
    var t := Next(p, made, MoveRef(e));
    assert t.runs == s.runs[e := x.(at := Returned(id))];
    assert Alone(p, s, e) == Alone(p, made, e) == Alone(p, t, e) == t;
  }

  /** An execution that has read the tip and nothing else. */
  lemma ComparesAlone(p: Plan, s: State, e: nat, tip: nat, handed: nat)
    requires DistinctMessages(p) && Inv(p, s) && e < |s.runs| && s.runs[e].at == Saw(tip) && s.tip == Some(tip)
    requires s.runs[e].parent == Some(handed) || (s.runs[e].parent == None && handed == p.base)
    ensures Inv(p, s.(runs := s.runs[e := s.runs[e].(at := Building(Some(tip)))]))
    ensures var x := s.runs[e];
            tip < |s.commits| &&
            Alone(p, s, e) ==
            if s.commits[tip].message == p.message(x.attempt) then s.(runs := s.runs[e := x.(at := Returned(tip))])
            else if tip != handed then s.(runs := s.runs[e := x.(at := Stopped)])
            else Alone(p, s.(runs := s.runs[e := x.(at := Building(Some(tip)))]), e)
  {
    assert GoodRun(p, s, e);
    StepKeepsInv(p, s, ReadMessage(e));
    AdvanceKeeps(p, s, e, Building(Some(tip)));
    var told := Next(p, s, ReadMessage(e));
    assert Alone(p, s, e) == Alone(p, told, e);
  }

  /** From its first request on, an execution nobody disturbs does what it owes. */
  lemma UndisturbedPush(p: Plan, s: State, e: nat)
    requires DistinctMessages(p) && Inv(p, s) && e < |s.runs| && s.runs[e].at == Begun
    ensures Owed(p, s, e, Alone(p, s, e))
  {
    var x := s.runs[e];
    var handed := if x.parent.Some? then x.parent.value else p.base;
    StepKeepsInv(p, s, ReadTip(e));
    var read := Next(p, s, ReadTip(e));
    assert Alone(p, s, e) == Alone(p, read, e);
    if s.tip.None? {
      BuildsAlone(p, read, e, None, handed);
    } else {
      ComparesAlone(p, read, e, s.tip.value, handed);
      if s.commits[s.tip.value].message != p.message(x.attempt) && s.tip.value == handed {
        BuildsAlone(p, read.(runs := read.runs[e := x.(at := Building(s.tip))]), e, s.tip, handed);
      }
    }
  }

  /** The branch is where the flow left it: at the previous attempt's commit, or untouched before the first. */
  predicate InStep(p: Plan, s: State) {
    if s.head.Some? then s.tip == s.head else s.tip == None || s.tip == Some(p.base)
  }

  /** One pass of the flow's push: an execution, undisturbed, whose result the flow takes. */
  ghost function Pass(p: Plan, s: State): (t: State)
    requires DistinctMessages(p) && Inv(p, s) && InStep(p, s) && p.passes(s.attempt)
    ensures Inv(p, t) && InStep(p, t) && t.attempt == s.attempt + 1 && t.head == Some(|s.commits|)
    ensures t.commits == s.commits
                         + [Commit(Some(if s.head.Some? then s.head.value else p.base),
                                   p.message(s.attempt), Apply(s.commits[p.base].tree, p.edits(s.attempt)))]
  {
    PassLands(p, s);
    Next(p, Alone(p, Next(p, s, Begin), |s.runs|), Accept(|s.runs|))
  }

  lemma {:induction false} AloneKeepsInv(p: Plan, s: State, e: nat)
    requires DistinctMessages(p) && Inv(p, s) && e < |s.runs|
    ensures Inv(p, Alone(p, s, e))
    decreases RequestsLeft(s.runs[e].at)
  {
    if !Done(s.runs[e].at) {
      RequestIsEnabled(p, s, e);
      var step := Request(e, s.runs[e].at);
      StepKeepsInv(p, s, step);
      AloneKeepsInv(p, Next(p, s, step), e);
    }
  }

  lemma PassLands(p: Plan, s: State)
    requires DistinctMessages(p) && Inv(p, s) && InStep(p, s) && p.passes(s.attempt)
    ensures Enabled(p, s, Begin) && Inv(p, Next(p, s, Begin))
    ensures var e := |s.runs|;
            var t := Alone(p, Next(p, s, Begin), e);
            && Enabled(p, t, Accept(e))
            && Inv(p, Next(p, t, Accept(e))) && InStep(p, Next(p, t, Accept(e)))
            && t.attempt == s.attempt && t.runs[e].at == Returned(|s.commits|)
            && t.commits == s.commits
                            + [Commit(Some(if s.head.Some? then s.head.value else p.base),
                                      p.message(s.attempt), Apply(s.commits[p.base].tree, p.edits(s.attempt)))]
  {
    var e := |s.runs|;
    StepKeepsInv(p, s, Begin);
    var begun := Next(p, s, Begin);
    assert GoodRun(p, begun, e);
    HistoryBelow(s.commits, p.base);
    assert s.tip.Some? ==> !Carries(s.commits, s.tip.value, p.message(s.attempt));
    UndisturbedPush(p, begun, e);
    AloneKeepsInv(p, begun, e);
    StepKeepsInv(p, Alone(p, begun, e), Accept(e));
  }

  ghost function Passes(p: Plan, s: State, n: nat): (t: State)
    requires DistinctMessages(p) && Inv(p, s) && InStep(p, s)
    requires forall k | s.attempt <= k < s.attempt + n :: p.passes(k)
    ensures Inv(p, t) && InStep(p, t) && t.attempt == s.attempt + n
  {
    if n == 0 then s else Pass(p, Passes(p, s, n - 1))
  }

  /** What the `i`-th pass from `s` on adds: a commit on the one before it, with the tree of its own edits. */
  predicate Stacked(p: Plan, s: State, commits: seq<Commit>, i: nat)
    requires p.base < |s.commits| && |s.commits| + i < |commits|
  {
    var first := |s.commits|;
    var on := if i > 0 then first + i - 1 else match s.head case Some(previous) => previous case None => p.base;
    commits[first + i]
    == Commit(Some(on), p.message(s.attempt + i), Apply(s.commits[p.base].tree, p.edits(s.attempt + i)))
  }

  /** The branch after `n` passes, each of which landed its commit. */
  predicate Stack(p: Plan, s: State, t: State, n: nat)
    requires p.base < |s.commits|
  {
    && |t.commits| == |s.commits| + n && s.commits <= t.commits
    && (forall i | 0 <= i < n :: Stacked(p, s, t.commits, i))
    && t.tip == (if n == 0 then s.tip else Some(|s.commits| + n - 1))
    && t.head == (if n == 0 then s.head else Some(|s.commits| + n - 1))
    && t.attempt == s.attempt + n
  }

  lemma StackGrows(p: Plan, s: State, before: State, t: State, n: nat)
    requires p.base < |s.commits| && Stack(p, s, before, n)
    requires t.commits == before.commits
                          + [Commit(Some(if before.head.Some? then before.head.value else p.base),
                                    p.message(before.attempt),
                                    Apply(before.commits[p.base].tree, p.edits(before.attempt)))]
    requires t.tip == t.head == Some(|before.commits|) && t.attempt == before.attempt + 1
    ensures Stack(p, s, t, n + 1)
  {
    forall i | 0 <= i < n ensures Stacked(p, s, t.commits, i) {
      assert Stacked(p, s, before.commits, i);
    }
    assert Stacked(p, s, t.commits, n);
  }

  /** However many passes the loop needs, undisturbed they stack up. */
  lemma {:induction false} PassesStack(p: Plan, s: State, n: nat)
    requires DistinctMessages(p) && Inv(p, s) && InStep(p, s)
    requires forall k | s.attempt <= k < s.attempt + n :: p.passes(k)
    ensures Stack(p, s, Passes(p, s, n), n)
  {
    if n > 0 {
      PassesStack(p, s, n - 1);
      PassStacks(p, s, Passes(p, s, n - 1), n - 1);
    }
  }

  lemma PassStacks(p: Plan, s: State, before: State, n: nat)
    requires DistinctMessages(p) && Inv(p, before) && InStep(p, before) && p.passes(before.attempt)
    requires p.base < |s.commits| && Stack(p, s, before, n)
    ensures Stack(p, s, Pass(p, before), n + 1)
  {
    StackGrows(p, s, before, Pass(p, before), n);
  }

  // ---------------------------------------------------------------- over whole runs

  /** A run of the protocol: any interleaving of steps in which others do not imitate the messages. */
  ghost predicate IsTrace(p: Plan, states: seq<State>, steps: seq<Step>) {
    && |states| == |steps| + 1
    && Initial(p, states[0])
    && forall i | 0 <= i < |steps| :: IsStep(p, states, steps, i)
  }

  ghost predicate IsStep(p: Plan, states: seq<State>, steps: seq<Step>, i: nat)
    requires i < |steps| && i + 1 < |states|
  {
    Enabled(p, states[i], steps[i]) && Fair(p, steps[i]) && states[i + 1] == Next(p, states[i], steps[i])
  }

  lemma {:induction false} TraceKeepsInv(p: Plan, states: seq<State>, steps: seq<Step>, i: nat)
    requires DistinctMessages(p) && IsTrace(p, states, steps) && i < |states|
    ensures Inv(p, states[i])
  {
    if i == 0 {
      InitialIsGood(p, states[0]);
    } else {
      TraceKeepsInv(p, states, steps, i - 1);
      assert IsStep(p, states, steps, i - 1);
      StepKeepsInv(p, states[i - 1], steps[i - 1]);
    }
  }

  /** Without a deletion, everything that ever landed is on the branch. */
  ghost predicate AllOnBranch(s: State) {
    && Acyclic(s.commits)
    && (s.tip.Some? ==> s.tip.value < |s.commits|)
    && s.landed == if s.tip.Some? then History(s.commits, s.tip.value) else {}
  }

  lemma StepKeepsAllOnBranch(p: Plan, s: State, step: Step)
    requires Inv(p, s) && Enabled(p, s, step) && step != DeleteBranch && AllOnBranch(s)
    ensures AllOnBranch(Next(p, s, step))
    ensures s.landed <= Next(p, s, step).landed
    ensures s.commits <= Next(p, s, step).commits
  {
    if s.tip.Some? { NothingIsDropped(p, s, step); }
    match step
    case PostCommit(e) =>
      var x := s.runs[e];
      GraphGrows(s.commits, Commit(Some(ExpectedTip(p, x)), p.message(x.attempt),
                                   Apply(s.commits[p.base].tree, p.edits(x.attempt))));
    case Foreign(parent, message, tree) => GraphGrows(s.commits, Commit(Some(parent), message, tree));
    case _ =>
  }

  lemma {:induction false} LandingsStay(p: Plan, states: seq<State>, steps: seq<Step>, i: nat, j: nat)
    requires DistinctMessages(p) && IsTrace(p, states, steps) && i <= j < |states|
    requires forall k | 0 <= k < |steps| :: steps[k] != DeleteBranch
    ensures AllOnBranch(states[j])
    ensures states[i].landed <= states[j].landed && states[i].commits <= states[j].commits
    decreases j
  {
    if j > 0 {
      LandingsStay(p, states, steps, if i < j then i else i - 1, j - 1);
      TraceKeepsInv(p, states, steps, j - 1);
      assert IsStep(p, states, steps, j - 1);
      StepKeepsAllOnBranch(p, states[j - 1], steps[j - 1]);
    }
  }

  /**
   Exactly once. However executions overlap, crash, are retried or linger, and whoever else pushes: a
   commit some execution returned for an attempt is on the branch from then on, and no other commit of
   that attempt ever is, before or after.
   */
  lemma ExactlyOnce(p: Plan, states: seq<State>, steps: seq<Step>, i: nat, e: nat, j: nat)
    requires DistinctMessages(p) && IsTrace(p, states, steps) && i < |states| && j < |states|
    requires forall k | 0 <= k < |steps| :: steps[k] != DeleteBranch
    requires e < |states[i].runs| && states[i].runs[e].at.Returned?
    ensures var c := states[i].runs[e].at.result;
            && (i <= j ==>
                  && states[j].tip.Some? && states[j].tip.value < |states[j].commits| && Acyclic(states[j].commits)
                  && c in History(states[j].commits, states[j].tip.value))
            && (forall x | x in states[j].landed && Of(p, states[j].commits, x, states[i].runs[e].attempt) :: x == c)
  {
    var c, k := states[i].runs[e].at.result, states[i].runs[e].attempt;
    var m := if i <= j then j else i;
    TraceKeepsInv(p, states, steps, i);
    TraceKeepsInv(p, states, steps, m);
    LandingsStay(p, states, steps, i, m);
    LandingsStay(p, states, steps, j, m);
    TraceKeepsInv(p, states, steps, j);
    ReturnedCommitLanded(p, states[i], e);
    assert c in states[m].landed && Of(p, states[m].commits, c, k);
    forall x | x in states[j].landed && Of(p, states[j].commits, x, k) ensures x == c {
      assert x in states[m].landed && Of(p, states[m].commits, x, k);
      AtMostOnePerAttempt(p, states[m], k, x, c);
    }
  }
}
