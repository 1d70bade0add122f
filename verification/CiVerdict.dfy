/**
 Waiting for a pipeline's verdict (`engine/adapters/ci/__init__.py`). What the platform answers is an
 arbitrary sequence of polls; time is what the loop itself adds up, as in the source.
 */
module CiVerdict {
  import opened Options

  /** The source's `bool | None`: a run still going and an outcome without a verdict are `Open`. */
  datatype Answer = Open | Pass | Fail

  datatype CiRun = CiRun(name: string, workflow: string, headSha: string, passed: Answer)

  datatype CiConfig = CiConfig(required: seq<string>, waitS: int, graceS: int, pollS: int)

  datatype Detail = AllPassed | Failed(names: seq<string>) | StillRunning(names: seq<string>) | NoneAppeared

  datatype CiOutcome = CiOutcome(passed: Answer, detail: Detail, runs: seq<CiRun>)

  // ---------------------------------------------------------------- the runs that gate

  function ForCommit(runs: seq<CiRun>, commit: string): (r: seq<CiRun>)
    ensures forall x :: x in r <==> x in runs && x.headSha == commit
  {
    if runs == [] then []
    else
      var rest := ForCommit(runs[..|runs| - 1], commit);
      var last := runs[|runs| - 1];
      assert runs == runs[..|runs| - 1] + [last];
      if last.headSha == commit then rest + [last] else rest
  }

  function Required(runs: seq<CiRun>, required: seq<string>): (r: seq<CiRun>)
    ensures forall x :: x in r <==> x in runs && (required == [] || x.name in required || x.workflow in required)
  {
    if required == [] then runs
    else if runs == [] then []
    else
      var rest := Required(runs[..|runs| - 1], required);
      var last := runs[|runs| - 1];
      assert runs == runs[..|runs| - 1] + [last];
      if last.name in required || last.workflow in required then rest + [last] else rest
  }

  function Gating(runs: seq<CiRun>, commit: string, settings: CiConfig): seq<CiRun> {
    Required(ForCommit(runs, commit), settings.required)
  }

  /** The names of the runs whose state is `state`, in order. */
  function NamesOf(runs: seq<CiRun>, state: Answer): seq<string> {
    if runs == [] then []
    else
      var rest := NamesOf(runs[..|runs| - 1], state);
      if runs[|runs| - 1].passed == state then rest + [runs[|runs| - 1].name] else rest
  }

  lemma {:induction false} NobodyNamed(runs: seq<CiRun>, state: Answer)
    ensures NamesOf(runs, state) == [] <==> forall x | x in runs :: x.passed != state
  {
    if runs != [] {
      assert runs == runs[..|runs| - 1] + [runs[|runs| - 1]];
      NobodyNamed(runs[..|runs| - 1], state);
    }
  }

  lemma {:induction false} NamesMeaning(runs: seq<CiRun>, state: Answer)
    ensures Names(NamesOf(runs, state), runs, state)
  {
    if runs != [] {
      assert runs == runs[..|runs| - 1] + [runs[|runs| - 1]];
      NamesMeaning(runs[..|runs| - 1], state);
    }
  }

  /** Exactly the names of the runs in that state. */
  ghost predicate Names(names: seq<string>, runs: seq<CiRun>, state: Answer) {
    forall name :: name in names <==> exists x | x in runs :: x.name == name && x.passed == state
  }

  // ---------------------------------------------------------------- one look, and the loop

  /** Every run must pass. */
  function Decide(runs: seq<CiRun>): CiOutcome {
    var failed := NamesOf(runs, Fail);
    if failed != [] then CiOutcome(Fail, Failed(failed), runs) else CiOutcome(Pass, AllPassed, runs)
  }

  /** What one look at the gating runs settles, `elapsed` seconds in. */
  function Look(runs: seq<CiRun>, elapsed: int, settings: CiConfig): Option<CiOutcome> {
    var pending := NamesOf(runs, Open);
    if runs != [] && pending == [] then Some(Decide(runs))
    else if runs != [] then
      if elapsed >= settings.waitS then Some(CiOutcome(Open, StillRunning(pending), runs)) else None
    else if elapsed >= settings.graceS || elapsed >= settings.waitS then Some(CiOutcome(Open, NoneAppeared, []))
    else None
  }

  function Left(elapsed: int, settings: CiConfig): nat {
    if elapsed < settings.waitS then settings.waitS - elapsed else 0
  }

  /** How a wait ended: the outcome, the polls made, and the seconds slept. */
  datatype Wait = Wait(outcome: CiOutcome, made: nat, elapsed: int)

  /** Looking at poll `k` of the gating runs `g` and, while nothing is settled, at the ones after it. */
  function Await(g: nat -> seq<CiRun>, settings: CiConfig, k: nat, elapsed: int): Wait
    requires settings.pollS >= 1
    decreases Left(elapsed, settings)
  {
    var seen := Look(g(k), elapsed, settings);
    if seen.Some? then Wait(seen.value, k + 1, elapsed)
    else Await(g, settings, k + 1, elapsed + settings.pollS)
  }

  /** The gating runs of every poll. */
  function GatingOf(polls: nat -> seq<CiRun>, commit: string, settings: CiConfig): nat -> seq<CiRun> {
    (k: nat) => Gating(polls(k), commit, settings)
  }

  method AwaitVerdict(polls: nat -> seq<CiRun>, commit: string, settings: CiConfig) returns (w: Wait)
    requires settings.pollS >= 1
    ensures w == Await(GatingOf(polls, commit, settings), settings, 0, 0)
  {
    var elapsed, made := 0, 0;
    ghost var g := GatingOf(polls, commit, settings);
    ghost var whole := Await(g, settings, made, elapsed);
    while true
      invariant Await(g, settings, made, elapsed) == whole
      decreases Left(elapsed, settings)
    {
      var runs := ForCommit(polls(made), commit);
      runs := Required(runs, settings.required);
      assert runs == g(made);
      made := made + 1;
      if runs != [] {
        var pending := NamesOf(runs, Open);
        if pending == [] {
          return Wait(Decide(runs), made, elapsed);
        }
        if elapsed >= settings.waitS {
          return Wait(CiOutcome(Open, StillRunning(pending), runs), made, elapsed);
        }
      } else if elapsed >= settings.graceS {
        return Wait(CiOutcome(Open, NoneAppeared, []), made, elapsed);
      } else if elapsed >= settings.waitS {
        return Wait(CiOutcome(Open, NoneAppeared, []), made, elapsed);
      }
      elapsed := elapsed + settings.pollS;
    }
  }

  // ---------------------------------------------------------------- what a verdict means

  predicate Finished(runs: seq<CiRun>) {
    runs != [] && forall x | x in runs :: x.passed != Open
  }

  /** What an outcome says of the gating runs it was read from, `elapsed` seconds in. */
  ghost predicate Judges(o: CiOutcome, runs: seq<CiRun>, elapsed: int, settings: CiConfig) {
    && o.runs == runs
    && (o.passed != Open <==> Finished(runs))
    && (o.passed == Pass <==> runs != [] && forall x | x in runs :: x.passed == Pass)
    && (o.passed == Fail ==> exists x :: x in runs && x.passed == Fail)
    && (o.passed == Open ==> elapsed >= settings.waitS || (runs == [] && elapsed >= settings.graceS))
    && match o.detail
       case NoneAppeared => runs == []
       case AllPassed => o.passed == Pass
       case Failed(names) => o.passed == Fail && Names(names, runs, Fail)
       case StillRunning(names) => o.passed == Open && runs != [] && Names(names, runs, Open)
  }

  /**
   A look that has to be answered, `at` seconds in: everything that gates has finished, the wait is used
   up, or nothing gates and the time for something to appear is used up.
   */
  predicate Due(runs: seq<CiRun>, at: int, settings: CiConfig) {
    Finished(runs) || at >= settings.waitS || (runs == [] && at >= settings.graceS)
  }

  /** When poll `j` is made, if poll `k` is made `elapsed` seconds in. */
  function Clock(settings: CiConfig, k: nat, elapsed: int, j: nat): int {
    elapsed + (j - k) * settings.pollS
  }

  lemma ClockGoesOn(settings: CiConfig, k: nat, elapsed: int, j: nat)
    ensures Clock(settings, k + 1, elapsed + settings.pollS, j) == Clock(settings, k, elapsed, j)
    ensures Clock(settings, k, elapsed, k) == elapsed
  {
    OneMoreInterval(j - k - 1, settings.pollS);
  }

  lemma LookMeaning(runs: seq<CiRun>, elapsed: int, settings: CiConfig)
    ensures var o := Look(runs, elapsed, settings);
            && (o.Some? <==> Due(runs, elapsed, settings))
            && (o.Some? ==> Judges(o.value, runs, elapsed, settings))
  {
    NobodyNamed(runs, Open);
    NobodyNamed(runs, Fail);
    NamesMeaning(runs, Open);
    NamesMeaning(runs, Fail);
  }

  /**
   The look that is answered is the first that is due, and it is answered by what it showed: pass if
   something gates and all of it passed, failure if nothing of it is running and some of it failed, and no
   verdict only once a bound is used up.
   */
  lemma {:induction false} VerdictMeaning(g: nat -> seq<CiRun>, settings: CiConfig, k: nat, elapsed: int)
    requires settings.pollS >= 1
    ensures var w := Await(g, settings, k, elapsed);
            && k < w.made && w.elapsed == elapsed + (w.made - 1 - k) * settings.pollS
            && Judges(w.outcome, g(w.made - 1), w.elapsed, settings)
            && Due(g(w.made - 1), w.elapsed, settings)
            && (forall j | k <= j < w.made - 1 :: !Due(g(j), Clock(settings, k, elapsed, j), settings))
    decreases Left(elapsed, settings)
  {
    LookMeaning(g(k), elapsed, settings);
    if Look(g(k), elapsed, settings).None? {
      VerdictMeaning(g, settings, k + 1, elapsed + settings.pollS);
      var w := Await(g, settings, k, elapsed);
      OneMoreInterval(w.made - 2 - k, settings.pollS);
      forall j | k <= j < w.made - 1 ensures !Due(g(j), Clock(settings, k, elapsed, j), settings) {
        ClockGoesOn(settings, k, elapsed, j);
      }
    }
  }

  /** The polls a wait of `bound` seconds takes: one more than the intervals that fit into it, rounded up. */
  function PollsWithin(bound: int, pollS: int): nat
    requires pollS >= 1
  {
    if bound <= 0 then 1 else
      QuotientBound(bound + pollS - 1, pollS, 0);
      (bound + pollS - 1) / pollS + 1
  }

  /** The number of polls is exact when the platform never changes its mind about what is due. */
  lemma PollsToTheBound(g: nat -> seq<CiRun>, settings: CiConfig, bound: int)
    requires settings.pollS >= 1
    requires forall j: nat, at: int :: Due(g(j), at, settings) <==> at >= bound
    ensures Await(g, settings, 0, 0).made == PollsWithin(bound, settings.pollS)
  {
    var start, poll := 0, settings.pollS;
    VerdictMeaning(g, settings, start, 0);
    var w := Await(g, settings, start, 0);
    assert w.elapsed >= bound;
    if w.made >= 2 {
      assert !Due(g(w.made - 2), Clock(settings, start, 0, w.made - 2), settings);
      OneMoreInterval(w.made - 2, poll);
      assert (w.made - 2) * poll < bound;
      ExactQuotient(bound + poll - 1, poll, w.made - 1);
    }
  }

  /** Nothing ever gates: the answer comes when the time to appear, or the wait if shorter, is used up. */
  lemma NobodyCame(g: nat -> seq<CiRun>, settings: CiConfig)
    requires settings.pollS >= 1 && forall j :: g(j) == []
    ensures var w := Await(g, settings, 0, 0);
            && w.made == PollsWithin(if settings.graceS < settings.waitS then settings.graceS else settings.waitS,
                                     settings.pollS)
            && w.outcome == CiOutcome(Open, NoneAppeared, [])
  {
    PollsToTheBound(g, settings, if settings.graceS < settings.waitS then settings.graceS else settings.waitS);
    VerdictMeaning(g, settings, 0, 0);
  }

  predicate Busy(runs: seq<CiRun>) {
    exists x | x in runs :: x.passed == Open
  }

  lemma BusyIsDueLate(runs: seq<CiRun>, at: int, settings: CiConfig)
    requires Busy(runs)
    ensures runs != [] && !Finished(runs) && (Due(runs, at, settings) <==> at >= settings.waitS)
  {
    var x :| x in runs && x.passed == Open;
  }

  /** Something gates and never finishes: the answer comes when the wait is used up. */
  lemma NobodyFinished(g: nat -> seq<CiRun>, settings: CiConfig)
    requires settings.pollS >= 1 && forall j :: Busy(g(j))
    ensures var w := Await(g, settings, 0, 0);
            && w.made == PollsWithin(settings.waitS, settings.pollS)
            && w.outcome.passed == Open && w.outcome.detail.StillRunning?
  {
    forall j: nat, at: int ensures Due(g(j), at, settings) <==> at >= settings.waitS {
      BusyIsDueLate(g(j), at, settings);
    }
    PollsToTheBound(g, settings, settings.waitS);
    VerdictMeaning(g, settings, 0, 0);
    var w := Await(g, settings, 0, 0);
    BusyIsDueLate(g(w.made - 1), w.elapsed, settings);
  }

  lemma ExactQuotient(a: int, b: int, q: int)
    requires b > 0 && q * b <= a < (q + 1) * b
    ensures a / b == q
  {
    QuotientBound(a, b, q);
    NotMore(a / b, q, b, a % b);
  }

  lemma NotMore(x: int, q: int, b: int, r: int)
    requires b > 0 && r >= 0 && x * b + r < (q + 1) * b
    ensures x <= q
  {
    if x > q { Product(x, q + 1, b); }
  }

  lemma Product(x: int, y: int, b: int)
    requires x >= y && b > 0
    ensures x * b >= y * b
  {
  }

  /** The loop ends: at most one look after the last full interval of the wait, whatever the platform answers. */
  lemma {:induction false} PollsAreBounded(g: nat -> seq<CiRun>, settings: CiConfig, k: nat, elapsed: int)
    requires settings.pollS >= 1
    ensures var w := Await(g, settings, k, elapsed);
            && k < w.made && w.elapsed == elapsed + (w.made - 1 - k) * settings.pollS
            && (w.made == k + 1 || w.elapsed - settings.pollS < settings.waitS)
    decreases Left(elapsed, settings)
  {
    LookMeaning(g(k), elapsed, settings);
    if Look(g(k), elapsed, settings).None? {
      PollsAreBounded(g, settings, k + 1, elapsed + settings.pollS);
      OneMoreInterval(Await(g, settings, k + 1, elapsed + settings.pollS).made - 2 - k, settings.pollS);
    }
  }

  /** Counted: the intervals that fit into the wait, rounded up, and one. */
  lemma PollsAreCounted(g: nat -> seq<CiRun>, settings: CiConfig)
    requires settings.pollS >= 1
    ensures var wait := if settings.waitS > 0 then settings.waitS else 0;
            Await(g, settings, 0, 0).made <= (wait + settings.pollS - 1) / settings.pollS + 1
  {
    var start, poll := 0, settings.pollS;
    var wait := if settings.waitS > 0 then settings.waitS else 0;
    PollsAreBounded(g, settings, start, 0);
    var made := Await(g, settings, start, 0).made;
    if made >= 2 {
      OneMoreInterval(made - 2, poll);
      QuotientBound(wait + poll - 1, poll, made - 1);
    } else {
      QuotientBound(wait + poll - 1, poll, 0);
    }
  }

  lemma QuotientBound(a: int, b: int, q: int)
    requires b > 0 && q * b <= a
    ensures q <= a / b
  {
    var quotient := a / b;
    assert a == quotient * b + a % b;
    assert q > quotient ==> (quotient + 1) * b <= q * b;
  }

  lemma OneMoreInterval(n: int, interval: int)
    ensures interval + n * interval == (n + 1) * interval
  {
  }

  /** The runs of an outcome are this commit's gating ones, all of them, as the last poll showed them. */
  lemma VerdictIsAboutTheCommit(polls: nat -> seq<CiRun>, commit: string, settings: CiConfig, k: nat, elapsed: int)
    requires settings.pollS >= 1
    ensures var w := Await(GatingOf(polls, commit, settings), settings, k, elapsed);
            k < w.made && forall x :: x in w.outcome.runs <==>
              && x in polls(w.made - 1) && x.headSha == commit
              && (settings.required == [] || x.name in settings.required || x.workflow in settings.required)
  {
    var g := GatingOf(polls, commit, settings);
    VerdictMeaning(g, settings, k, elapsed);
    var w := Await(g, settings, k, elapsed);
    assert w.outcome.runs == Gating(polls(w.made - 1), commit, settings);
  }

  /** Absence is never a pass: a commit nothing ran for gets no verdict. */
  lemma AbsenceIsNoVerdict(polls: nat -> seq<CiRun>, commit: string, settings: CiConfig, k: nat, elapsed: int)
    requires settings.pollS >= 1 && forall j, x | x in polls(j) :: x.headSha != commit
    ensures Await(GatingOf(polls, commit, settings), settings, k, elapsed).outcome.passed == Open
  {
    var g := GatingOf(polls, commit, settings);
    VerdictIsAboutTheCommit(polls, commit, settings, k, elapsed);
    VerdictMeaning(g, settings, k, elapsed);
    var runs := Await(g, settings, k, elapsed).outcome.runs;
    assert forall x :: x !in runs;
    SomeMember(runs);
  }

  lemma SomeMember(runs: seq<CiRun>)
    ensures runs == [] || exists x :: x in runs
  {
    if runs != [] { assert runs[0] in runs; }
  }

  // ---------------------------------------------------------------- what cannot change it

  lemma {:induction false} AwaitDependsOnGating(g: nat -> seq<CiRun>, h: nat -> seq<CiRun>, settings: CiConfig,
                                                k: nat, elapsed: int)
    requires settings.pollS >= 1 && forall j :: g(j) == h(j)
    ensures Await(g, settings, k, elapsed) == Await(h, settings, k, elapsed)
    decreases Left(elapsed, settings)
  {
    assert g(k) == h(k);
    if Look(g(k), elapsed, settings).None? {
      AwaitDependsOnGating(g, h, settings, k + 1, elapsed + settings.pollS);
    }
  }

  /** Two sequences of answers that differ in other commits' runs only give the same outcome. */
  lemma OtherCommitsDoNotMatter(p: nat -> seq<CiRun>, q: nat -> seq<CiRun>, commit: string, settings: CiConfig,
                                k: nat, elapsed: int)
    requires settings.pollS >= 1 && forall j :: ForCommit(p(j), commit) == ForCommit(q(j), commit)
    ensures Await(GatingOf(p, commit, settings), settings, k, elapsed)
            == Await(GatingOf(q, commit, settings), settings, k, elapsed)
  {
    var g, h := GatingOf(p, commit, settings), GatingOf(q, commit, settings);
    forall j ensures g(j) == h(j) { assert ForCommit(p(j), commit) == ForCommit(q(j), commit); }
    AwaitDependsOnGating(g, h, settings, k, elapsed);
  }

  /** One run of another commit, inserted or deleted anywhere in a poll, is such a difference. */
  lemma {:induction false} OneRunMore(before: seq<CiRun>, other: CiRun, after: seq<CiRun>, commit: string)
    requires other.headSha != commit
    ensures ForCommit(before + [other] + after, commit) == ForCommit(before + after, commit)
  {
    if after == [] {
      assert before + [other] + after == before + [other] && before + after == before;
      assert (before + [other])[..|before|] == before;
    } else {
      var front := after[..|after| - 1];
      assert (before + [other] + after)[..|before + [other] + after| - 1] == before + [other] + front;
      assert (before + after)[..|before + after| - 1] == before + front;
      OneRunMore(before, other, front, commit);
    }
  }

  /** More patience keeps a verdict: longer bounds only turn "no verdict" into one. */
  lemma {:induction false} PatienceKeepsTheVerdict(g: nat -> seq<CiRun>, short: CiConfig, long: CiConfig, k: nat,
                                                   elapsed: int)
    requires short.pollS >= 1 && long == short.(waitS := long.waitS, graceS := long.graceS)
    requires short.waitS <= long.waitS && short.graceS <= long.graceS
    ensures var w := Await(g, short, k, elapsed);
            w.outcome.passed != Open ==> Await(g, long, k, elapsed) == w
    decreases Left(elapsed, short)
  {
    if Look(g(k), elapsed, short).None? {
      PatienceKeepsTheVerdict(g, short, long, k + 1, elapsed + short.pollS);
    }
  }

  /** A pass does not promise that every required workflow appeared: one of them, passed, is enough. */
  lemma OneRequiredWorkflowSuffices(run: CiRun, settings: CiConfig, k: nat, elapsed: int)
    requires settings.pollS >= 1 && run.name in settings.required && run.passed == Pass
    ensures Await(GatingOf((j: nat) => [run], run.headSha, settings), settings, k, elapsed).outcome.passed == Pass
  {
    var g := GatingOf((j: nat) => [run], run.headSha, settings);
    var runs := Gating([run], run.headSha, settings);
    assert run in runs && forall x | x in runs :: x == run;
    assert g(k) == runs;
    LookMeaning(runs, elapsed, settings);
  }
}
