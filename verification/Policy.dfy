/** Protected paths, risk tiers and spend: the pure rules under `engine/policy/`. */
module Policy {
  import opened Options
  import opened Globs

  // ---------------------------------------------------------------- protected paths

  const DEFAULT_PROTECTED_PATHS: seq<string> := [
    ".github/workflows/**",
    ".github/actions/**",
    ".gitlab-ci.yml",
    "azure-pipelines.yml",
    "Jenkinsfile",
    "charts/**",
    "terraform/**",
    "**/*.tfvars",
    "**/kuwarden.yaml",
    "policy.yaml"
  ]

  /** The pattern that denies `path`, if any. */
  function Denying(path: string): Option<string> {
    FirstMatch(DEFAULT_PROTECTED_PATHS, path)
  }

  /** `ProtectedPaths.violations`: every path with the pattern that denies it, in order. */
  function Violations(paths: seq<string>): seq<(string, string)> {
    if paths == [] then []
    else
      var rest := Violations(paths[1..]);
      if Denying(paths[0]).Some? then [(paths[0], Denying(paths[0]).value)] + rest else rest
  }

  /** `assert_not_protected` raises exactly when this fails. */
  predicate NotProtected(paths: seq<string>) {
    Violations(paths) == []
  }

  /** A protected glob denotes the path. */
  predicate Protected(path: string) {
    exists p | p in DEFAULT_PROTECTED_PATHS :: Denotes(p, path)
  }

  /** The check passes a list of git paths exactly when no protected glob denotes any of them. */
  lemma {:induction false} NotProtectedMeaning(paths: seq<string>)
    requires forall p | p in paths :: GitStyle(p)
    ensures NotProtected(paths) <==> forall p | p in paths :: !Protected(p)
  {
    if paths != [] {
      NotProtectedMeaning(paths[1..]);
      FirstMatchMeaning(DEFAULT_PROTECTED_PATHS, paths[0]);
      assert forall p | p in paths :: p == paths[0] || p in paths[1..];
    }
  }

  /** What the failing run names: every path that some pattern matches, with the first that does. */
  lemma {:induction false} ViolationsMeaning(paths: seq<string>, path: string, pattern: string)
    ensures (path, pattern) in Violations(paths) <==>
            path in paths && FirstMatch(DEFAULT_PROTECTED_PATHS, path) == Some(pattern)
  {
    if paths != [] {
      ViolationsMeaning(paths[1..], path, pattern);
      assert paths == [paths[0]] + paths[1..];
    }
  }

  // ---------------------------------------------------------------- risk tiers

  datatype Tier = Low | Medium | High {
    function Rank(): nat {
      match this case Low => 0 case Medium => 1 case High => 2
    }
  }

  function RaiseTo(current: Tier, proposed: Tier): (r: Tier)
    ensures r.Rank() >= current.Rank() && r.Rank() >= proposed.Rank()
    ensures r == current || r == proposed
  {
    if proposed.Rank() > current.Rank() then proposed else current
  }

  function RequiredApprovals(tier: Tier): nat {
    match tier case Low => 0 case Medium => 1 case High => 2
  }

  datatype RiskRules = RiskRules(
    highPaths: seq<string>,
    mediumPaths: seq<string>,
    mediumChangedFiles: Option<int>,
    highChangedFiles: Option<int>
  )

  datatype Reason =
    | PathMatches(path: string, pattern: string)
    | TooManyFiles(count: nat, limit: int)
    | NoRule

  /** The scan both path rules share: the first path some pattern matches. */
  function FirstPath(patterns: seq<string>, paths: seq<string>): Option<(string, string)> {
    if paths == [] then None
    else if FirstMatch(patterns, paths[0]).Some? then Some((paths[0], FirstMatch(patterns, paths[0]).value))
    else FirstPath(patterns, paths[1..])
  }

  predicate Above(count: nat, limit: Option<int>) {
    limit.Some? && count > limit.value
  }

  /** `tier_for_diff`: the second tiering stage, over the paths of the diff (none without a diff). */
  function TierForDiff(current: Tier, paths: seq<string>, rules: RiskRules): (Tier, Reason) {
    var high := FirstPath(rules.highPaths, paths);
    var medium := FirstPath(rules.mediumPaths, paths);
    if high.Some? then (High, PathMatches(high.value.0, high.value.1))
    else if Above(|paths|, rules.highChangedFiles) then
      (High, TooManyFiles(|paths|, rules.highChangedFiles.value))
    else if medium.Some? then (Medium, PathMatches(medium.value.0, medium.value.1))
    else if Above(|paths|, rules.mediumChangedFiles) then
      (Medium, TooManyFiles(|paths|, rules.mediumChangedFiles.value))
    else (current, NoRule)
  }

  function FinalTier(current: Tier, paths: seq<string>, rules: RiskRules): Tier {
    RaiseTo(current, TierForDiff(current, paths, rules).0)
  }

  /** What the rules say about a diff, without an order of evaluation. */
  predicate SomePathMatches(patterns: seq<string>, paths: seq<string>) {
    exists p | p in paths :: FirstMatch(patterns, p).Some?
  }

  ghost predicate CallsForHigh(paths: seq<string>, rules: RiskRules) {
    || SomePathMatches(rules.highPaths, paths)
    || exists limit :: rules.highChangedFiles == Some(limit) && |paths| > limit
  }

  ghost predicate CallsForMedium(paths: seq<string>, rules: RiskRules) {
    || SomePathMatches(rules.mediumPaths, paths)
    || exists limit :: rules.mediumChangedFiles == Some(limit) && |paths| > limit
  }

  lemma {:induction false} FirstPathFinds(patterns: seq<string>, paths: seq<string>)
    ensures FirstPath(patterns, paths).Some? <==> SomePathMatches(patterns, paths)
  {
    if paths != [] {
      FirstPathFinds(patterns, paths[1..]);
      assert forall p | p in paths :: p == paths[0] || p in paths[1..];
    }
  }

  /** The final tier is the largest of what was there and what each rule asks for. */
  lemma FinalTierIsTheMaximum(current: Tier, paths: seq<string>, rules: RiskRules)
    ensures FinalTier(current, paths, rules) ==
            if CallsForHigh(paths, rules) then High
            else if CallsForMedium(paths, rules) then RaiseTo(current, Medium)
            else current
  {
    FirstPathFinds(rules.highPaths, paths);
    FirstPathFinds(rules.mediumPaths, paths);
  }

  lemma {:induction false} FirstPathIsAPath(patterns: seq<string>, paths: seq<string>) returns (i: nat)
    requires FirstPath(patterns, paths).Some?
    ensures i < |paths| && FirstAt(patterns, paths, FirstPath(patterns, paths).value.0, i)
    ensures FirstMatch(patterns, paths[i]) == Some(FirstPath(patterns, paths).value.1)
  {
    i := 0;
    if FirstMatch(patterns, paths[0]).None? {
      var k := FirstPathIsAPath(patterns, paths[1..]);
      i := k + 1;
      forall j | 0 <= j < i ensures FirstMatch(patterns, paths[j]).None? {
        if j > 0 { assert paths[j] == paths[1..][j - 1]; }
      }
    }
  }

  /** The path stands at `i`, and no pattern matches a path before it. */
  predicate FirstAt(patterns: seq<string>, paths: seq<string>, path: string, i: nat)
    requires i < |paths|
  {
    paths[i] == path && forall j | 0 <= j < i :: FirstMatch(patterns, paths[j]).None?
  }

  predicate LeadingPath(patterns: seq<string>, paths: seq<string>, path: string) {
    exists i | 0 <= i < |paths| :: FirstAt(patterns, paths, path, i)
  }

  /** The reason names a rule of the tier proposed and the first path it applies to, and none only if none applies. */
  lemma ReasonIsTrue(current: Tier, paths: seq<string>, rules: RiskRules)
    ensures var (tier, reason) := TierForDiff(current, paths, rules);
            match reason
            case PathMatches(path, pattern) =>
              && LeadingPath(if tier == High then rules.highPaths else rules.mediumPaths, paths, path)
              && CompiledMatch(pattern, Normalise(path))
              && ((tier == High && pattern in rules.highPaths) || (tier == Medium && pattern in rules.mediumPaths))
            case TooManyFiles(count, limit) =>
              && count == |paths| && count > limit
              && ((tier == High && rules.highChangedFiles == Some(limit))
                 || (tier == Medium && rules.mediumChangedFiles == Some(limit)))
            case NoRule => tier == current && !CallsForHigh(paths, rules) && !CallsForMedium(paths, rules)
  {
    FirstPathFinds(rules.highPaths, paths);
    FirstPathFinds(rules.mediumPaths, paths);
    if FirstPath(rules.highPaths, paths).Some? { var i := FirstPathIsAPath(rules.highPaths, paths); }
    if FirstPath(rules.mediumPaths, paths).Some? { var i := FirstPathIsAPath(rules.mediumPaths, paths); }
  }

  /** How many must approve. */
  lemma GateDepths()
    ensures RequiredApprovals(Low) == 0 && RequiredApprovals(Medium) == 1 && RequiredApprovals(High) == 2
    ensures Low.Rank() < Medium.Rank() < High.Rank()
  {
  }

  lemma SubmultisetMembers(paths: seq<string>, more: seq<string>)
    requires multiset(paths) <= multiset(more)
    ensures forall p | p in paths :: p in more
    ensures |paths| <= |more|
  {
    forall p | p in paths ensures p in more {
      assert multiset(paths)[p] > 0;
    }
    assert |multiset(paths)| <= |multiset(more)| by {
      assert multiset(more) == multiset(paths) + (multiset(more) - multiset(paths));
    }
  }

  /**
   Adding files to a diff never lowers the tier, and neither does starting from a higher one. Since
   both directions of a reordering are instances, the tier does not depend on the order of files.
   */
  lemma TierIsMonotone(current: Tier, higher: Tier, paths: seq<string>, more: seq<string>, rules: RiskRules)
    requires multiset(paths) <= multiset(more) && current.Rank() <= higher.Rank()
    ensures FinalTier(current, paths, rules).Rank() <= FinalTier(higher, more, rules).Rank()
  {
    SubmultisetMembers(paths, more);
    FinalTierIsTheMaximum(current, paths, rules);
    FinalTierIsTheMaximum(higher, more, rules);
  }

  lemma TierIgnoresOrder(current: Tier, paths: seq<string>, shuffled: seq<string>, rules: RiskRules)
    requires multiset(paths) == multiset(shuffled)
    ensures FinalTier(current, paths, rules) == FinalTier(current, shuffled, rules)
  {
    TierIsMonotone(current, current, paths, shuffled, rules);
    TierIsMonotone(current, current, shuffled, paths, rules);
  }

  // ---------------------------------------------------------------- spend

  /** An amount in micro-cents; `None` is "some call had no recorded rate". */
  type Spend = Option<nat>

  function Sum(totals: seq<Spend>): nat {
    if totals == [] then 0
    else (if totals[0].Some? then totals[0].value else 0) + Sum(totals[1..])
  }

  /** `combine`: unknown as soon as one part is. */
  function Combine(totals: seq<Spend>): Spend {
    if None in totals then None else Some(Sum(totals))
  }

  lemma {:induction false} SumConcat(a: seq<Spend>, b: seq<Spend>)
    ensures Sum(a + b) == Sum(a) + Sum(b)
  {
    if a == [] {
      assert a + b == b;
    } else {
      assert (a + b)[1..] == a[1..] + b;
      SumConcat(a[1..], b);
    }
  }

  lemma TakeOut(b: seq<Spend>, k: nat) returns (without: seq<Spend>)
    requires k < |b|
    ensures multiset(without) == multiset(b) - multiset{b[k]}
    ensures Sum(b) == Sum([b[k]]) + Sum(without)
  {
    without := b[..k] + b[k + 1..];
    assert b == b[..k] + ([b[k]] + b[k + 1..]);
    SumConcat(b[..k], [b[k]] + b[k + 1..]);
    SumConcat([b[k]], b[k + 1..]);
    SumConcat(b[..k], b[k + 1..]);
  }

  lemma {:induction false} SumOfPermutation(a: seq<Spend>, b: seq<Spend>)
    requires multiset(a) == multiset(b)
    ensures Sum(a) == Sum(b)
    decreases |a|
  {
    assert |a| == |multiset(a)| && |b| == |multiset(b)|;
    if a != [] {
      assert a[0] in multiset(b);
      var k :| 0 <= k < |b| && b[k] == a[0];
      var without := TakeOut(b, k);
      assert multiset(a[1..]) == multiset(a) - multiset{a[0]} by { assert a == [a[0]] + a[1..]; }
      SumOfPermutation(a[1..], without);
    }
  }

  /** The order in which parts are added does not matter, known or not. */
  lemma CombineIgnoresOrder(a: seq<Spend>, b: seq<Spend>)
    requires multiset(a) == multiset(b)
    ensures Combine(a) == Combine(b)
  {
    assert None in a <==> None in multiset(a);
    SumOfPermutation(a, b);
  }

  /** Parts add up: nothing is free, one part is itself, and a further part is added or makes all unknown. */
  lemma CombineAdds(part: Spend, others: seq<Spend>)
    ensures Combine([]) == Some(0)
    ensures Combine([part] + others) ==
            if part.Some? && Combine(others).Some? then Some(part.value + Combine(others).value) else None
  {
    SumConcat([part], others);
    assert [part][1..] == [];
    assert None in [part] + others <==> part == None || None in others;
  }
}
