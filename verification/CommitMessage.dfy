/** The commit message (`engine/nodes/push.py`), whose trailers are the idempotency key of a push. */
module CommitMessage {
  import opened Text
  import opened Policy
  import opened FlowModel

  function Truncated(s: string, n: nat): string {
    if |s| <= n then s else s[..n]
  }

  function TierName(t: Tier): string {
    match t case Low => "low" case Medium => "medium" case High => "high"
  }

  /** `_commit_message`: a subject line, an empty line and five trailers. */
  function Message(s: FlowState): string {
    Trailers(s) + "\n" + ("kuwarden-attempt: " + Decimal(s.pushAttempt))
  }

  function Trailers(s: FlowState): string {
    WithPolicy(s) + "\n" + ("kuwarden-risk-tier-at-push: " + TierName(s.tier))
  }

  function WithPolicy(s: FlowState): string {
    WithRoot(s) + "\n" + ("kuwarden-policy-commit: " + s.policyCommit)
  }

  function WithRoot(s: FlowState): string {
    WithRun(s) + "\n" + ("kuwarden-root-run-id: " + s.lineage.rootRunId)
  }

  function WithRun(s: FlowState): string {
    Subject(s) + "\n" + ("kuwarden-run-id: " + s.runId)
  }

  function Subject(s: FlowState): string {
    Truncated(s.ticket.id + ": " + s.ticket.title, 72) + "\n"
  }

  /** Identifiers and policy revisions are single-line; the ticket's text need not be. */
  predicate SingleLine(s: FlowState) {
    '\n' !in s.runId && '\n' !in s.lineage.rootRunId && '\n' !in s.policyCommit
  }

  /** The message line by line, as the next reader of the branch should find it. */
  function Lines(s: FlowState): seq<string> {
    var title := s.ticket.id + ": " + s.ticket.title;
    [
      title[..if |title| <= 72 then |title| else 72],
      "",
      "kuwarden-run-id: " + s.runId,
      "kuwarden-root-run-id: " + s.lineage.rootRunId,
      "kuwarden-policy-commit: " + s.policyCommit,
      "kuwarden-risk-tier-at-push: " + (match s.tier case Low => "low" case Medium => "medium" case High => "high"),
      "kuwarden-attempt: " + Decimal(s.pushAttempt)
    ]
  }

  lemma MessageIsItsLines(s: FlowState)
    ensures Message(s) == Join('\n', Lines(s))
  {
    var title, ls := s.ticket.id + ": " + s.ticket.title, Lines(s);
    assert Truncated(title, 72) == ls[0];
    JoinOfSeven(ls[0], ls[1], ls[2], ls[3], ls[4], ls[5], ls[6]);
    assert ls == [ls[0], ls[1], ls[2], ls[3], ls[4], ls[5], ls[6]];
    assert Subject(s) == ls[0] + "\n" + ls[1];
  }

  /** Splitting the message of a single-line ticket gives those lines back. */
  lemma MessageLines(s: FlowState)
    requires SingleLine(s) && '\n' !in s.ticket.id && '\n' !in s.ticket.title
    ensures Split('\n', Message(s)) == Lines(s)
  {
    NoNewlineInDigits(s.pushAttempt);
    var ls := Lines(s);
    forall i | 0 <= i < |ls| ensures '\n' !in ls[i] {
      if i == 0 { assert ls[0] <= s.ticket.id + ": " + s.ticket.title; }
      NoNewlineInTier(s.tier);
    }
    MessageIsItsLines(s);
    SplitOfJoin('\n', ls);
  }

  lemma JoinOfSeven(a: string, b: string, c: string, d: string, e: string, f: string, g: string)
    ensures Join('\n', [a, b, c, d, e, f, g])
            == a + "\n" + b + "\n" + c + "\n" + d + "\n" + e + "\n" + f + "\n" + g
  {
    JoinPrepends(a, [b, c, d, e, f, g]);
    JoinPrepends(b, [c, d, e, f, g]);
    JoinPrepends(c, [d, e, f, g]);
    JoinPrepends(d, [e, f, g]);
    JoinPrepends(e, [f, g]);
    JoinPrepends(f, [g]);
  }

  lemma JoinPrepends(first: string, rest: seq<string>)
    requires rest != []
    ensures Join('\n', [first] + rest) == first + "\n" + Join('\n', rest)
  {
    assert ([first] + rest)[1..] == rest;
  }

  lemma PrefixCancels(prefix: string, a: string, b: string)
    requires prefix + a == prefix + b
    ensures a == b
  {
    assert (prefix + a)[|prefix|..] == a && (prefix + b)[|prefix|..] == b;
  }

  lemma NoNewlineInDigits(n: nat)
    ensures '\n' !in Decimal(n)
  {}

  lemma NoNewlineInTier(t: Tier)
    ensures '\n' !in TierName(t)
  {}

  /**
   Equal messages come from the same attempt of the same run, whatever the tickets say: a hostile
   title that imitates the trailers changes only the part above them.
   */
  lemma MessagesIdentifyThePush(s: FlowState, t: FlowState)
    requires SingleLine(s) && SingleLine(t)
    requires Message(s) == Message(t)
    ensures s.pushAttempt == t.pushAttempt && s.runId == t.runId
  {
    NoNewlineInDigits(s.pushAttempt);
    NoNewlineInDigits(t.pushAttempt);
    LastLineIsUnique(Trailers(s), "kuwarden-attempt: " + Decimal(s.pushAttempt),
                     Trailers(t), "kuwarden-attempt: " + Decimal(t.pushAttempt));
    PrefixCancels("kuwarden-attempt: ", Decimal(s.pushAttempt), Decimal(t.pushAttempt));
    DecimalIsInjective(s.pushAttempt, t.pushAttempt);
    NoNewlineInTier(s.tier);
    NoNewlineInTier(t.tier);
    LastLineIsUnique(WithPolicy(s), "kuwarden-risk-tier-at-push: " + TierName(s.tier),
                     WithPolicy(t), "kuwarden-risk-tier-at-push: " + TierName(t.tier));
    LastLineIsUnique(WithRoot(s), "kuwarden-policy-commit: " + s.policyCommit,
                     WithRoot(t), "kuwarden-policy-commit: " + t.policyCommit);
    LastLineIsUnique(WithRun(s), "kuwarden-root-run-id: " + s.lineage.rootRunId,
                     WithRun(t), "kuwarden-root-run-id: " + t.lineage.rootRunId);
    LastLineIsUnique(Subject(s), "kuwarden-run-id: " + s.runId, Subject(t), "kuwarden-run-id: " + t.runId);
    PrefixCancels("kuwarden-run-id: ", s.runId, t.runId);
  }
}
