# KuWarden, modelled and proved in Dafny

KuWarden takes a ticket through triage, planning, a bounded cycle of coder, push and build-and-test,
four verifiers, an approval gate and a release. This project models the hand-written logic behind what
it promises on that path, and proves those promises for every input, every interleaving and every run
of the model. `dafny verify dfyconfig.toml` checks all of it.

| file | what it models |
|---|---|
| `Text.dfy` | optional values and the string operations the rest needs |
| `Globs.dfy` | the glob compiler, a reader of the regular expressions it emits, and a direct meaning of globs |
| `Policy.dfy` | protected paths, risk tiers, spend |
| `FlowModel.dfy` | the state of a run, what each node guarantees, the merge and cleanup decisions |
| `AuditTrail.dfy` | the rows of the trail, a monitor of well-formed trails, and what follows from being one |
| `Delivery.dfy`, `DeliveryTheorems.dfy` | `DeliveryFlow` as a class, and what holds of every flow at every point |
| `AuditTables.dfy` | the idempotent writes of the audit activities |
| `CommitMessage.dfy` | the commit message as an idempotency key |
| `Trees.dfy` | the tree a push makes, on GitHub and on Azure Repos |
| `PushProtocol.dfy`, `GitHubPush.dfy` | the branch push as a state machine, and GitHub's sequence of requests as one execution of it |
| `TreeCache.dfy` | the least-recently-used, single-flight tree cache |
| `CiVerdict.dfy` | the bounded wait for a pipeline's verdict |
| `RepoContext.dfy` | specifier resolution, the bounded import closure and its converse |
| `VerifierBlock.dfy` | the comment-preserving rewrite of the `verification:` block |
| `VerifierReading.dfy` | what the parser makes of the rewritten text |
| `HookAdmission.dfy` | workflow ids and the admission of replayed deliveries |
| `ConfigStore.dfy` | the configuration cache |
| `JiraAdf.dfy` | Jira documents and the acknowledgement that is posted once |

Concurrency is modelled the way the program has it. A coroutine runs undisturbed from one `await` to the
next, so a class offers each such stretch as a method whose precondition is its invariant and the state of
the call concerned; every interleaving is then some sequence of methods, and what every method keeps holds
throughout. The push, where requests of different processes interleave on a server, is a step relation
over a commit graph instead. In `Delivery.dfy` an await is `Await`, which lets any decisions arrive and
any leftover verifiers finish; what nodes and verifiers answer, what platforms reply and the order in
which verifiers finish are chosen arbitrarily. A trail is judged by a monitor that does not look at the
flow, and `DeliveryFlow.Valid` says that the monitor accepted every row.

What the environment is assumed to do is stated where it is used: a server refuses to create a ref that
exists and to move one other than forward, and others do not write commits with this run's messages
(`PushProtocol`); a commit's tree never changes (`TreeCache`); the interval between polls is at least a
second, which the configuration parser enforces (`CiVerdict`); each write of a configuration changes its
timestamp (`ConfigStore`); an id once refused is refused for good (`HookAdmission`); the activities that
write the trail complete, which their unlimited retries are for (`Delivery`).

Some promises of the documentation hold under a condition only. Each condition is exact:

- A glob and its regular expression agree on a path for all patterns exactly when it has no newline
  (`Globs.TranslationIsExact`).
- The tree cache joins exclusion patterns with a bar, so a bar inside a pattern makes different fetches
  share a key (`TreeCache.CleanExactly`).
- Rewriting the verifiers' block twice is rewriting it once exactly when the text had a block or has no
  line breaks but newlines (`VerifierBlock.LastWriteWins`). It reads back as written exactly when the key is
  not spelled again below it and the lines left over under it, below a comment in the first column, only
  add other keys (`VerifierReading.WrittenIsReadBack`). This is about texts whose rewrite the parser does
  not refuse for another reason, such as a root mapping that is itself indented.
- A relative specifier resolves to the empty stem exactly when every way down among its segments is taken
  back (`RepoContext.RelativeStemIsPlain`).
- Azure Repos keeps earlier passes' content where GitHub does not, as its own documentation concedes
  (`Trees.PlatformsAgreeExactly`).
- The index of changed files shows the newest attempt at every moment exactly when no attempt is overtaken
  by a later one on a path of both (`AuditTables.IndexIsNewestExactly`).
- The row that claims control is written exactly when the release returned and the platform named the
  commit it merged (`DeliveryTheorems.ControlRowExactly`). A merge is without it when the platform does not
  name the commit (`DeliveryTheorems.EmptyIdIsAMerge`), and when the platform merges, the reply is lost and
  no later attempt returns (`DeliveryTheorems.LostReplyIsNoRelease`): retries are then refused, because
  nothing is left to merge. `DeliveryTheorems.MergesAreSafe` covers these merges too.
- A branch is kept for its pull request exactly when the release returned; a release that opened one and
  then raised leaves no artifact (`DeliveryTheorems.RaisedReleaseLosesItsPullRequest`).
- The comment reader drops line ends, so it finds a marker exactly when it stands in the text without its
  newlines (`JiraAdf.CommentSeesTheText`).

## Model

| member | source | states |
|---|---|---|
| `Globs.Translate` | engine/policy/globs.py:16-43 | The compiler's loop emits exactly the text `Translation` describes, for every pattern, unpaired and special characters included |
| `Globs.TranslationCompiles` | engine/policy/globs.py:16-43 | Every emitted text is a well-formed regular expression and parses to the intended structure, whatever characters the pattern holds |
| `Globs.GlobTranslation` | engine/policy/globs.py:16-43 | For every pattern and every newline-free path, the compiled expression matches if and only if the glob denotes the path under a meaning that mentions no regular expression |
| `Globs.DepthIsFixed` | engine/policy/globs.py:16-43 | A pattern without `**` denotes only paths with exactly as many `/` as the pattern |
| `Globs.MatchDepthIsFixed` | engine/policy/globs.py:16-43 | So such a pattern, compiled, matches only newline-free paths as deep as itself |
| `Globs.FinalNewlineIsOverlooked` | engine/policy/globs.py:43 | Every path with a final newline is matched by a pattern that does not denote it |
| `Globs.InnerNewlineIsRefused` | engine/policy/globs.py:29-38 | A path with any other newline is not matched by `**`, which denotes every path |
| `Globs.TranslationIsExact` | engine/policy/globs.py:16-43 | Expression and direct meaning agree on a path, for all patterns, if and only if the path has no newline |
| `Globs.NormaliseKeepsGitStyle` | engine/policy/globs.py:46-52 | Normalisation changes nothing about a path as git writes it |
| `Globs.NormaliseMeaning` | engine/policy/globs.py:46-52 | Backslashes count as separators and one leading `./` is taken off; no other leading dot is |
| `Globs.MatchesAny` | engine/policy/globs.py:55-65 | The scan with early return gives the first pattern that matches, or nothing |
| `Globs.FirstMatch` | engine/policy/globs.py:55-65 | What is returned is one of the patterns and matches; nothing is returned only if none matches |
| `Globs.FirstMatchIsFirst` | engine/policy/globs.py:55-65 | The pattern named matches and none listed before it does |
| `Globs.FirstMatchMeaning` | engine/policy/globs.py:55-65 | On git paths something is found if and only if some glob denotes the path, and what is found denotes it |
| `Policy.NotProtectedMeaning` | engine/policy/protected_paths.py:39-58 | The check lets a list of git paths through if and only if no protected glob denotes any of them |
| `Policy.ViolationsMeaning` | engine/policy/protected_paths.py:39-58 | The failing check names every path that is denied, with the first pattern that denies it, and no other |
| `Policy.GateDepths` | engine/policy/tiering.py:35-41 | No approval for a low tier, one for a medium and two for a high one; low is below medium and medium below high |
| `Policy.RaiseTo` | engine/policy/tiering.py:15-22 | The result is one of the two tiers and not below either |
| `Policy.FinalTierIsTheMaximum` | engine/flows/delivery.py:499-510 | The final tier is the largest of the provisional tier and what the rules ask for, each spelled out: a path a pattern matches, more files than a limit |
| `Policy.ReasonIsTrue` | engine/policy/tiering.py:44-89 | The reason given names a rule of the proposed tier, the first path it applies to and a pattern that matches it; no rule is claimed only if none applies |
| `Policy.TierIsMonotone` | engine/policy/tiering.py:44-89 | Adding files to the diff, or starting higher, never lowers the final tier |
| `Policy.TierIgnoresOrder` | engine/policy/tiering.py:44-89 | The order of the files in the diff does not matter |
| `Policy.CombineIgnoresOrder` | engine/policy/pricing.py:137-147 | Adding up parts in any order gives the same total, and the same unknown |
| `Policy.CombineAdds` | engine/policy/pricing.py:137-147 | Nothing adds up to nothing, and one part more is added to the total or makes it unknown |
| `AuditTrail.WatchAppend` | engine/flows/delivery.py:774-794 | A row with the next number keeps the numbering 1..N, and moves the monitor by that row alone |
| `AuditTrail.ReleaseIsSafe` | engine/flows/delivery.py:406-497 | In any well-formed trail, a row with a control mode is an external effect, is the only one, follows a verdict of exit code 0 and a passed gate, and no blocking verifier was named as falsifying last |
| `AuditTrail.RowsAgree` | engine/flows/delivery.py:330-497 | In any well-formed trail: a push row carries the number of its pass, a preview shows the commit pushed last, the gate has the tier settled on and its number of approvals, an overriding names exactly the advisory objections, and a run is aborted over exactly the blocking verifiers named last, or over nobody when the budget is spent without a green verdict or an approver rejected |
| `AuditTrail.OnlyOneEffect` | engine/flows/delivery.py:477-496 | At most one row of a trail claims control |
| `AuditTrail.NodesFollowTheFlow` | engine/flows/delivery.py:324-409 | Nodes are started along the arrows of the flow, and the coder at most `max_coder_retries + 1` times |
| `AuditTrail.NodesDoNotOverlap` | engine/flows/delivery.py:680-715 | A started node is completed or failed before anything else is recorded, verifier failures of an interrupted fan-out excepted |
| `AuditTrail.CompletePasses` | engine/flows/delivery.py:330-409 | Up to a release, a run is triage, planner and whole coder-push-test passes, the last one perhaps unfinished |
| `AuditTrail.ReleasedRunShape` | engine/flows/delivery.py:330-475 | A run that starts a release did between one and the budgeted number of whole passes, and nothing else before it but triage and planner |
| `AuditTrail.RemembersCounts` | engine/flows/delivery.py:796-816 | At most one external effect, and one cost row exactly when the run has been closed |
| `AuditTrail.RemembersFailure` | engine/flows/delivery.py:292-298 | The monitor knows of a failure, and of an abort, exactly when a row records one |
| `AuditTrail.ClosedRunShape` | engine/flows/delivery.py:272-322 | The whole node sequence of any well-formed trail that was closed without a failure: it ends in a compensation if an abort is recorded and in a release otherwise |
| `Delivery.DeliveryFlow.Approve` | engine/flows/delivery.py:225-228 | A decision is appended, at any time, and nothing else changes |
| `Delivery.DeliveryFlow.Record` | engine/flows/delivery.py:774-794 | The row gets the next number and a control mode only if it is an external effect; the trail stays well-formed |
| `Delivery.DeliveryFlow.Await` | engine/flows/delivery.py:225-228 | Whatever happens during an await (decisions, leftover verifiers) keeps the invariants; without leftovers only decisions arrive |
| `Delivery.DeliveryFlow.Execute` | engine/flows/delivery.py:717-754 | One to three attempts, each but the last without an answer; what comes back is the last one's answer and what was asked of the platform is what the attempts asked, which `FlowModel.ReleasedMeaning`, `ReleaseAsksExactly` and `CompensatedMeaning` spell out; a merge that is reported was asked for |
| `FlowModel.ReleaseAsksExactly` | engine/nodes/release.py:40-82 | Which requests a release sends: a pull request whenever branch, head and base are known, and a merge if and only if that was opened and auto-merge is enabled, merges are gated, the tier is not above the ceiling, no decision rejects, the diff is within the limit and the verdict is CI's where an anchor is required |
| `FlowModel.ReleasedMeaning` | engine/nodes/release.py:32-82 | It raises if and only if it asks for nothing, the pull request is not opened or a merge it asked for is not answered; otherwise exactly the pull request and the merge, if asked for, are added to the state |
| `FlowModel.ApprovingIsTheirNumber` | engine/flows/delivery.py:660-673 | The approvals counted are the decisions that approve, one each |
| `FlowModel.DeletesMeaning` | engine/nodes/compensate.py:110-132 | Deletion is called for if and only if branch and head are known and no artifact is a pull request |
| `FlowModel.CompensatedMeaning` | engine/nodes/compensate.py:92-132 | Compensation leaves the platform's answer, a note that the branch is kept, or nothing if nothing was pushed, and changes nothing else |
| `FlowModel.BlockingMeaning` | engine/flows/delivery.py:446-455 | A verifier may block if it is listed, or if the list is empty |
| `Delivery.DeliveryFlow.NodeStep` | engine/flows/delivery.py:680-715 | One more activity on the history with an id of its own, its start and its end on the trail, and its state published, also when it fails |
| `Delivery.DeliveryFlow.Code` | engine/flows/delivery.py:330-335 | The coder is given the number of the pass it makes |
| `Delivery.DeliveryFlow.PushOnce` | engine/flows/delivery.py:337-341 | A successful push is counted and is from then on the last push |
| `Delivery.DeliveryFlow.Grade` | engine/flows/delivery.py:383-405 | The verdict on the trail is the one on the state, exit code and source, and is missing exactly when the state has none |
| `Delivery.DeliveryFlow.CycleUntilGreen` | engine/flows/delivery.py:330-409 | The bounded loop ends with a pushed change graded 0, with an exception, or with a rejection naming nobody after exactly `max_coder_retries + 1` passes, none of them green |
| `Delivery.DeliveryFlow.Gather` | engine/flows/delivery.py:521-524 | Succeeds if and only if every verifier answers, whatever the order, and then leaves the trail as it was |
| `Delivery.DeliveryFlow.ReadBack` | engine/flows/delivery.py:531-542 | The rows and verdicts come in declaration order and are a function of the answers |
| `Delivery.DeliveryFlow.Verify` | engine/flows/delivery.py:512-584 | For every completion order: four activities that were shown the brief and nothing else, the same rows, the same verdicts, the same spend; the completing row counts the verifications that passed and names exactly the verifiers that did not pass |
| `Delivery.DeliveryFlow.Review` | engine/flows/delivery.py:446-472 | The change is refused if and only if some verifier did not pass and the input lets it block; exactly those are named, and exactly the other objections become advisory, with a row of their own if there are any |
| `Delivery.FalsifyingMeaning` | engine/flows/delivery.py:447-451 | Falsifying are exactly the verifiers of verifications that did not pass; together with the passed ones they are all |
| `Delivery.PassedIsTheirNumber` | engine/flows/delivery.py:546-550 | The number of passed verifications is that of the places where one passed |
| `Delivery.RowsOfTheNotes` | engine/flows/delivery.py:531-542 | Every verifier that wrote notes has its row, no other row is written, and they are numbered on |
| `Delivery.DeliveryFlow.AwaitDecision` | engine/flows/delivery.py:627-657 | The wait ends only when the decisions suffice, and they still do afterwards; otherwise the run stays suspended, without a rejection and with too few approvals |
| `Delivery.DecidedMeaning` | engine/flows/delivery.py:650-653 | The wait is over if and only if somebody rejected or as many approved as are needed |
| `Delivery.DeliveryFlow.Settle` | engine/flows/delivery.py:659-676 | The recorded decisions are those that arrived; any rejection among them rejects the run, otherwise the tier's approvals are there |
| `Delivery.DeliveryFlow.Gate` | engine/flows/delivery.py:591-676 | A low tier passes at once; a passed gate has one approval for a medium and two for a high tier, none rejecting; it is refused only over a rejection, and otherwise the run stays suspended |
| `Delivery.DeliveryFlow.SettleTier` | engine/flows/delivery.py:414-438 | The authoritative tier is the final tier of the diff; state and trail have it with the reason, the provisional tier and the number of files |
| `Delivery.DeliveryFlow.ReleaseStep` | engine/flows/delivery.py:475-497 | Release is called only on a graded, reviewed, approved state; afterwards the controlled row is there if and only if the state names a merged commit |
| `Delivery.DeliveryFlow.Deliver` | engine/flows/delivery.py:324-497 | Each way out of the delivery leaves the run where its handler may take over, with the last push in hand |
| `Delivery.DeliveryFlow.Abort` | engine/flows/delivery.py:275-291 | The row names the reason and the verifiers, a compensation is called with the last push on a state marked with them; if it returns the reporter is, and if that returns the cost row closes the trail; the status is rejected |
| `Delivery.DeliveryFlow.Fail` | engine/flows/delivery.py:292-304 | The same on the failing path, also while verifiers still run, with status failed: a compensation with the last push, then the reporter, then the cost row |
| `Delivery.DeliveryFlow.Finish` | engine/flows/delivery.py:796-821 | The cost row closes the trail |
| `Delivery.DeliveryFlow.Run` | engine/flows/delivery.py:236-322 | Every invariant holds from start to end. A result says succeeded if and only if no abort is on the trail and rejected if and only if one is; it names the run, counts its rows, ends in its one cost row and has the tier of the state the reporter returned. Without a result the run failed, is suspended at the gate short of decisions, or compensation or reporter raised |
| `Delivery.DecidedIsStable` | engine/flows/delivery.py:650-653 | The wait predicate, once true, stays true as decisions arrive |
| `Delivery.RecordedKeepsApprovals` | engine/flows/delivery.py:660-669 | Recording the decisions keeps the number of approvals |
| `Delivery.RecordedKeepsRejections` | engine/flows/delivery.py:660-673 | And keeps whether somebody rejected |
| `DeliveryTheorems.ControlIsEarned` | engine/flows/delivery.py:474-497 | Release safety of every flow at every point: the one row with a control mode names a merge by a release whose input was the head of the last push, graded 0, objected to by no verifier that may block, with the approvals its tier needs; the merge was asked for under a policy that is enabled and gated, whose ceiling, file limit and anchor it meets, each spelled out |
| `DeliveryTheorems.ControlRowExactly` | engine/flows/delivery.py:474-497 | Of every flow that is not just releasing: the row that claims control is on the trail if and only if some release returned and the platform had named the commit it merged |
| `DeliveryTheorems.MergeHasItsRow` | engine/flows/delivery.py:477-496 | Of every flow that is not just releasing: the merge of a release that returned has a row naming its commit if and only if the platform named one |
| `DeliveryTheorems.FinishedMergeHasItsRow` | engine/flows/delivery.py:477-496 | So it is for releases that returned in every finished run, and the row claims control |
| `DeliveryTheorems.EmptyIdIsAMerge` | engine/adapters/scm/github.py:478 | First way to a merge without its row, from every state that may be merged: the platform answers without a commit |
| `DeliveryTheorems.LostReplyIsNoRelease` | engine/nodes/release.py:46-82 | Second way, from every such state: the merge was asked for, its reply is lost, and the release raises |
| `DeliveryTheorems.RaisedReleaseLosesItsPullRequest` | engine/nodes/compensate.py:110-132 | After a release attempt compensation would ask for the branch to be deleted if and only if the attempt raised, although its pull request may have been opened |
| `DeliveryTheorems.TrailHasItsShape` | engine/flows/delivery.py:324-409 | Rows are numbered 1..N, nodes follow the flow within the budget, there is one cost row exactly once the run is closed and none before, and activity ids are distinct, in every flow at every point |
| `DeliveryTheorems.ReturnedRunShape` | engine/flows/delivery.py:236-322 | A run that returned is triage, planner, whole passes within the budget, a release if it says succeeded or a compensation if it says rejected, and the reporter; its one cost row is the last, no row records a failure, and the result counts the rows |
| `DeliveryTheorems.MergesAreSafe` | engine/nodes/release.py:61-82 | Every merge asked for, answered or not, was of the head of the last completed push, graded 0, unblocked, with the approvals of its tier, under an enabled and gated policy whose ceiling, file limit and anchor it meets, each spelled out |
| `DeliveryTheorems.CompensationKnowsThePush` | engine/flows/delivery.py:272-304 | Compensation is given the branch and the head commit of the last completed push |
| `DeliveryTheorems.DeletionsExactly` | engine/nodes/compensate.py:110-132 | A branch is asked to be deleted if and only if a compensation was given it with a pushed commit and no pull request among the artifacts, spelled out |
| `DeliveryTheorems.PushInputs` | engine/flows/delivery.py:330-341 | The n-th push is attempt n and is parented on what the one before it returned |
| `DeliveryTheorems.LastPushIsTheLast` | engine/flows/delivery.py:330-341 | The last push is the last push activity that returned |
| `DeliveryTheorems.PushesAreTheirNumber` | engine/flows/delivery.py:330-341 | The pushes counted are the push activities that returned |
| `DeliveryTheorems.ActivityIdsAreDistinct` | engine/flows/delivery.py:717-726 | No two activities share the id `node#seq` |
| `DeliveryTheorems.BriefIsTheAllowList` | engine/flows/delivery.py:134-187 | Two states have equal briefs if and only if they agree on the allow-listed fields |
| `FlowModel.BriefShowsOnlyTheAllowList` | engine/flows/delivery.py:134-187 | Field by field: what the allow-list names is shown as it is, everything else at its default |
| `DeliveryTheorems.VerifiersSeeBriefs` | engine/flows/delivery.py:512-524 | In every flow at every point, no verifier activity was given a plan, a verdict, an objection, a decision, a cost, an attempt number, an artifact or notes |
| `DeliveryTheorems.FanOutIsAFunctionOfTheBrief` | engine/flows/delivery.py:512-543 | States with equal briefs get the same four verdicts, amounts and notes, in declaration order |
| `DeliveryTheorems.SpendIsKnownTogether` | engine/flows/delivery.py:528-530 | The spend after the fan-out is unknown if and only if some part of it is |
| `DeliveryTheorems.SpendAfterFanOut` | engine/flows/delivery.py:528-530 | When every amount is known the spend grows by their sum |
| `AuditTables.DuplicatesLeaveTheTrail` | engine/activities/audit.py:99-114 | Rows delivered any number of times in any order leave the same table as the trail itself, and no other run's rows change |
| `AuditTables.EndedStaysEnded` | engine/activities/audit.py:124-180 | Once an end is written, late or duplicated status changes neither reopen the run nor change how it ended |
| `AuditTables.IndexHoldsTheLastTouch` | engine/activities/audit.py:146-170 | After any deliveries a path has the row, counts and attempt, of the last one that touched it, or no row |
| `AuditTables.IndexRow` | engine/activities/audit.py:146-170 | In plain terms: the row has the numbers of the path's last mention in the last delivery that mentions it, and that delivery's attempt |
| `AuditTables.IndexIsNewestExactly` | engine/activities/audit.py:146-170 | At every moment every path has the row of the newest attempt delivered so far, if and only if no delivery is followed by one of a smaller attempt that touches one of its paths |
| `AuditTables.LateRepeatRewindsTheIndex` | engine/activities/audit.py:160-170 | A late repeat of an earlier attempt replaces the later attempt's row, whatever the two say |
| `AuditTables.AuditStore.RecordEvent` | engine/activities/audit.py:99-114 | The first row under a key never changes, every other key is untouched, and the table stays the first deliveries of the whole history |
| `AuditTables.AuditStore.RecordRunStatus` | engine/activities/audit.py:124-142 | Changes that run only, and only while it is running or suspended; the change joins its history |
| `AuditTables.AuditStore.RecordRunFiles` | engine/activities/audit.py:146-170 | The delivery joins the run's history, of which the index is the result; an empty list changes nothing |
| `AuditTables.AuditStore.RecordRunEnded` | engine/activities/audit.py:174-180 | Sets the status of that run whatever it was, and no other's; the end joins its history |
| `AuditTables.StoreKeepsEnds` | engine/activities/audit.py:124-180 | Whatever the store is delivered, a run with an end in its history stands as it last ended |
| `AuditTables.AuditStore.RecordRunStarted` | engine/activities/audit.py:75-96 | No run that is there is touched, and the statuses stay what their whole history amounts to: a repeated start adds nothing to it |
| `CommitMessage.MessagesIdentifyThePush` | engine/nodes/push.py:151-182 | Equal commit messages come from the same attempt of the same run, whatever the tickets' text contains |
| `CommitMessage.MessageLines` | engine/nodes/push.py:151-182 | Line by line, for a single-line ticket: the subject cut at 72 characters, an empty line and the five trailers in order |
| `Trees.TreeEntries` | engine/adapters/scm/github.py:332-361 | The loop makes one entry per edit, without a blob exactly for deletions |
| `Trees.StrippedMeaning` | engine/adapters/scm/github.py:332-361 | All leading slashes of a path are taken off and nothing else |
| `Trees.LastEditStands` | engine/adapters/scm/github.py:332-366 | Where a path is edited, the last edit of it decides: its content, or nothing if it deletes |
| `Trees.OtherPathsStay` | engine/adapters/scm/github.py:332-366 | Where no edit is, the content stays |
| `Trees.EntriesAmountToEdits` | engine/adapters/scm/github.py:332-366 | Laid over the base tree the entries give the base with the edits |
| `Trees.ChangesAmountToEdits` | engine/adapters/scm/azure_repos.py:248-282 | The change list amounts to laying the edits over the tip, and is refused if and only if it deletes something absent |
| `Trees.TipChanges` | engine/adapters/scm/azure_repos.py:250-271 | The loop chooses add or edit by what exists at the commit built on |
| `Trees.AzureAccumulates` | engine/adapters/scm/azure_repos.py:207-285 | On Azure the branch holds the base with the edits of all passes so far |
| `Trees.PlatformsAgreeExactly` | engine/adapters/protocols.py:263-282 | GitHub's tree and Azure's agree after a pass if and only if every path the pass leaves alone still had its base content before it |
| `Trees.ProtectedContentStays` | engine/nodes/push.py:56-84 | If the check passes, the pushed tree agrees with the base on every protected path |
| `PushProtocol.StepKeepsInv` | engine/adapters/scm/github.py:299-390 | Every request, crash or foreign move, in any interleaving, keeps the protocol's invariant |
| `PushProtocol.TraceKeepsInv` | engine/adapters/scm/github.py:299-390 | So does every run of the protocol |
| `PushProtocol.AtMostOnePerAttempt` | engine/adapters/scm/github.py:310-321 | The branch holds at most one commit of each attempt |
| `PushProtocol.ReturnedCommitLanded` | engine/adapters/scm/github.py:378-390 | What a push returns is this attempt's commit, was on the branch, and holds base plus its edits |
| `PushProtocol.NothingIsDropped` | engine/adapters/scm/github.py:383-389 | No ref update takes a commit off the branch |
| `PushProtocol.RetryReturnsTheLandedCommit` | engine/adapters/scm/github.py:310-314 | A retry that finds its own commit on the tip returns that commit |
| `PushProtocol.LandingsStay` | engine/adapters/scm/github.py:299-390 | Without a deletion, whatever landed stays on the branch |
| `PushProtocol.UndisturbedPush` | engine/adapters/scm/github.py:299-390 | An execution nobody disturbs returns a commit if and only if the branch is absent, the tip carries its own message, or the tip is what it was handed (the previous attempt's commit, the base on the first attempt). With its own message on the tip it returns that and moves nothing; otherwise one commit lands on exactly what was handed, with the base tree and its edits; in every other case nothing changes |
| `PushProtocol.PassesStack` | engine/adapters/scm/github.py:299-390 | However many passes the loop makes undisturbed, each lands its commit on the one before it, and the branch ends at the last |
| `PushProtocol.ExactlyOnce` | engine/adapters/scm/github.py:299-390 | A returned commit is on the branch from then on, and no other commit of its attempt ever is, under every interleaving of overlapping, crashed, retried and late executions and foreign pushes |
| `GitHubPush.OthersStayBetween` | engine/adapters/scm/github.py:299-390 | Anything others do between two requests of an execution leaves its own progress and every commit and landing in place |
| `GitHubPush.Remote.Push` | engine/adapters/scm/github.py:271-390 | The code's sequence of requests is an execution of the protocol, with anything happening in between; an empty change is refused. When nobody else moves, a push of a change returns a commit if and only if the branch is absent, the tip carries its own message, or the tip is what it was handed, and does exactly what `PushProtocol.UndisturbedPush` says |
| `GitHubPush.Remote.Compare` | engine/adapters/scm/github.py:310-321 | The push is found landed if and only if the tip carries its message, and is refused if and only if the tip neither does nor is the previous attempt's commit (the base on the first attempt) |
| `GitHubPush.Remote.Build` | engine/adapters/scm/github.py:323-390 | Posts the commit with the pinned base's tree and moves the ref, or stops; undisturbed it ends as the execution alone would |
| `GitHubPush.MessagesAreAKey` | engine/nodes/push.py:151-182 | The messages of a run are distinct by attempt, which is what the protocol rests on |
| `GitHubPush.OtherRunsDoNotCollide` | engine/nodes/push.py:151-182 | No message of another run is one of this run's |
| `GitHubPush.Remote.PushNode` | engine/nodes/push.py:56-84 | An attempt whose paths fail the check sends nothing; one that returns passed it, and its commit landed with base plus edits; undisturbed it returns if and only if it passed, changes something, and the branch is absent, carries its message, or is at what the flow was handed |
| `GitHubPush.CheckedIsPushed` | engine/nodes/coder.py:249-258 | The paths checked, those of the diff, are the paths of the edits pushed |
| `GitHubPush.ProtectedContentIsInvariant` | engine/nodes/push.py:56-84 | Every commit of the run that ever landed agrees with the pinned base on every protected path, whatever the attempts wanted to push |
| `TreeCache.KeyIdentifiesTheFetch` | engine/adapters/scm/tree_cache.py:45-64 | Among requests whose exclusion patterns hold no bar, equal keys are the same fetch and conversely |
| `TreeCache.CleanExactly` | engine/adapters/scm/tree_cache.py:61-64 | An exclusion list is confused with no clean list if and only if it is clean itself |
| `TreeCache.BarInAPatternCollides` | engine/adapters/scm/tree_cache.py:61-64 | A bar inside a pattern makes two different fetches share a key |
| `TreeCache.HitIsTheRequestedTree` | engine/adapters/scm/tree_cache.py:83-91 | A hit gives a clean request the tree that fetching for that very request gives |
| `TreeCache.TouchKnown` | engine/adapters/scm/tree_cache.py:85-91 | Touching a key among the last n moves it to their end |
| `TreeCache.TouchNew` | engine/adapters/scm/tree_cache.py:110-113 | Touching another key appends it and lets the oldest go |
| `TreeCache.RecencyIsByLastTouch` | engine/adapters/scm/tree_cache.py:85-91 | The order of recency is the order of the keys' last touches |
| `TreeCache.Cache.Ask` | engine/adapters/scm/tree_cache.py:83-100 | A hit answers with what a direct fetch would give, a running fetch is joined, and only otherwise one is started |
| `TreeCache.Cache.Finish` | engine/adapters/scm/tree_cache.py:99-102 | A fetch may fail or succeed; the cache stays sound |
| `TreeCache.Cache.JoinerResumes` | engine/adapters/scm/tree_cache.py:93-97 | A joiner gets what a direct fetch gives, or the failure |
| `TreeCache.Cache.OwnerResumes` | engine/adapters/scm/tree_cache.py:99-114 | The registration is cleared either way; only a success is kept, and it is the direct fetch's tree |
| `TreeCache.Cache.Keep` | engine/adapters/scm/tree_cache.py:110-113 | After insertion and eviction the cache is the last four distinct keys of the touch log, in order |
| `TreeCache.HoldsTheLastFour` | engine/adapters/scm/tree_cache.py:85-113 | At any moment exactly the last four keys in the order of recency are kept, or all of them if fewer |
| `TreeCache.Cache.Evict` | engine/adapters/scm/tree_cache.py:111-113 | The loop keeps exactly the newest four entries |
| `CiVerdict.AwaitVerdict` | engine/adapters/ci/__init__.py:86-132 | The polling loop computes the outcome of the sequence of looks, which the rows below describe |
| `CiVerdict.VerdictMeaning` | engine/adapters/ci/__init__.py:108-167 | The look answered is the first that is due: its gating runs have all finished, the wait is used up, or nothing gates and the grace period is used up, at the time it is made. Pass if and only if they are some and all passed, failure if and only if none is running and one failed; the runs named are exactly those that failed or are running |
| `CiVerdict.NobodyCame` | engine/adapters/ci/__init__.py:106-132 | If nothing ever gates there is no verdict, after exactly the intervals that fit into the shorter of wait and grace period, rounded up, and one poll more |
| `CiVerdict.NobodyFinished` | engine/adapters/ci/__init__.py:106-132 | If something always gates and is still running there is none either, after as many polls for the whole wait |
| `CiVerdict.VerdictIsAboutTheCommit` | engine/adapters/ci/__init__.py:135-155 | The runs of an outcome are exactly the last poll's runs for this very commit that gate |
| `CiVerdict.PollsAreBounded` | engine/adapters/ci/__init__.py:106-132 | At most one look after the last full interval of the wait, whatever the platform answers |
| `CiVerdict.PollsAreCounted` | engine/adapters/ci/__init__.py:106-132 | The polls number at most the intervals in the wait, rounded up, and one |
| `CiVerdict.AbsenceIsNoVerdict` | engine/adapters/ci/__init__.py:120-129 | A commit nothing ran for never passes and never fails |
| `CiVerdict.OtherCommitsDoNotMatter` | engine/adapters/ci/__init__.py:135-142 | Answers that differ in other commits' runs only give the same outcome |
| `CiVerdict.OneRunMore` | engine/adapters/ci/__init__.py:135-142 | Inserting or deleting a run of another commit is such a difference |
| `CiVerdict.PatienceKeepsTheVerdict` | engine/adapters/ci/__init__.py:106-132 | Longer bounds keep every verdict |
| `CiVerdict.OneRequiredWorkflowSuffices` | engine/adapters/ci/__init__.py:145-155 | A pass does not promise that every required workflow appeared: any one of them, passed, is enough |
| `RepoContext.Walk` | engine/nodes/repo_context.py:91-97 | The stack loop computes the walk |
| `RepoContext.Resolve` | engine/nodes/repo_context.py:78-110 | The branches and the candidates in order compute the resolution |
| `RepoContext.CandidateIsTheFirst` | engine/nodes/repo_context.py:103-110 | The file found is the first candidate in order that exists, and none is found only if none exists |
| `RepoContext.StemOfAlias` | engine/nodes/repo_context.py:86-87 | Behind `@/` the rest is a path from the root |
| `RepoContext.StemOfDotted` | engine/nodes/repo_context.py:99-100 | A dotted name without a slash is a path, each dot read as a slash |
| `RepoContext.StemOfOthers` | engine/nodes/repo_context.py:101-102 | Every specifier that starts with neither `@/` nor a dot, and has a slash if it has a dot, is its own stem |
| `RepoContext.EndsAtTheRootExactly` | engine/nodes/repo_context.py:91-97 | The walk ends at the root if and only if every tail of the segments has at least as many `..` as names |
| `RepoContext.RelativeStemIsPlain` | engine/nodes/repo_context.py:88-98 | A relative stem has no empty, `.` or `..` segment if and only if some way down among the segments of directory and specifier is not taken back; otherwise it is empty |
| `RepoContext.ParentOfATopLevelDirectory` | engine/nodes/repo_context.py:88-98 | One such input: `..` in a file of a top-level directory |
| `RepoContext.RelativeIsAWalk` | engine/nodes/repo_context.py:88-98 | Relative resolution starts in the file's own directory and follows the specifier from there |
| `RepoContext.DownAndUpCancels` | engine/nodes/repo_context.py:91-97 | Going down and back up leaves the walk where it was |
| `RepoContext.Closure` | engine/nodes/repo_context.py:113-136 | The frontier loop, with its early exit, computes the bounded closure |
| `RepoContext.Found` | engine/nodes/repo_context.py:126-131 | One round finds exactly what the frontier imports and is not chosen |
| `RepoContext.WithinIsReachability` | engine/nodes/repo_context.py:113-136 | A file is in the closure if and only if a chain of at most `depth` imports leads to it from a known seed |
| `RepoContext.Monotone` | engine/nodes/repo_context.py:125-135 | The closure grows with the depth |
| `RepoContext.Saturated` | engine/nodes/repo_context.py:132-133 | The early exit loses no file |
| `RepoContext.DistributesOverUnion` | engine/nodes/repo_context.py:113-136 | The closure of a union of seeds is the union of the closures |
| `RepoContext.StepsAdd` | engine/nodes/repo_context.py:113-136 | Following d imports and then e more is following d + e |
| `RepoContext.Dependents` | engine/nodes/repo_context.py:139-168 | The scan finds exactly the other files that import a known target |
| `RepoContext.DependentsAreTheConverse` | engine/nodes/repo_context.py:139-168 | A file that is no target is a dependent if and only if its closure of depth one meets the targets |
| `VerifierBlock.WithVerifiers` | engine/api/main.py:607-639 | The two loops around the block and the join compute the rewritten text |
| `VerifierBlock.KeptLines` | engine/api/main.py:624-639 | With a block, exactly its key line, the lines that belong to it and the comments right above it are replaced |
| `VerifierBlock.AppendedText` | engine/api/main.py:625-626 | Without one, the text up to its final newlines is kept character by character; an empty line and the block follow |
| `VerifierBlock.BlockText` | engine/api/main.py:607-623 | The block line by line: the key, the notes, and the four verifiers in order, each true if and only if it is wanted |
| `VerifierBlock.IsKeyMeaning` | engine/api/main.py:624 | A key line is the key with nothing before it and only spaces after it |
| `VerifierBlock.IsCommentMeaning` | engine/api/main.py:631-639 | A comment line has a number sign with only spaces before it |
| `VerifierBlock.ReplacedLines` | engine/api/main.py:624-639 | Line by line, the result is what is kept above, the new block, and what is kept below |
| `VerifierBlock.KeptFits` | engine/api/main.py:628-639 | What is kept ends above in no comment, and begins below with a line that is neither blank nor indented |
| `VerifierBlock.AppendedFits` | engine/api/main.py:625-626 | Without a block every line of the text is kept and none of them is a key |
| `VerifierBlock.LastWriteWins` | engine/api/main.py:607-639 | Writing twice equals writing once with the second choice if and only if the text had a block or breaks its lines with newlines only |
| `VerifierReading.WrittenIsReadBack` | engine/api/main.py:583-605 | Every choice of blocking verifiers reads back as written if and only if the key is spelled nowhere below the block and the lines left over under it only add other keys |
| `VerifierReading.HarmlessIsRead` | engine/config.py:444-471 | Beside lines that only add other keys the entries read as they were written |
| `VerifierReading.HarmfulIsNotRead` | engine/config.py:444-471 | Beside any other leftover lines some choice does not: another `verifiers:`, more entries, or a layout that is refused |
| `VerifierReading.LaterKeyStands` | engine/api/main.py:624-639 | With a later spelling of the key, whatever is written makes no difference to what is read |
| `VerifierReading.AbsentMeansEveryone` | engine/config.py:444-471 | A text without the key leaves all four verifiers blocking |
| `VerifierReading.LastEntryDecides` | engine/config.py:444-471 | The last entry of a verifier decides whether it blocks |
| `VerifierReading.WithoutEntryItBlocks` | engine/config.py:444-471 | A verifier without an entry blocks |
| `VerifierReading.CommentInTheFirstColumn` | engine/api/main.py:631-639 | A block broken by a comment in the first column, with a verifier turned off below it, keeps it turned off whatever is asked for |
| `VerifierReading.Settings.SetVerifiers` | engine/api/main.py:553-604 | Unknown names, a missing text and a text refused before or after the rewrite leave the table alone; otherwise the rewritten text is stored, names left out keep their setting under the condition above, and what is answered is what the stored text parses to |
| `HookAdmission.RevisionRoundTrip` | engine/api/main.py:1069-1087 | Reading the revision out of a hook's id inverts writing it, exactly for items without a newline |
| `HookAdmission.RevisionOfMeaning` | engine/api/main.py:1078-1087 | A revision is found if and only if the regular expression matches the whole id |
| `HookAdmission.RevisionIsTheGroup` | engine/api/main.py:1086-1087 | And it is the number in the group, however the expression matches |
| `HookAdmission.HookIdsAreInjective` | engine/api/main.py:1069-1075 | Ids tell applications, items and revisions apart |
| `HookAdmission.ManualIdsAreIgnored` | engine/api/main.py:1078-1087 | A run started by hand has no revision and no hook's id |
| `HookAdmission.SupersededMeaning` | engine/api/main.py:1134-1176 | A delivery is superseded if and only if one of the two tables shows its revision or a newer one of its item |
| `HookAdmission.Admission.Launch` | engine/api/main.py:878-902 | The server takes an id once for good, so under every interleaving a revision of an item is started at most once |
| `HookAdmission.Admission.Deliver` | engine/api/main.py:1021-1066 | Undisturbed, and with every earlier start shown by a table, a delivery starts a run if and only if its revision is newer than all started ones; so started revisions strictly increase |
| `HookAdmission.Admission.DeliverAll` | engine/api/main.py:1021-1066 | Over any schedule of deliveries and of runs' rows written at any time or never: if every delivery finds each earlier start of its item in a table, started revisions strictly increase; no delivered revision is left newer than all started ones |
| `HookAdmission.NothingLostIsSeen` | engine/api/main.py:1090-1131 | Every delivery does find them when no delivery's own record is lost, whatever becomes of the runs' rows |
| `HookAdmission.Admission.Delivered` | engine/api/main.py:1090-1131 | Appends the record, or loses it, and changes nothing else |
| `HookAdmission.Admission.RunRecorded` | engine/api/main.py:1165-1171 | The run's own row shows no revision that was not started |
| `ConfigStore.Store.Begin` | engine/config_store.py:79-82 | A hit returns a configuration whose text stood in the table less than ten seconds before the call's clock reading |
| `ConfigStore.DecidedMeaning` | engine/config_store.py:91-125 | Each answer with its conditions, which exclude each other: an unregistered application, one without a text, an unchanged timestamp, a text that does not parse, models that disagree, a fresh parse |
| `ConfigStore.Store.Resume` | engine/config_store.py:91-125 | Each branch as coded; a stored configuration parses a text that stood while the call was under way, so less than ten seconds before the return of a call that took less than that; the entry it leaves is justified |
| `ConfigStore.HeldLatelyExactly` | engine/config_store.py:48-49 | At any moment a configuration stood less than ten seconds ago if and only if a version that holds it was not replaced before then |
| `ConfigStore.SlowCallReturnsAnOldText` | engine/config_store.py:91-125 | A call slow enough returns one that was replaced longer ago |
| `ConfigStore.Store.Write` | engine/config_store.py:46-57 | A write by anyone at any moment keeps every cached entry and waiting call justified |
| `ConfigStore.Store.Forget` | engine/config_store.py:52-57 | Forgetting at any moment keeps the invariant |
| `ConfigStore.ReadIsHeld` | engine/config_store.py:91-125 | The re-parsing path and the one that trusts an unchanged timestamp are both about the text that was read |
| `ConfigStore.StampKnowsTheText` | engine/config_store.py:104-106 | With an unchanged timestamp, the cached configuration parses the text in the row |
| `ConfigStore.RegistryIsComparedUnlessUnchanged` | engine/config_store.py:104-125 | A returned configuration disagrees with the registry row if and only if the timestamp was unchanged and the cached one disagrees |
| `JiraAdf.DocumentRoundTrip` | engine/adapters/ticket/jira.py:34-66 | Printing a text as a document and flattening it gives the text and one newline, for every text |
| `JiraAdf.BlockText` | engine/adapters/ticket/jira.py:34-52 | A hard break ends a line, and so does exactly a paragraph, heading, list item, quotation or code block |
| `JiraAdf.CommentSeesTheText` | engine/adapters/ticket/jira.py:142-160 | The comment reader extracts exactly the printed text without its newlines |
| `JiraAdf.MarkerIsFound` | engine/adapters/ticket/jira.py:142-160 | A newline-free marker in a text is found in the comment printed from it |
| `JiraAdf.Ticket.Acknowledge` | engine/nodes/triage.py:183-217 | However attempts fail or lose their reply, at most one comment of ours is on the ticket, and none is added to a ticket that shows the marker |
| `JiraAdf.Ticket.Mentioned` | engine/nodes/triage.py:205 | The scan finds the marker if and only if some comment's text contains it |

## Left out

- HTTP, containers, git processes, mail, database and workflow clients: only their effects on refs, commits, tables, ids and poll results are modelled.
- Model calls, prompts, the grading of findings and the wording of notes: a verifier is an arbitrary function of its brief, and triage, planner, coder, push and build-and-test are arbitrary within what `FlowModel.Does` says of them.
- Fields of `FlowState` that no modelled decision reads and no verifier sees: workspace, application name, budget and the node-internal ones.
- Cancellation and termination of a run from outside, and the timeouts of activities; a failed activity is one that raised.
- Non-retryable error types: an activity may stop retrying at any attempt, which covers them.
- Distinct approvers: approving decisions are counted, whoever made them, as the code does.
- Opening the pull request is not idempotent, and nothing is claimed about how many are opened.
- DeliveryTheorems.DeletionsExactly: speaks of the artifacts on the state, as the code does; a release that opened a pull request and then raised leaves none, so its branch is deleted.
- Interleavings of Azure pushes: its two requests are modelled by the trees they make, not as a protocol.
- Renames, quoting and ignore rules of git: edits and diff come from one map of paths.
- `forget` in the tree cache, which exists for tests, and the cancellation of a call that owns a fetch.
- The regular expression that reads specifiers out of a file, and the rendering of a repository into a prompt.
- Names and links in CI outcomes are carried, not sorted; two reasons for finding no pipeline are one `NoneAppeared`.
- YAML beyond the layout of block mappings: how one line spells its key, which scalars are true and what a value on its key's own line means are an arbitrary `Reader`, of which only the lines that are written are known. A line indented more deeply than an entry, a sequence at the indentation of its key, and a tab in the indentation count as refused, where YAML would sometimes fold or accept them; block scalars, multi-line flow values and document markers in the first column are not modelled.
- The wording of the note lines in the rewritten block: any indented comment lines.
- Hook payload parsing, the shared secret, and the state, label and trigger filters that come before admission.
- Unicode digits, which the source's `\d` would also accept in a workflow id no hook ever writes.
- `Admission.Deliver` speaks of deliveries that do not overlap: the guard is not a lock, as the source says, and two overlapping deliveries of different revisions may both start.
- The configuration store for several applications: entries of different applications never meet, so one application is modelled; calls without an application, and the loading of the fallback file, are not.
- Configuration parsing, credentials, sessions, roles, hashing and the user interface.
- TreeCache.KeyIdentifiesTheFetch: for exclusion lists without bars only, because the statement is false of others; `TreeCache.CleanExactly` says exactly when.
- Policy.NotProtectedMeaning: for paths as git writes them, without backslash, newline, leading `/` or `./`, because matching normalises the others or treats their newlines differently.
- GitHubPush.ProtectedContentIsInvariant: for edits with such paths, for the same reason.
- ConfigStore.Store.Resume: of a call that itself takes ten seconds or more only that its text stood since the call began; nothing bounds how long a query takes; `ConfigStore.SlowCallReturnsAnOldText` is such a call.
- VerifierReading.WrittenIsReadBack: says nothing of the rest of the file, which can be refused on its own; `VerifierReading.Settings.SetVerifiers` then refuses the change.
- HookAdmission.RevisionRoundTrip: for natural revision numbers; a negative one is written but never read back.
