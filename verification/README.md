# ForgeSync, modelled and proved in Dafny

ForgeSync keeps several Forgejo nodes in step while people push to, edit on and delete from any of
them. This project models the parts whose correctness spans steps, runs, nodes or goroutines, in
the form the program gives them: loops over maps become methods with loops, objects updated in place
become classes, and everything that depends on an interleaving is a protocol of atomic steps. What
the loops compute is tied to functions and step relations, and the promises are proved of those.

`dafny verify dfyconfig.toml` checks everything. Nothing in it runs the program.

## What is modelled

- **Git replication** (`Commits`, `RefPlan`, `Replicate`, `Resumption`, `TwoPasses`, `NoLoss`). A
  three-way decision for each ref, a push that is a compare-and-swap for each ref, the base recorded
  afterwards, the fixes that move the primary, and the two passes. Commits are Merkle nodes, so
  history has no cycles; ancestry questions may go unanswered. In `NoLoss` any number of runs, each
  with its own idea of the primary, work push by push while people change any ref of any node
  between any two steps, answers are lost and runs stop anywhere.
- **Hand-offs** (`Handoffs`, `Overlaps`, `HandoffLoops`, `HandoffNames`, `Decimal`). A diverged
  version on its own branch of the primary, decided by its owner, kept as a backup for a time.
  `Handoffs` is the protocol of one run at a time, `Overlaps` that of any number at once,
  `HandoffLoops` the program's loops, proved to make no change that is not a step of it.
- **The leader election** (`Leadership`, `Elector`, `Election`). One lease row, one database clock,
  controllers whose clocks are off by any amount, requests and answers that take any time or never
  arrive, crashes, hand-overs and clean stops.
- **The set merge** (`SetMerge`, `SetRounds`, `SetLoops`). Reactions, reviews and everything else
  that is a set: one merge, the encoding of the base, rounds in which writes fail with or without
  having taken effect and nodes go unread, and the two write loops.
- **Runs, one at a time** (`Coalescing`). The running and again flags, and goroutines in every
  interleaving.
- **Issues** (`IssueMatching`, `FieldMerge`, `Labels`, `Deletions`). Which record an issue belongs
  to, single values, labels under each node's own ids, and what is deleted where.
- **Nodes, packages, LFS** (`NodeSet`, `Packages`, `Batch`). Which nodes a controller runs with and
  when it restarts, when a package version goes whole, and the reading of `cat-file --batch`.
- `Text` and `Optional` hold Go's string order, sorting, `Join`, `Split` and optional values.

## What did not hold as promised

Each of these is a lemma that shows the case that fails, and beside it one that says when the promise is met.

- A single value is lost when one write fails: the base moves all the same
  (`internal/issues/sync.go:928-937`), the value left behind is then the only new one, and the next
  full round puts it back everywhere (`FieldMerge.MissedWriteUndoesTheEdit`).
- A hand-off found merged whose record could not be saved frees its branch name while the record
  stays open; the next hand-off takes the name, and the run after that deletes the branch under it
  (`Handoffs.FailedSaveLosesABackup`).
- Moving the primary does the same with every save working. A name is free when the current primary
  has no such branch (`internal/replication/handoff.go:354`) and branches are deleted by name on the
  current primary (`internal/replication/handoff.go:448-459`), but the primary may be changed at any
  time (`internal/api/repos.go:220`, `internal/store/repos.go:316`), so an old primary's backup that
  expires takes the new primary's hand-off of that name with it (`Handoffs.MovedPrimaryLosesABackup`).
- While runs do not overlap, the promise holds exactly under this condition: recording a hand-off is safe against
  everything that may properly follow if and only if no active record of any primary carries its name
  (`Handoffs.OpeningIsSafeExactlyWhen`), and over every behaviour hand-offs stay in order if and only
  if names were free in that sense and each extension was made on the hand-off's own primary or to
  commits safe there (`Handoffs.SoundThroughoutExactlyWhenProper`). It holds by itself when merged and
  expired ones are recorded as such and the primary is moved only while no hand-off is active
  (`Handoffs.CarefulRunsAreProper`). An extension made elsewhere is how the other half fails
  (`Handoffs.ExtendingAwayLosesABackup`).
- Runs may overlap: a triggered one is not cancelled when its controller hands the lease over
  (`internal/replication/engine.go:254-256`), and the next leader starts its own. With every save
  working, the primary in place and the name free, a run that loaded an expired backup then deletes
  the hand-off another run has opened under that name (`Overlaps.OverlapLosesABackup`), and one that
  finds the same divergence takes the other's new branch back (`Overlaps.OverlapTakesABranchBack`).
  No check made at opening is enough then (`Overlaps.NoNameIsSafe`). What is exactly enough is one
  made when a branch is deleted: that no other hand-off that is active on file or held by a run still
  needs it (`Overlaps.SafeThroughoutExactlyWhenConsiderate`).
- A reset is the owner's choice only on the primary the hand-off was opened on: pull requests are read
  by number on the current primary (`internal/replication/handoff.go:173`), so after a move another
  one's closing resets the replicas (`Handoffs.ResetsAsAsked` has both directions).
- A backup's time runs from the start of the pass, not from the reset (`Handoffs.BackupCountsFromPassStart`).
- The set encoding loses the set that holds only the empty string, and any member with a comma
  (`SetMerge.StoredReadsBack`).
- Two passes do not always suffice on a chain of heads: a replica ahead that stands at its own base
  reads as history rewritten on the primary (`TwoPasses.TwoPassesSuffice` has the condition).
- A node that joins decides: where everyone had agreed, its set becomes the verdict (`SetRounds.JoiningDecides`).
- A wake-up is lost by a cancelled run, by a failed run of the issue syncer, and by a record that is
  gone: `Coalescing.StoppedRunLosesAWakeUp` is a behaviour in which it happens, and
  `Coalescing.LostExactlyWhen` says for every behaviour when it does.
- Deleting a package version whole also takes files the round does not count to it: those whose member
  cannot be taken apart again, because a part of it holds a bar, and those with a name it takes for the
  node's own. Publishers choose names freely (`internal/replication/packages.go:100-109`); what a
  registry lists becomes a member (`internal/replication/packages.go:228-250`), but for any maven file
  starting with `maven-metadata.xml` and any nuget file ending in `.nuspec`
  (`internal/replication/packages.go:119-127`). `Packages.WholeTakesAnUnplannedFile` has versions in
  which a file is lost that no other node ever had, `Packages.WholeTakesOnlyThePlan` says of any files
  of a version when none is.
- A missing object ends the reading of a batch, and what follows it is not returned
  (`Batch.MissingEndsIt`, `Batch.ReadsAllExactlyWhen`).
- Leader exclusion rests on a failed call taking no effect afterwards (`Election.StrayReleaseSplits`).

## Model

| member | source | states |
|---|---|---|
| `RefPlan.Plan` | internal/replication/plan.go:77-107 | From the refs alone: created exactly what the replica lacks, deleted exactly what the primary dropped and the replica still has as written, fast-forwarded exactly branches known to be behind; and for each of the five kinds of issue, exactly when it is flagged |
| `RefPlan.PlanIs` | internal/replication/plan.go:77-140 | A plan holds exactly the refs whose verdict is to act and flags exactly those whose verdict is to ask |
| `RefPlan.PlanExactly` | internal/replication/plan.go:77-140 | The same of the lists other lemmas speak of |
| `RefPlan.PlanLosesNothing` | internal/replication/plan.go:4-10 | With truthful ancestry a create meets nothing, a fast-forward contains what it replaces and is no tag, a delete takes what was recorded as written, and nothing is ever planned as a reset |
| `RefPlan.EveryDifferenceIsSettledOnce` | internal/replication/plan.go:77-140 | A ref is acted on or flagged exactly when primary and replica differ on it, never both |
| `RefPlan.PlanInOrder` | internal/replication/plan.go:149-162 | Both lists are in ref order with one entry a ref |
| `Replicate.SplitHandoffRefs` | internal/replication/handoff.go:39-50 | Splits all refs into the ones to replicate and the hand-off branches, losing none |
| `Replicate.Remote.PushOne` | internal/replication/git.go:167-205 | One ref moves only from the value expected, may be refused, and its answer may be lost |
| `Replicate.Remote.Push` | internal/replication/git.go:167-205 | Each ref is a compare-and-swap of its own: some land, all of those met what was expected, and what is accepted landed or was there |
| `Replicate.NextBase` | internal/replication/engine.go:629-676 | The new base is the old one, with refs in sync brought up to date, refs gone everywhere dropped and accepted updates applied; refs with issues or failed pushes keep theirs |
| `Replicate.BringUpToDate` | internal/replication/engine.go:569-687 | One replica: everything planned is pushed, whatever is not accepted was refused or met another value, the base and the issues follow, and failed or synced exactly when some update was not accepted or all were and nothing was flagged |
| `Replicate.AutoFix` | internal/replication/handoff.go:87-129 | The primary is asked for exactly the replica's commits ahead of it and the refs it lacks, by compare-and-swap; the view follows what was accepted and the other issues stay |
| `Replicate.FixesAre` | internal/replication/handoff.go:92-100 | Which issues have a fix, and what it is |
| `Resumption.ReplanResumes` | internal/replication/engine.go:629-676 | After any part of a push landed and any part of that was reported, planning again gives exactly what did not land, in order, and exactly the same issues |
| `Resumption.VerdictAfter` | internal/replication/plan.go:77-140 | One ref's verdict after a partial push: nothing to do where it landed, the same as before everywhere else |
| `Resumption.ConvergesExactlyWhen` | internal/replication/engine.go:604-687 | The replica equals the primary exactly when everything planned landed and nothing was flagged |
| `Resumption.BaseConverges` | internal/replication/engine.go:629-676 | And then the base recorded is the primary's refs |
| `TwoPasses.TwoPassesSuffice` | internal/replication/engine.go:298-308 | With nobody pushing, a branch whose heads form a chain stands at the top on every node and in every base after runPasses, if and only if the top was on the primary or on a replica not at its base |
| `TwoPasses.GoneEverywhereExactlyWhen` | internal/replication/engine.go:298-308 | A ref gone from the primary is gone from every node and base after runPasses, if and only if each replica that has it has what was last written there |
| `TwoPasses.NewBranchesSpread` | internal/replication/engine.go:298-308 | A branch made on replicas only, whose heads form a chain, stands at the top everywhere after runPasses |
| `TwoPasses.AfterPassesAt` | internal/replication/engine.go:298-308 | What the passes over whole repositories do to one branch |
| `TwoPasses.StepIsVerdict` | internal/replication/plan.go:109-140 | What one replica's turn does to one branch of primary and replica, for each verdict |
| `TwoPasses.Engine.SyncReplica` | internal/replication/engine.go:476-486 | One turn of the replica loop: replicate, then autoFix |
| `TwoPasses.Engine.RunOnce` | internal/replication/engine.go:455-505 | The replica loop is a pass over all replicas, each compared with the primary as the ones before left it |
| `TwoPasses.Engine.RunPasses` | internal/replication/engine.go:298-308 | At most two passes, the second only if the first moved the primary |
| `NoLoss.NeverOverwritesWork` | internal/replication/plan.go:4-10 | Over every behaviour, a branch head that replication or a fix replaces is an ancestor of the new one, tags are only created or deleted, and what is deleted stood at a value some primary held for that ref |
| `NoLoss.SafeAlways` | internal/replication/engine.go:569-687 | What every step keeps: views, bases and pending updates never name a value no primary held, and no pending update can lose work |
| `NoLoss.BasesAreHistory` | internal/replication/engine.go:629-676 | Every value in a base stood on some primary |
| `NoLoss.FixIsSafe` | internal/replication/handoff.go:87-129 | A fix contains what it replaces, for any true ancestry |
| `Handoffs.SoundStep` | internal/replication/handoff.go:159-409 | What every proper deed keeps while runs do not overlap, on whichever primary the run works and whatever a new primary was filled with: active hand-offs have names of their own, are backed up on the primary they were opened on unless merged or over their time, and the run's copies agree with the records |
| `Handoffs.SoundExactlyWhenProper` | internal/replication/handoff.go:320-356 | And exactly the proper deeds keep it: a hand-off is recorded only under a name no active record of any primary carries, and moved along only on its own primary or to commits safe there |
| `Handoffs.SoundThroughoutExactlyWhenProper` | internal/replication/handoff.go:159-409 | Over every behaviour of runs that do not overlap, through failed saves, crashes and changes of primary, hand-offs are in order throughout if and only if every deed was proper |
| `Handoffs.ResetsKeepABackup` | internal/replication/handoff.go:221-272 | A reset or delete of a replica takes off only the head handed off, and every commit in it is in the hand-off's branch on the primary it was opened on, unless the primary was moved and its pull request was merged before |
| `Handoffs.ResetsAreAsked` | internal/replication/plan.go:25-28 | Over every behaviour, a replica is reset, or gone through, only after the hand-off's pull request number was reported closed, and not merged, on the node the run takes for the primary: the hand-off's own exactly when the run is at home |
| `Handoffs.ResetsAsAsked` | internal/replication/handoff.go:171-205 | On whichever primary, a run can reset a waiting replica, and the pull request it found closed was the hand-off's own if and only if that is the hand-off's primary |
| `Handoffs.DeletionsAreDue` | internal/replication/handoff.go:171-219 | Over every proper behaviour of runs that do not overlap, on any primaries, a hand-off's branch goes only when its pull request was reported merged or BackupFor has passed since the pass that dealt with its last replica began; `Overlaps.DeletionsAreDue` is about runs that do |
| `Handoffs.CarefulRunsAreProper` | internal/replication/handoff.go:159-409 | With merged and expired hand-offs recorded as such, and the primary moved only while no hand-off of another is active, every deed is proper |
| `Handoffs.FailedSaveLosesABackup` | internal/replication/handoff.go:182-188 | One failed save, and five deeds delete the branch of a hand-off that is open and not merged |
| `Handoffs.MovedPrimaryLosesABackup` | internal/replication/handoff.go:448-459 | A primary moved while a backup is kept, every save working, and six deeds do the same |
| `Handoffs.ExtendingAwayLosesABackup` | internal/replication/handoff.go:320-347 | A hand-off whose leftover on another primary is moved along names commits that are on no branch of its own primary |
| `Handoffs.OpeningIsSafeExactlyWhen` | internal/replication/handoff.go:352-356 | Once a hand-off is recorded, no proper continuation by runs that do not overlap can lose an active hand-off's branch if and only if no active record of any primary carried the name; `Overlaps.NoNameIsSafe` is about runs that do |
| `Handoffs.BackupCountsFromPassStart` | internal/replication/handoff.go:168-195 | The backup lasts BackupFor after its record was made exactly when no time passed since the pass began |
| `Overlaps.SafeExactlyWhenConsiderate` | internal/replication/handoff.go:448-459 | With any number of runs on one repository, each with memory as stale as may be, exactly the considerate acts keep every hand-off that is active on file or held by a run: a branch is deleted only when no other of those still needs it, and moved along only at home or to commits safe there |
| `Overlaps.SafeThroughoutExactlyWhenConsiderate` | internal/replication/handoff.go:159-409 | The same over every behaviour of overlapping runs |
| `Overlaps.ResetsKeepABackup` | internal/replication/handoff.go:221-272 | However runs overlap, if the acts before were considerate, every commit a reset takes off is on the hand-off's branch, or its pull request was merged before a move |
| `Overlaps.DeletionsAreDue` | internal/replication/handoff.go:171-219 | However runs overlap, if the acts were considerate, an active hand-off's branch goes only when merged, or BackupFor after a pass that found its last replica dealt with |
| `Overlaps.ProperAloneIsConsiderate` | internal/replication/engine.go:266-296 | While runs do not overlap, what is proper for the one run is considerate |
| `Overlaps.OverlapLosesABackup` | internal/replication/engine.go:254-256 | Two runs that both loaded an expired backup, each act proper for a run alone, delete the branch of a hand-off that is open and not merged |
| `Overlaps.OverlapTakesABranchBack` | internal/replication/handoff.go:357-395 | Two runs handing over one divergence: the second's create is accepted, its pull request refused, and the first's branch taken back |
| `Overlaps.NoNameIsSafe` | internal/replication/handoff.go:352-356 | Whatever name an open hand-off got, acts of overlapping runs, each proper for a run alone, can lose it |
| `HandoffLoops.Decisions.ApplyDecisions` | internal/replication/handoff.go:159-219 | Makes only deeds of the protocol; each hand-off ends as its pull request's state says, and for each exactly what that calls for was asked: its branch deleted, its waiting replicas reset, its record saved |
| `HandoffLoops.Decisions.DecideOne` | internal/replication/handoff.go:171-216 | The same for one hand-off |
| `HandoffLoops.Decisions.Closed` | internal/replication/handoff.go:189-205 | A closed one is decided, waits for the replicas left, and becomes a backup for BackupFor once there are none |
| `HandoffLoops.Decisions.ResetReplicas` | internal/replication/handoff.go:221-272 | Every healthy waiting replica is sent the primary's value or a deletion over what was handed off; it is struck off exactly when that was taken or met another value, and then no longer holds what was handed off, or holds what the primary has; unhealthy ones wait, unconfigured ones do not |
| `HandoffLoops.Decisions.ResetOne` | internal/replication/handoff.go:230-269 | One replica's reset, skipped when unconfigured, put off when unhealthy, done when accepted or stale |
| `HandoffLoops.Decisions.DeleteBranch` | internal/replication/handoff.go:448-459 | Deletes only a branch the run knows, at the value it knows, and forgets it only if that was accepted |
| `HandoffLoops.Decisions.HandOff` | internal/replication/handoff.go:297-316 | A version ends in an open hand-off that covers all its replicas; or it has none, and its new branch, its pull request or its record was refused; one that has a hand-off already is always covered; other versions' hand-offs stay as they were |
| `HandoffLoops.Decisions.HandOffAll` | internal/replication/handoff.go:276-317 | All divergences of a run, grouped and gone through in any order: each replica's head ends in an open hand-off covering every replica that stands there, or was tried in full and refused; a version that continues an untouched hand-off of the same replicas led to a push of its branch; no hand-off held is dropped or stops covering a replica |
| `HandoffLoops.StillHandedOver` | internal/replication/handoff.go:276-317 | One version's turn, an extension included, takes no hand-off away from another version |
| `HandoffLoops.Decisions.Extend` | internal/replication/handoff.go:320-347 | The branch of an open hand-off of the same replicas, untouched by its owner and contained in the new head, is pushed whenever there is one, and the hand-off moves along exactly if that was taken |
| `HandoffLoops.Decisions.OpenOne` | internal/replication/handoff.go:349-409 | A new hand-off is held only with its branch created under the next free name, its pull request made and its record saved; otherwise one of these was refused; every way of failing in between is a deed too |
| `HandoffNames.FreeName` | internal/replication/handoff.go:352-356 | The naming loop ends for every ref map, with the first candidate not in use |
| `HandoffNames.FreeBranch` | internal/replication/handoff.go:352-356 | The name is a hand-off branch, not in use, and the first in line: plain, then -2, -3 and so on |
| `HandoffNames.CandidatesDiffer` | internal/replication/handoff.go:354-356 | No two candidates are the same, which is why the loop ends |
| `Leadership.LeaseStore.AcquireLease` | internal/store/leadership.go:44-66 | Takes or renews the lease exactly when it is free for the holder by the database's clock, and then it runs a whole ttl from now, acquired when the holder first took it; otherwise leaves it, and returns it as others have left it by the time it is read |
| `Leadership.LeaseStore.Upsert` | internal/store/leadership.go:48-67 | The conditional upsert: a row comes back exactly when it was taken, and its expiry is now plus ttl, its renewal now |
| `Leadership.LeaseStore.ReleaseLease` | internal/store/leadership.go:83-88 | Ends the lease now, if it is this holder's: the step of `Election.OneLeader` that `Election.StrayReleaseSplits` shows must not come late |
| `Leadership.Lease.For` | internal/store/leadership.go:28-34 | Positive exactly while held, and then what is left until the expiry |
| `Elector.Elector.Once` | internal/leader/elector.go:144-191 | One round for every way the calls can go: nothing while quiet or unanswered, otherwise until is counted from when the request went out, and a leader that should yield hands over |
| `Elector.Elector.HandOver` | internal/leader/elector.go:193-214 | Stops leading first, stays out for exactly the shorter of two renewals and a lease, then releases |
| `Elector.Elector.StepDown` | internal/leader/elector.go:216-233 | A leader stops leading before it releases; anyone else changes nothing |
| `Elector.Elector.Leading` | internal/leader/elector.go:112-117 | Leading is the own deadline lying ahead and nothing else, which is the condition `Election.OneLeader` allows to one controller at a time |
| `Elector.Elector.constructor` | internal/leader/elector.go:102-110 | The defaults, and a renewal always shorter than the lease |
| `Election.StepKeepsGood` | internal/leader/elector.go:112-233 | What every step of any controller, the database or time keeps: each deadline is covered by the row until it has passed |
| `Election.LeaseOutlastsLeader` | internal/leader/elector.go:167-175 | In every reachable state a leader's own deadline is not beyond the database's expiry for it, whatever the clocks' offsets and the delays |
| `Election.OneLeader` | internal/store/leadership.go:44-66 | In every reachable state at most one controller is leading |
| `Election.RenewalExtends` | internal/leader/elector.go:167-175 | In every reachable state, a leader that is answered leads on, until its request went out plus a whole lease, which is no earlier than its deadline was: there is no gap |
| `Election.RenewedLeadsOn` | internal/leader/elector.go:144-191 | And it leads for all that time, whatever anybody else does, unless it hands over, stops or crashes |
| `Election.HandOverKeepsOut` | internal/leader/elector.go:193-214 | Whatever follows a hand-over, that controller does not lead for two renewals, or for a lease if that is shorter |
| `Election.ExpiredLeaseIsTaken` | internal/leader/elector.go:144-191 | Once the row has run out, a controller that asks leads when answered, if and only if the two journeys took less than a lease |
| `Election.StrayReleaseSplits` | internal/store/leadership.go:83-88 | A release that took effect after its call had failed would let a second controller lead |
| `SetMerge.Value` | internal/set/set.go:24-34 | The members marked true, sorted, joined by commas |
| `SetMerge.From` | internal/set/set.go:36-43 | Exactly the comma-separated parts, none for the empty value |
| `SetMerge.StoredReadsBack` | internal/set/set.go:24-43 | A stored set reads back as itself if and only if no member holds a comma and it is not the set of the empty string alone |
| `SetMerge.StoredCanonical` | internal/set/set.go:24-34 | Equal stored values exactly for equal sets |
| `SetMerge.Decide` | internal/set/set.go:51-84 | Each node gets exactly the new members it lacks and loses exactly the agreed ones another node lacks, in order, whatever order the maps are gone through in |
| `SetMerge.Settle` | internal/set/set.go:86-110 | What every node has joins the base, what none has leaves it, anything half-done keeps its place |
| `SetMerge.MembersOf` | internal/set/set.go:112-129 | Everything the base or a node mentions, sorted, once each |
| `SetRounds.RoundKeepsVerdicts` | internal/set/set.go:11-22 | However a round goes, every member's verdict stays: writes failing with or without effect, nodes unread, the base not saved or the run stopped before that |
| `SetRounds.RoundsConverge` | internal/set/set.go:19-22 | Any sequence of half-done rounds, saved or not, and then one that goes right, reaches the sets and the base that one going right at once would have reached |
| `SetRounds.PendingShrinks` | internal/set/set.go:19-22 | A round takes out of what is owed exactly the planned writes that took effect, and adds nothing |
| `SetRounds.PlannedIsPending` | internal/set/set.go:51-84 | What is planned is still owed, and with every node read everything owed is planned |
| `SetRounds.NothingOwedSettles` | internal/set/set.go:86-110 | Once every owed write landed in some round, a round that reads every node and is saved records the verdict as the base and writes nothing |
| `SetRounds.SettlingWithoutSome` | internal/replication/settle.go:5-27 | Settling from some of the nodes keeps a verdict exactly when no node left out disagrees with what the others came to |
| `SetRounds.UnreadReadsAsDeletion` | internal/replication/settle.go:10-17 | Otherwise a member the unread node has not got yet is planned for removal everywhere |
| `SetRounds.JoiningKeepsVerdict` | internal/set/set.go:65-79 | A joining node keeps a verdict exactly when its set agrees with it in the way the base leaves open |
| `SetRounds.JoiningDecides` | internal/issues/sync.go:1046-1049 | Where all had agreed, a joining node's set becomes the verdict; an empty one has every member removed everywhere |
| `SetLoops.Reactions.React` | internal/issues/reactions.go:61-91 | One write; what the node is taken to have changes only on success |
| `SetLoops.Reactions.SyncReactions` | internal/issues/reactions.go:45-59 | Exactly the planned writes are sent, the sets afterwards are the ones those that succeeded give, complete means all did, and the base returned is settled from what was seen |
| `SetLoops.Reactions.Run` | internal/issues/sync.go:1039-1062 | A run over one issue is one round, however it went and whether or not it could be saved, and a perfect one if it was complete, read every copy and was saved |
| `SetLoops.RecordsARound` | internal/replication/settle.go:29-34 | Saving the base only when every copy was read, or not at all, is what makes it a round |
| `SetLoops.Reviews.SyncReviews` | internal/issues/reviews.go:94-151 | Exactly the planned writes are sent, complete means all of them succeeded, no review is reworded, and what is copied is what the first node that had it said; some node always has it |
| `SetLoops.Reviews.Run` | internal/issues/sync.go:1004-1036 | A run over one pull request is one round, however it went, and a perfect one if it was complete, read every copy and was saved |
| `SetLoops.Reviews.FindReview` | internal/issues/reviews.go:153-161 | The first node, in the run's order, that has the review |
| `SetLoops.FirstStays` | internal/issues/reviews.go:153-161 | Copies made on the way do not change which words are copied |
| `Coalescing.Engine.Trigger` | internal/replication/engine.go:234-264 | Its critical section, the Trigger step of `Coalescing.EveryTriggerIsServed`: a busy repository is marked to go round again, an idle one is the caller's to start; other repositories are untouched |
| `Coalescing.Engine.Enter` | internal/replication/engine.go:266-276 | RunRepo's first critical section, the Enter step of `Coalescing.OnePassAtATime` |
| `Coalescing.Engine.Leave` | internal/replication/engine.go:277-287 | The one after the passes, the EndPasses step of `Coalescing.LostExactlyWhen`, where stop is a cancelled context |
| `Coalescing.Engine.LeaveIssues` | internal/issues/sync.go:209-222 | The issue syncer's, the same step, where stop is also a failed run |
| `Coalescing.Engine.Forget` | internal/replication/engine.go:288-294 | The one after the record was not found, the Forget step of `Coalescing.LostExactlyWhen` |
| `Coalescing.OnePassAtATime` | internal/replication/engine.go:266-296 | In every interleaving, at most one goroutine is inside runPasses for a repository, and the flag says running exactly when one holds it |
| `Coalescing.CoveredStep` | internal/replication/engine.go:234-296 | What every step keeps but the losing ones: whatever was asked for, somebody is on the way to it, exactly until a step that loses it |
| `Coalescing.LostExactlyWhen` | internal/replication/engine.go:234-296 | In every behaviour, a Trigger after which nobody asks again is never followed by a pass if and only if some step before the first pass loses it: a stop although told to go round, a record that is gone, or asking between that and the clearing of the flag |
| `Coalescing.NoPassAfterLost` | internal/replication/engine.go:277-296 | Once nobody is on the way to what was asked for, no pass begins until somebody asks again |
| `Coalescing.StoppedRunLosesAWakeUp` | internal/replication/engine.go:277-283 | A behaviour from the start: a Trigger during a pass that is then stopped is never served |
| `Coalescing.EveryTriggerIsServed` | internal/replication/engine.go:234-236 | With no run cancelled and the record there, every Trigger, busy or not, is followed by the start of a pass before everything has come to rest |
| `Coalescing.ComesToRest` | internal/replication/engine.go:277-295 | With nothing new asked for, at most a computed number of steps remain |
| `Coalescing.SomeStep` | internal/replication/engine.go:266-296 | A goroutine that has not returned can take a step: nothing waits for ever |
| `FieldMerge.Merge` | internal/issues/merge.go:24-50 | Conflict exactly on two different new values; otherwise the one new value, or the base, and exactly the nodes that differ from it, in any map order |
| `FieldMerge.Field.Sync` | internal/issues/sync.go:869-938 | One field, node by node: those compared decide, those that only catch up and those left alone do not; one new value becomes the base and is sent to exactly those that differ and are not left alone; two, or one a node refuses, change nothing |
| `FieldMerge.SharedRegister` | internal/issues/merge.go:24-50 | A full round leaves every node and the base at one value if and only if at most one new value was introduced; otherwise it changes nothing |
| `FieldMerge.OneEditWins` | internal/issues/merge.go:8-12 | One new value anywhere is what everyone has after a full round |
| `FieldMerge.AgreementIsQuiet` | internal/issues/merge.go:16-19 | Where all agree, a round writes nothing |
| `FieldMerge.MissedWriteUndoesTheEdit` | internal/issues/sync.go:928-937 | After a round with failed writes or unread copies, the next full round keeps the edit if every node that was behind was written, and takes it back everywhere otherwise |
| `IssueMatching.Run.Match` | internal/issues/sync.go:688-758 | Every issue, label or milestone read from a node becomes the copy of exactly one record; a record gains a copy only of one that agrees with it as it was, in author and the title people see, or in name; a new record is made only where none agreed; a deleted one comes back only by being found on the primary, and if a save fails the store still holds none twice |
| `IssueMatching.Run.Place` | internal/issues/sync.go:726-757 | One unknown issue, label or milestone becomes a copy of the first record that agrees with it, or of a new one with its author and title where none does |
| `IssueMatching.Run.Find` | internal/issues/sync.go:728-733 | The first record without a copy on the node whose author and title, as the first node in order that has it shows it, agree or, for labels and milestones, whose name does, under any folding of letter case |
| `IssueMatching.PlacedInjective` | internal/issues/sync.go:726-757 | Placing an issue no record claims keeps every Forgejo id claimed at most once on each node |
| `IssueMatching.StoreInjective` | internal/issues/sync.go:738-753 | So does the store that holds those records |
| `Labels.NewItemIndex` | internal/issues/items.go:351-369 | The two maps hold exactly the copies on record and undo each other, in any order of the records' maps; `Labels.MatchedItemsInjective` and the two rows after it say why the records qualify |
| `Labels.MatchedItemsInjective` | internal/issues/items.go:98-170 | After the matching, no two records have one id or claim one label of a node |
| `Labels.SyncedItemsInjective` | internal/issues/items.go:196-312 | A run over one record keeps that, if the nodes give new labels new ids |
| `Labels.FewerItemsInjective` | internal/issues/items.go:172-180 | So does leaving out records that are gone |
| `Labels.LabelsValue` | internal/issues/items.go:371-383 | The records of the issue's own labels that are not kept, sorted, joined |
| `Labels.LabelFids` | internal/issues/items.go:391-414 | Nothing if some label has no copy there; otherwise exactly the value's labels and those that stay |
| `Labels.ReadsBack` | internal/issues/items.go:371-414 | A value put on an issue reads back without what is kept, so as itself exactly when it names nothing kept; organization and kept labels stay |
| `Deletions.Tracked.Present` | internal/issues/items.go:196-217 | Deleted exactly when marked or gone from the primary; a copy missing elsewhere is dropped to be made again |
| `Deletions.Tracked.Purge` | internal/issues/sync.go:1097-1130 | Unchanged copies elsewhere go, changed ones stay and are kept, missing ones are dropped, the primary's entry always is, and the record goes with its last copy |
| `Deletions.Tracked.Sync` | internal/issues/items.go:194-312 | One run over a record, saved or not: if the primary's copy is gone, every unchanged other copy is asked to be deleted and nothing is copied; otherwise nothing is deleted, exactly the edits that are due are sent, and a copy is asked for wherever there is none, each with every field at its merged value, or in a conflict the primary's; what is on file is what the run has, as it was, or as far as copies were recorded on the way |
| `Deletions.Tracked.MergeFields` | internal/issues/items.go:255-291 | Every field merged by the single-value rule; exactly the copies that show another value are sent the new one; a new copy gets the merged values, or the primary's where there is a conflict |
| `Deletions.DeletionsAreDue` | internal/issues/sync.go:1093-1130 | Over every life of a record, with runs whose outcome could not be saved among them, a copy is deleted only if the primary's was gone, then or earlier with no return since, and only a copy that shows the values last agreed |
| `Deletions.DeletedForAReason` | internal/issues/sync.go:1241-1270 | A record is marked deleted only by the primary's copy being gone |
| `Deletions.DeletedIsNotCopied` | internal/issues/sync.go:1093-1096 | A record marked deleted is copied nowhere until it is found again on the primary |
| `NodeSet.Fingerprint` | internal/nodes/watch.go:35-51 | The hash over the sorted lines |
| `NodeSet.OrderDoesNotMatter` | internal/nodes/watch.go:44 | The fingerprint does not depend on the nodes' order |
| `NodeSet.FingerprintTellsApart` | internal/nodes/watch.go:35-51 | With hashes that do not collide, two fingerprints agree if and only if the same nodes, as a multiset, would be wired |
| `NodeSet.Resolve` | internal/nodes/nodes.go:106-166 | Every configured node ends up with a row, retired ones stay out, no row is changed, and each node is wired as its row says with the token the key opens, or as the config file says; while the database answers it fails only on a row that cannot be wired |
| `NodeSet.WireableExactlyWhen` | internal/nodes/nodes.go:60-96 | A row can be wired exactly when the key opens its token or, without one, the config file has one of that name |
| `NodeSet.TakeIn` | internal/nodes/nodes.go:139-164 | A configured node the database never had is saved and used; a known or retired name is not |
| `NodeSet.FingerprintStored` | internal/nodes/watch.go:98-117 | An error exactly when some row cannot be read; otherwise the fingerprint of what the rows give |
| `NodeSet.Look` | internal/nodes/watch.go:63-96 | One turn of the watcher: it restarts exactly on a fingerprint it could build and that differs |
| `NodeSet.SettleThenLook` | internal/nodes/watch.go:98-102 | A controller with uniquely named nodes never restarts itself for nothing: looking again gives the fingerprint it started with, or none exactly when some node has no token |
| `NodeSet.SamePrint` | internal/nodes/watch.go:98-102 | Rows read in any order give one fingerprint |
| `NodeSet.ReadableExactlyWhen` | internal/nodes/nodes.go:86-90 | The rows can be read back exactly when every node has a token |
| `NodeSet.TwiceNamedRestarts` | internal/nodes/nodes.go:139-164 | Nodes wired with a name used twice have another fingerprint than any rows give, so the watcher would restart the controller |
| `NodeSet.Database.SaveNode` | internal/store/store.go:178-203 | The upsert: defaults, a kept token, and the row live again |
| `Batch.BatchContents` | internal/replication/git.go:382-404 | The loop ends on every input, with what Parsed says |
| `Batch.RoundTrip` | internal/replication/git.go:382-384 | For every list of objects with any bytes, the contents come back exactly, in order |
| `Batch.ObjectsThenRest` | internal/replication/git.go:382-404 | Whatever follows whole objects is read as it would be alone |
| `Batch.MissingEndsIt` | internal/replication/git.go:392-395 | An object reported missing ends the reading: the contents before it come back, and nothing after it |
| `Batch.ReadsAllExactlyWhen` | internal/replication/git.go:382-404 | Every object that is there comes back, if and only if none that is there comes after one that is not |
| `Batch.NegativePanics` | internal/replication/git.go:396-401 | A negative size, which is never printed, would panic |
| `Packages.MemberTakenApart` | internal/replication/packages.go:57-77 | A member gives its file back, up to the digest's length, exactly when no part holds a bar, and is not taken apart otherwise |
| `Packages.PackagesOn` | internal/replication/packages.go:226-252 | The page loop ends with exactly the members of the listed files that are not taken for node-built |
| `Packages.NodeBuiltIs` | internal/replication/packages.go:119-127 | Which names are taken for node-built |
| `Packages.ContestedFiles` | internal/replication/packages.go:365-389 | Exactly the names held with different content |
| `Packages.ContestedExactlyWhen` | internal/replication/packages.go:365-389 | A held file is contested exactly when the same file of the same version is held somewhere with another digest |
| `Packages.NamesAgreeExactlyWhen` | internal/replication/packages.go:79 | Names agree exactly for one file of one version, read with spaces between type, name and version; without spaces in them, exactly when all four are the same |
| `Packages.WithoutContested` | internal/replication/packages.go:391-402 | The plan without contested files, and nothing else missing |
| `Packages.WholeVersions` | internal/replication/packages.go:480-496 | By counting: exactly the planned versions of which every listed file is planned |
| `Packages.Owner.RemoveFiles` | internal/replication/packages.go:477-538 | Each planned file is asked for in the one way it can go: its version whole when all of it goes, alone if generic, otherwise not at all; only planned members go from what the node is taken to have |
| `Packages.Owner.AddFiles` | internal/replication/packages.go:448-475 | Exactly the planned files of a carried type that another node has are put on the node |
| `Packages.Owner.Sync` | internal/replication/packages.go:285-308 | Every node read is asked for exactly what is due: a version whole when every file listed there is to go and none is contested, a generic file alone otherwise, every missing file of a carried type, and nothing contested |
| `Packages.NothingPublishedOver` | internal/replication/packages.go:365-402 | What is published stands beside no other content of its name on any node |
| `Packages.WholeTakesOnlyThePlan` | internal/replication/packages.go:477-496 | Of any files a registry lists under a version deleted whole, all were planned if and only if none has a name taken for node-built and each whose member cannot be taken apart is planned |
| `Packages.WholeTakesAnUnplannedFile` | internal/replication/packages.go:477-510 | Two files of one version, one with a bar in its name or a name taken for node-built: once the other is deleted elsewhere, the version is asked for whole, though that file was never agreed and is nowhere else |
| `Packages.NotesGoWithTheirVersion` | internal/replication/packages.go:119-127 | So it is with notes uploaded as `maven-metadata.xml.notes` |

## Left out

- `NoLoss.NeverOverwritesWork`: hand-off resets are not among its steps, because their promise is another one: `Handoffs.ResetsKeepABackup`.
- `NoLoss.SafeAlways`: guards, protected branches, mirrors, renames and health only make a step refuse or not happen, and any push may be refused.
- `TwoPasses.TwoPassesSuffice`: every node healthy, every push accepted, ancestry always answered and no hand-off reset between the passes, as the promise is made; tags and branches the primary lacks are not part of it.
- `Handoffs.DeletionsAreDue`: requires the deeds before to be proper, which the program does not check; `Handoffs.SoundThroughoutExactlyWhenProper` shows that nothing less would do, and `Handoffs.FailedSaveLosesABackup` and `Handoffs.MovedPrimaryLosesABackup` what happens otherwise.
- `Handoffs.ResetsKeepABackup`: the same condition on the deeds before.
- `Handoffs.SoundThroughoutExactlyWhenProper`: runs that do not overlap, which `Coalescing.OnePassAtATime` gives within one controller only; `Overlaps.SafeThroughoutExactlyWhenConsiderate` is the condition for runs that do.
- `Handoffs.OpeningIsSafeExactlyWhen`: runs that do not overlap, likewise.
- `Overlaps.SafeExactlyWhenConsiderate`: the program checks none of this before it deletes a branch.
- `HandoffLoops.Decisions.ApplyDecisions`: nobody else acts between its steps; interleavings are those of the protocol in `Handoffs`, which its steps belong to.
- `HandoffLoops.Decisions.HandOffAll`: the order the versions are sorted in; it is proved for every order.
- `Elector.Elector.Once`: the state shown to people, the subscribers and the wait of Supervise, which may notice an expiry a renewal late.
- `Election.OneLeader`: clocks run at equal rates, holder ids are never used twice, and a call that returned an error takes no effect afterwards.
- `SetLoops.Reactions.Run`: nobody else edits during a round, and members hold no comma, which a login and an emoji cannot.
- `SetLoops.Reviews.Run`: the digest that names a review is taken as given.
- `FieldMerge.SharedRegister`: rounds in which every copy takes part and every write succeeds, because the base moves otherwise; `FieldMerge.MissedWriteUndoesTheEdit` covers the others.
- `IssueMatching.Run.Match`: the order of creation in which issues are gone through; it is proved for every order, and for every way of folding letters one by one.
- `Labels.NewItemIndex`: requires what the three lemmas after it establish, and that a node never gives a new label an id on record, which is Forgejo's to keep.
- `Deletions.Tracked.MergeFields`: the edits it sends to the nodes, which are `FieldMerge.Field.Write`; here they only succeed or not.
- `Labels.LabelsValue`: an issue carries no label twice.
- `NodeSet.Resolve`: nobody else writes the table meanwhile, and unique names, which the configuration enforces (`internal/config/config.go:632-635`).
- `Batch.BatchContents`: characters stand for bytes, and white space is the ASCII kind.
- `Packages.Owner.Sync`: fetching and publishing a file are one step that works, fails, or works without an answer; the conflicts reported to people are left out.
- The wiki's replication, whose base records every ref on the replica, conflicts included.
- The passes that edit collaborators, branch protection, releases and Actions variables in place, which drop the old member before the update succeeded.
- Attachments, whose loop has the shape of reviews and whose names may hold commas.
- Creating, renaming, archiving and purging repositories, and choosing the node a missing primary is filled from; the refs written there are only ever created (`NoLoss` has that step).
- The HTTP API, sessions, the command line, the web pages, configuration, metrics, logs, audit rows and conflict details.
- The Forgejo client, git, SQL and cryptography, which appear as compare-and-swap ref maps, one lease row, record stores, hashes without collisions and an ancestry oracle.
