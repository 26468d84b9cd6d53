# Custody protocols of Pantheon, modelled and proved in Dafny

The release and installation custody code of this repository is a set of small protocols that run against
a world that can fail at any step. This project models each of them at the level of its own steps and
proves what the code and its documentation promise over every run, every crash point and every input.
`dafny verify dfyconfig.toml` checks all of it.

| Files | What they model |
| --- | --- |
| `PretoolguardJournal`, `PretoolguardDisk`, `PretoolguardInstaller`, `PretoolguardStack` | the journaled swap installer: its journal, its disk with crashes, its three actions, and several transactions over one target |
| `LifecycleHost`, `LifecycleSaga` | the compensating lifecycle qualification and the one way it starts commands |
| `ReleasePages`, `ReleaseRemote`, `ReleaseWalks`, `ReleaseReservation`, `ReleaseReserver` | the draft reservation and the paged walks of a list that moves |
| `ReleasePublication`, `ReleaseDelivery`, `ReleasePublisher` | the publication of a draft's assets |
| `ReleaseClaim` | the successor claim and the preparation that consumes it |
| `GemmaEnvelope`, `GemmaLedger`, `GemmaSafety`, `GemmaReplies`, `GemmaHolder`, `GemmaProgress`, `GemmaWorker`, `GemmaReceipt` | the fenced worker, the requester, the reply envelope and the attempt receipt |
| `CustodyPaths`, `CustodyArchive`, `CustodyInspector` | the archive inspector against real path resolution |
| `MachoLayout`, `MachoCompare`, `MachoReadable` | the load-command reader, the comparison of two executables, and both without any pass over the file |
| `ChangelogBullets`, `ChangelogRelease`, `ChangelogCut` | the changelog parser, printer and release cut |
| `SessionReaper` | the session reaper's selection, deduplication, killing and archiving |

## How the models are built

A protocol is a state machine over single effects, and a history is a sequence of them. The invariants and
theorems are lemmas about every history. The program itself is a class or a method whose operations may
fail before, during or after their effect; every failure returns at once, so each exit is also a crash
point, and the method's contract says that whatever it did is such a history. Other actors are loops that
may take any number of enabled steps between two operations. Where a flag such as `healthy`, `quiet` or `calm`
says that nothing fails and nobody interferes, the contracts also say that the action then succeeds, so
that refusing everything would not meet them.

Where a method and its contract use one predicate, a lemma or a further clause says what it means in the
source's own constants, field by field, or in terms of the run alone. What a crash may do in a model is stated
the same way (`CrashMayLose`, `PowerMayLose`).

Digests are injective opaque values. Clocks, random identities, the network and every process that is
started are arbitrary choices of the model.

## Where a promise does not hold as it is written

Each of these has a concrete counterexample and the exact condition under which the promise holds.

- A pair of objects that a journal names stays at its two names only until a later installation over the
  same target. `PretoolguardStack.SecondInstallBuries` is the run; by `PretoolguardStack.PairClaimHoldsIff`
  the pair is exact if and only if the object at the target is one of the two, which is what the actions
  verify before they move anything.
- A completed request may name the reply of a superseded lease: the guarded send answers with an earlier
  reply under the same recipient, title and hour whatever its body, and the completing worker then reads
  that reply's correlation. `GemmaSafety.SupersededReplyCompletes` is the history; by
  `GemmaReplies.OwnReplyIffKeyWasFree` the reply is the lease's own if and only if no earlier send had the
  key of its one send.
- A completed request is reported as `completed` only while its requester holds the reply: once it is handed on,
  none is available (`GemmaHolder.HandedOnReplyIsLost`). By `GemmaHolder.FinishedIffAddressed` it is reported if
  and only if the last hand-off was back to the requester or there was none and the send was delivered to it. An
  item whose sender's mail is redirected can never be answered (`GemmaProgress.SendAnswersIff`).
- A request key is sent at most once in every run if and only if the attempts directory was durable before
  (`GemmaReceipt.SentAtMostOnceIff`): a new one is never synced by name, and can be lost with its receipt
  (`GemmaReceipt.LostDirectoryResends`).
- Without asset identities a release is published by tag, and a newer release of the tag takes the request
  (`ReleaseRemote.TagCanMove`). What is opened is what was read back if and only if the request goes by identity
  or the tag still means that release (`ReleasePublisher.Publisher.MakePublic`).
- The correlation of a reply is recovered for every item identity without a newline and for no other
  (`GemmaEnvelope.RoundTrip`); that a reply is never accepted for another item holds without exception.
- An archive whose only link is the application itself is accepted (`CustodyArchive.RootLinkIsAccepted`).
  By `CustodyArchive.LinkIsUsableIffBelow` resolving an accepted link comes to an end if and only if it is below it.
- Running the release cut again on the file it wrote is refused if and only if the version does not itself
  read as unreleased (`ChangelogCut.RerunIsRefusedIff`, with `ChangelogCut.RerunCanSucceed` as the case).
- The runner of a task's newest session is a target of the kill if and only if it is a child of a kept
  candidate (`SessionReaper.ProtectedIsKilledIff`, with `SessionReaper.NewestRunnerCanBeKilled` as the case),
  although the comments of `cmd/sirsi/ccdreap.go` call that session protected.
- A process tree that leaked is not always gone: a dropped candidate is a target if and only if its first kept
  ancestor is its parent (`SessionReaper.DroppedIsKilledIff`), so the third generation of a chain survives
  (`SessionReaper.ThirdGenerationSurvives`).
- A paged walk is a snapshot if releases are only inserted at the head; one deletion between two pages hides a
  release from it (`ReleasePages.DeletionHidesARelease`). By `ReleasePages.MissedIffSlips` a walk misses a
  release only if it moves up across the end of the page just read, and if releases are only taken out, then
  if and only if so.

Two checks turn out to follow from others: equal bytes outside the field already put the field of both
executables at the same place (`MachoLayout.FieldsCoincide`), and the rollback stage of the qualification
cannot differ from the first installation, because both were compared with the same pinned hash.

## Model

| member | source | states |
|---|---|---|
| PretoolguardJournal.ReadJournal | cmd/sirsi-pretoolguard-install/transaction_darwin.go:307-350 | the reader accepts exactly the legal journals: first line prepared and well formed, constant identities, legal transitions, within both bounds |
| PretoolguardJournal.LegalIff | cmd/sirsi-pretoolguard-install/transaction_darwin.go:307-350 | which journals these are, line by line: one to eight lines that differ in their phases only, each phase in its place and none behind an ending one, of a transaction with two distinct objects |
| PretoolguardJournal.WriterAgreesWithReader | cmd/sirsi-pretoolguard-install/transaction_darwin.go:262-350 | an admitted append of a legal successor leaves a journal the reader accepts |
| PretoolguardJournal.TransitionsAreTheCallersDuty | cmd/sirsi-pretoolguard-install/transaction_darwin.go:262-305 | the writer does not check the transition: an admitted append stays readable if and only if the caller's record is a legal successor with the same identities |
| PretoolguardJournal.PreparedAlternates | cmd/sirsi-pretoolguard-install/transaction_darwin.go:333-341 | prepared records are exactly the odd ones of a legal journal |
| PretoolguardJournal.AtMostThreeRollbackAttempts | cmd/sirsi-pretoolguard-install/transaction_darwin.go:281-287 | eight records leave room for at most three rollback attempts |
| PretoolguardJournal.ReservationSuffices | cmd/sirsi-pretoolguard-install/transaction_darwin.go:281-300 | behind a prepared record either terminal record passes the record check and the byte check |
| PretoolguardJournal.RollbackRoom | cmd/sirsi-pretoolguard-install/transaction_darwin.go:281-300 | when exactly a settled journal has room for another rollback attempt |
| PretoolguardDisk.RunIsSafe | cmd/sirsi-pretoolguard-install/transaction_darwin.go:407-688 | the invariant of one transaction's disk in every state of every run with crashes between any two effects |
| PretoolguardDisk.TargetMoves | cmd/sirsi-pretoolguard-install/transaction_darwin.go:519-543 | the target changes only by an exchange behind a durable prepared line with everything it names on disk, or by a crash that undoes one, until both directories are synced |
| PretoolguardDisk.LineAppears | cmd/sirsi-pretoolguard-install/transaction_darwin.go:262-305 | a line is written only while everything it speaks of is durable and the names are settled, within the capacity, and an outcome only beside the object it names |
| PretoolguardDisk.LinesAreAnchored | cmd/sirsi-pretoolguard-install/transaction_darwin.go:459-518 | behind the first line both directories, the journal and the retained object stay durable, whatever crashes |
| PretoolguardDisk.DurablePhaseAgrees | cmd/sirsi-pretoolguard-install/transaction_darwin.go:516-543 | without a durable record the target is the original; with one the two objects are exactly the recorded pair, and a durable terminal phase names the object at the target |
| PretoolguardDisk.CrashedPhaseAgrees | cmd/sirsi-pretoolguard-install/transaction_darwin.go:513-543 | the same of whatever a crash leaves behind |
| PretoolguardDisk.EveryUntornJournalIsRead | cmd/sirsi-pretoolguard-install/transaction_darwin.go:307-350 | every journal that the actions produce in any order is legal and within its bounds |
| PretoolguardDisk.TerminalAlwaysFits | cmd/sirsi-pretoolguard-install/transaction_darwin.go:289-300 | in every run a prepared journal can still take either outcome |
| PretoolguardDisk.TornJournalFreezes | cmd/sirsi-pretoolguard-install/transaction_darwin.go:611-613 | a durable torn line freezes the pair and the journal for the rest of the run |
| PretoolguardDisk.TornJournalHoldsNames | cmd/sirsi-pretoolguard-install/transaction_darwin.go:315-318 | while a line is torn the names do not move |
| PretoolguardStack.PairClaimHoldsIff | cmd/sirsi-pretoolguard-install/transaction_darwin.go:372-385 | with any number of transactions over one target, a recorded pair is at its two names if and only if the target is one of it, and then its durable journal agrees with the target |
| PretoolguardStack.SecondInstallBuries | cmd/sirsi-pretoolguard-install/transaction_darwin.go:407-424 | two installations in a row leave the first durable pair not at its two names |
| PretoolguardStack.ObjectsStayApart | cmd/sirsi-pretoolguard-install/transaction_darwin.go:519-521 | no object is at two names, and a recorded private name always holds one of its own two |
| PretoolguardStack.BuriedCannotSwap | cmd/sirsi-pretoolguard-install/transaction_darwin.go:564-578 | a buried transaction cannot exchange names |
| PretoolguardInstaller.Installer.AdmitRollback | cmd/sirsi-pretoolguard-install/transaction_darwin.go:556-580 | on any disk, rollback goes past its first checks only if the object at the target is one of the transaction's two: a buried transaction is refused before any effect |
| PretoolguardInstaller.Installer.AdmitRecovery | cmd/sirsi-pretoolguard-install/transaction_darwin.go:611-651 | the same of recovery, which goes on only for this transaction and selector, with the recorded pair at the two names and the phase that it shows |
| PretoolguardInstaller.RecoveryIsEntitled | cmd/sirsi-pretoolguard-install/transaction_darwin.go:616-641 | the phase that recovery picks for the observed pair is a legal successor that agrees with the target |
| PretoolguardInstaller.Installer.AppendRecord | cmd/sirsi-pretoolguard-install/transaction_darwin.go:262-305 | an append happens as a whole, in part or not at all, and only if both capacity checks admit it |
| PretoolguardInstaller.Installer.SwapAndSync | cmd/sirsi-pretoolguard-install/transaction_darwin.go:519-537 | the swap behind a durable prepared record, verified on both names before both directories are synced |
| PretoolguardInstaller.Installer.Exchange | cmd/sirsi-pretoolguard-install/transaction_darwin.go:519-542 | success means the names are exchanged and the matching terminal record is durable |
| PretoolguardInstaller.Installer.Rollback | cmd/sirsi-pretoolguard-install/transaction_darwin.go:545-609 | success puts the very original object back, settled as rolled back on disk; a swap happens only behind a new durable record; nothing failing and room left, it succeeds |
| PretoolguardInstaller.Installer.Recover | cmd/sirsi-pretoolguard-install/transaction_darwin.go:611-688 | recovery moves no name; success leaves the journal on disk with exactly one more line behind an open phase, the outcome that the object at the target shows, and none behind a settled one; it succeeds on every untorn journal given the observed pair |
| PretoolguardInstaller.Installer.StageObject | cmd/sirsi-pretoolguard-install/transaction_darwin.go:459-499 | the staged object is new, durable, and carries the artifact's bytes under the original's owner and mode |
| PretoolguardInstaller.Installer.RecordInstall | cmd/sirsi-pretoolguard-install/transaction_darwin.go:496-518 | the prepared record is written only if the staged object has the requested digest, on the original's device and with its owner, group and mode, behind a passed signature check and a verified pair |
| PretoolguardInstaller.Installer.Install | cmd/sirsi-pretoolguard-install/transaction_darwin.go:407-543 | success leaves an object with the requested digest at the target, on the original's device and with its owner, group and mode, and the original retained behind two records; another artifact, another volume, a missing signature or another object at the target is refused with the target in place and no record; any movement of the target is behind a durable record; nothing failing, it succeeds |
| PretoolguardInstaller.Installer.SettleTwice | cmd/sirsi-pretoolguard-install/transaction_darwin.go:611-688 | one recovery settles and a second appends nothing |
| PretoolguardInstaller.Installer.CrashSettleUndo | cmd/sirsi-pretoolguard-install/transaction_darwin.go:545-688 | after any crash with an untorn journal recovery settles, and a rollback that has room puts the original back |
| LifecycleHost.Ops.Run | scripts/qualify-hosted-commercial-lifecycle.py:73-143 | a command changes at most its frame; its whole group is joined, or it is on record as adrift and the call fails |
| LifecycleHost.Ops.TapState | scripts/qualify-hosted-commercial-lifecycle.py:215-218 | the tap is read as it stands, and as modified exactly if its cask is not the committed one |
| LifecycleHost.Ops.Namespace | scripts/qualify-hosted-commercial-lifecycle.py:193-213 | success proves that no trace of a launched application was left |
| LifecycleHost.Ops.Verify | scripts/qualify-hosted-commercial-lifecycle.py:267-293 | the returned hash is the pinned one and that of the installed caller before it was run |
| LifecycleHost.Ops.Restore | scripts/qualify-hosted-commercial-lifecycle.py:236-242 | a damaged backup is never copied; success means the expected bytes were read again |
| LifecycleSaga.Lifecycle.Preflight | scripts/qualify-hosted-commercial-lifecycle.py:316-339 | only a machine without any trace of the product is admitted, and nothing was changed |
| LifecycleSaga.Lifecycle.KeepTap | scripts/qualify-hosted-commercial-lifecycle.py:341-352 | the intent to introduce a tap is armed first; what the tap held is read and backed up before anything is replaced |
| LifecycleSaga.Lifecycle.Transition | scripts/qualify-hosted-commercial-lifecycle.py:355-368 | one stage installs from the cask of its version under its verb and extends the results by the hash pinned for it, and leaves every change covered by an armed intent |
| LifecycleSaga.Lifecycle.Attempt | scripts/qualify-hosted-commercial-lifecycle.py:373-391 | every failure is charged as debt, and nothing is attempted behind a child that is adrift |
| LifecycleSaga.Lifecycle.Cleanup | scripts/qualify-hosted-commercial-lifecycle.py:370-418 | for every placement of failures: no debt means the machine is exactly as it was found |
| LifecycleSaga.Lifecycle.Execute | scripts/qualify-hosted-commercial-lifecycle.py:420-445 | no command is started behind an unjoined child; a mutation implies a backup; no debt means the initial machine; what was installed is a prefix of 1.4.0 afresh, 1.4.1 as an upgrade and 1.4.0 again, and all three for a pass, each with the hash pinned for it; on a fit machine it passes |
| ReleasePages.CompleteWalkIsASnapshot | scripts/reserve-release-draft.py:42-60 | a walk that ends on a short page repeats no identity if and only if the list stood still and holds none twice, and it then read that very list |
| ReleasePages.PageTurns | scripts/reserve-release-draft.py:84-110 | each page either continues a walk without repetition or completes the list |
| ReleasePages.MissedIffSlips | scripts/reserve-release-draft.py:40-60 | for lists that change in any way between the pages: a finished walk misses a standing release only if it slips across the end of the page just read, and under deletions alone if and only if so |
| ReleasePages.DeletionHidesARelease | scripts/reserve-release-draft.py:40-41 | the case of a release that is in the list all the time and is missed by an accepted walk, because of one deletion |
| ReleaseWalks.ScanForTag | scripts/reserve-release-draft.py:49-56 | a page of the first walk passes exactly when it holds no bad or repeated identity and not the tag |
| ReleaseWalks.ScanForDraft | scripts/reserve-release-draft.py:92-105 | a page of the second walk is clean exactly when it repeats nothing and shows no other release of the tag |
| ReleaseWalks.ScanForMatches | scripts/publish-release-assets.py:374-382 | a page of the discovery passes exactly when its identities are good and new, and gathers every match |
| ReleaseWalks.FindNoTag | scripts/reserve-release-draft.py:40-60 | accepted absence is a fact about the list as it stands, which holds fewer than a thousand releases; a calm list of that size is accepted |
| ReleaseWalks.WalkForDraft | scripts/reserve-release-draft.py:85-109 | a clean attempt knows every release of the tag in the list as it stands |
| ReleaseWalks.FindSoleDraft | scripts/reserve-release-draft.py:79-115 | accepted unique presence is a fact about the list as it stands |
| ReleaseWalks.FindOnly | scripts/publish-release-assets.py:366-387 | the discovery returns the sole release of the tag in the list as it stands, or its absence there |
| ReleaseReservation.IntentIsDurable | scripts/reserve-release-draft.py:62-63 | at every crash point behind the request the durable receipt says that it was attempted |
| ReleaseReservation.IdentityBeforeReads | scripts/reserve-release-draft.py:77-78 | the response's identity is durable before anything is read again |
| ReleaseReservation.PostFollowsProvenAbsence | scripts/reserve-release-draft.py:39-64 | the request follows a complete list of the repository without the tag |
| ReleaseReservation.ReservedIsGenuine | scripts/reserve-release-draft.py:114-117 | a durable `reserved` names the response's identity, which a later complete list showed as the tag's sole draft |
| ReleaseReservation.LegalIsFounded | scripts/reserve-release-draft.py:39-117 | what each step of a run stands on, in terms of the run alone: the request once, behind a list without the tag and with an attempted intent as the last record; reads behind the durable identity; `reserved` behind request, answer and a list with that one draft of the tag |
| ReleaseReserver.Reserver.Persist | scripts/reserve-release-draft.py:120-138 | the receipt is replaced as a whole or not at all, also when it fails |
| ReleaseReserver.Reserver.Reserve | scripts/reserve-release-draft.py:21-117 | every step is one the theorems allow, and an undisturbed reservation of a free tag succeeds |
| ReleaseReserver.Reserver.Invoke | scripts/reserve-release-draft.py:141-158 | however often it is invoked, every step of all invocations is founded so, the file holds the last record written, and the create request is sent at most once, by the one invocation that creates the receipt; the others change nothing; undisturbed, the first succeeds |
| ReleasePublication.CreateFollowsProvenAbsence | scripts/publish-release-assets.py:428-441 | the create request follows a missing tag and a complete list without it |
| ReleasePublication.UploadFollowsDraftView | scripts/publish-release-assets.py:468-481 | each upload is of an asset of the bundle and follows a view of the selected draft of the tag with no change in between |
| ReleasePublication.PublishFollowsExactReadback | scripts/publish-release-assets.py:482-497 | the publish request follows a view of the selected draft of the tag whose asset names are exactly the bundle's, all downloaded since with equal bytes, with no change in between |
| ReleasePublication.SuccessFollowsPublicReadback | scripts/publish-release-assets.py:498-505 | success is declared only behind such a read-back of the selected release in public |
| ReleaseDelivery.KeptIsShown | scripts/publish-release-assets.py:345-407 | the tag's only release, if it carries nothing but verified bytes, is found by identity, by tag once it is public, and passes validation |
| ReleaseDelivery.UploadKeeps | scripts/publish-release-assets.py:468-481 | the upload of a missing asset adds exactly it and spoils nothing |
| ReleaseDelivery.PublishKeeps | scripts/publish-release-assets.py:487-497 | the publish request leaves the same release, public, as the only one of its tag |
| ReleaseDelivery.WholeCarriesTheBundle | scripts/publish-release-assets.py:409-426 | as many verified assets as the bundle has names answer every name with the bundle's bytes, and no other name |
| ReleasePublisher.ValidateRelease | scripts/publish-release-assets.py:345-364 | which looked-up releases are accepted, in both directions: of this tag and identity, with distinct uploaded assets of the bundle's names and sizes |
| ReleasePublisher.FullViewIsExact | scripts/publish-release-assets.py:409-412 | as many valid assets as names are exactly the names |
| ReleasePublisher.Publisher.ViewRelease | scripts/publish-release-assets.py:389-407 | the selected release, or the tag's release which is then selected, or its proven absence; undisturbed, what it shows is the release itself |
| ReleasePublisher.Publisher.Readback | scripts/publish-release-assets.py:409-426 | a complete read-back proves the exact asset set byte for byte; undisturbed, it succeeds exactly on a whole release |
| ReleasePublisher.Publisher.Stage | scripts/publish-release-assets.py:428-458 | a draft is created only without a selection and behind a proven absence; undisturbed, a free tag gets an empty draft and a standing release is used |
| ReleasePublisher.Publisher.UploadMissing | scripts/publish-release-assets.py:468-481 | exactly the missing assets are sent, once each; undisturbed, the draft then carries the whole bundle |
| ReleasePublisher.Publisher.SendAsset | scripts/publish-release-assets.py:468-481 | an upload follows a fresh view of the draft; it reaches the selected release if and only if it goes by identity or the tag still means that release; undisturbed, it adds exactly the asset |
| ReleasePublisher.Publisher.MakePublic | scripts/publish-release-assets.py:486-497 | the publish request follows the exact read-back, and opens the release that was read back if and only if it goes by identity or the tag still means that release |
| ReleaseRemote.TagCanMove | scripts/publish-release-assets.py:471-497 | a newer release of the tag takes the requests that go by tag |
| ReleasePublisher.Publisher.Publish | scripts/publish-release-assets.py:428-505 | every step of the run is founded: one create at most, behind a proven absence and none beside a selected release, one selection, each asset of the bundle sent once at most, behind a view of the draft, and none behind the one publish request, which follows the exact read-back; success is declared only behind an exact read-back of the published release; undisturbed, whether requests name the release by identity or by tag, a free tag or a draft of verified assets ends public with exactly the bundle, and a public release is accepted if and only if it is whole, and never touched |
| ReleaseClaim.PostedAtMostOnce | scripts/claim-v163-recovery-successor.py:59-70 | over concurrent, crashed and restarted invocations the request is sent at most once |
| ReleaseClaim.StepIsFounded | scripts/claim-v163-recovery-successor.py:47-80 | every step is taken by an invocation that itself took the one before, with neither a crash of it nor a loss of power in between: the intent behind the first file, the request behind the whole intent on disk, the read-back behind the request, the third file behind the read-back |
| ReleaseClaim.OneRequest | scripts/claim-v163-recovery-successor.py:59-70 | no run holds two requests |
| ReleaseClaim.StateFilesTellTheTruth | scripts/claim-v163-recovery-successor.py:59-80 | without the second file nothing was sent; with the third the claim was read back |
| ReleaseClaim.CompletedClaimIsBound | scripts/claim-v163-recovery-successor.py:71-79 | a whole third file is bound to the one run that posted and read back |
| ReleaseClaim.Workflow.Save | scripts/claim-v163-recovery-successor.py:51-58 | a state file is created exclusively, and the claim goes on only from a whole, synced one, with nothing else changed |
| ReleaseClaim.Workflow.Claim | scripts/claim-v163-recovery-successor.py:47-80 | every step of the run is founded so; success means that this invocation wrote a durable third file last, one request, and the claim read back; undisturbed and with no file yet, it succeeds with all three files on disk |
| ReleaseClaim.Workflow.Prepare | scripts/prepare-v163-successor-publication.py:33-96 | a reservation is handed on at most once, and only for three whole files bound to this run, and for those it is |
| GemmaEnvelope.RoundTrip | cmd/sirsi/gemma_worker.go:237-241 | the correlation is recovered from the printed envelope exactly if the item identity holds no newline |
| GemmaEnvelope.ReplyReads | cmd/sirsi/gemma_worker.go:209-241 | the published reply, letter by letter: its title with the item and its subject, the correlation line, a blank line and the whole trimmed draft |
| GemmaEnvelope.NeverForAnother | cmd/sirsi/gemma_shared.go:56-74 | a reply written for one item is never accepted for another |
| GemmaEnvelope.CorrelationIff | cmd/sirsi/gemma_shared.go:56-74 | which letters carry a correlation for an item: the worker's, titled for it, whose first line is exactly the correlation line with sixteen hexadecimal digits |
| GemmaSafety.CompletionIsFenced | cmd/sirsi/gemma_worker.go:207-235 | only the latest claim completes, while its lease runs, with the correlation that the reply its own send returned carries |
| GemmaSafety.SupersededIsPowerless | internal/routerstore/lease.go:391-494 | behind a later claim a token can never again complete, fail, park, renew, start or verify its item |
| GemmaSafety.CompletedOnce | internal/routerstore/lease.go:484-498 | two completions of one item have an owner's reopening between them |
| GemmaSafety.VerdictNamesTheLatestLease | cmd/sirsi/gemma_shared.go:115-172 | a requester's `completed` holds exactly for its own item with a worker's reference whose reply it still holds, and names the reply of the latest lease's send |
| GemmaSafety.SupersededReplyCompletes | internal/routerstore/facade.go:164-196 | a history in which the second lease completes with the first lease's reply |
| GemmaReplies.SendFollowsConfirmation | cmd/sirsi/gemma_worker.go:79-133 | over every history a lease sends once, behind the acknowledgement of its item and the confirmation of the lease |
| GemmaReplies.KeysAreSends | internal/routerstore/facade.go:110-196 | a key is taken if and only if an earlier send had it |
| GemmaReplies.OwnReplyIffKeyWasFree | internal/routerstore/facade.go:110-196 | over every history: the completing lease sent once, for this item, and the reply it completes with is its own if and only if no earlier send had the same recipient, the same slug of the title and the same hour of the clock |
| GemmaReplies.ParkStands | cmd/sirsi/gemma_worker.go:133-142 | a parked item stays blocked, and its requester is told so, until the owner moves it; a reply sent under the lease stays beside it and correlates as it did, whatever is appended to it and whoever holds it |
| GemmaReplies.ParkedBesideItsReply | internal/routerstore/workeranswer.go:23 | the history: the reply is published, the completion withheld and the item parked, and the requester is shown `blocked` |
| GemmaHolder.FinishedIffAddressed | internal/routerstore/items.go:147-188 | over every history: `completed` is reported if and only if the actor's own item has a worker's reference, and the last hand-off of the reply was to the actor or, without one, its send was delivered to the actor |
| GemmaHolder.UnmovedReplyIsReported | cmd/sirsi/gemma_shared.go:115-172 | without a redirection of the requester's name and a hand-off of the reply, every own item with a worker's reference is reported as `completed` |
| GemmaHolder.HandedOnReplyIsLost | internal/dispatch/alias.go:97-128 | the history: the requester of a completed item hands the reply on, and is told that none is available |
| GemmaHolder.ReturnedReplyIsReported | internal/dispatch/alias.go:97-128 | the same history continued: handed back, the reply is reported again |
| GemmaProgress.ClaimMakesReady | internal/routerstore/lease.go:189-258 | an open or expired item is claimed, and its lease can then be answered |
| GemmaProgress.ClaimTakes | internal/routerstore/lease.go:189-258 | a claim takes its own item, which was open or whose lease ran out, with a new token, and leaves every running lease alone; an expired one is a failed attempt |
| GemmaProgress.StaysReady | cmd/sirsi/gemma_worker.go:79-133 | while the lease holds, start, acknowledgement, renewal and verification are granted and keep it |
| GemmaProgress.SendAnswersIff | cmd/sirsi/gemma_worker.go:209-228 | with no earlier reply under its key, the send publishes the lease's own reply; it can be read back if and only if the item's identity holds no newline and its sender's mail is not redirected |
| GemmaProgress.AtMostThreeFailures | internal/routerstore/lease.go:505-552 | over every history an item fails at most three times until its owner reopens it |
| GemmaWorker.Fabric.MaintainLease | cmd/sirsi/gemma_worker.go:149-183 | unless the lease is lost it is renewed at every tick; the holder does nothing else, and whatever others do meanwhile disturbs nothing it relies on |
| GemmaWorker.Fabric.SendAndReadBack | cmd/sirsi/gemma_worker.go:209-228 | an outcome is returned only for a published reply that was read back, correlates and says the whole inferred draft, unless the send was answered with an earlier reply; undisturbed, the reply is the lease's own and reads letter by letter as it was written |
| GemmaWorker.Fabric.CompleteItem | internal/dispatch/facade.go:695-736 | completing under the lease leaves the item completed with the published reference; a completion withheld for want of the answering role leaves the reply published and nothing else done |
| GemmaWorker.Fabric.GiveBack | cmd/sirsi/gemma_worker.go:185-197 | a failed attempt does nothing under its token but fail the item |
| GemmaWorker.Fabric.Park | cmd/sirsi/gemma_worker.go:105-142 | a permanent refusal does nothing under its token but block the item, before a send or behind it; then the requester sees `blocked`, beside the published reply if there is one |
| GemmaWorker.Fabric.RunOnce | cmd/sirsi/gemma_worker.go:63-147 | whatever others do between its operations, the events under its new token follow claim, start, renewals, verification, send and completion in this order, ended early by failing the item or by blocking it, which happens on a refused inference before the verification or on a withheld completion behind the send; a finished pass ended with the completion naming the reply its send returned, which says the whole draft that inference returned unless the send was answered with an earlier reply, a parked one with the block, beside that reply if it was sent; undisturbed, an item that can be claimed and answered is completed with the pass's own reply, which then holds the correlation line and the draft and nothing else |
| GemmaWorker.Fabric.Request | cmd/sirsi/gemma_shared.go:115-172 | what the polling requester reports is the original as it stood at one moment of the call with the reply that it names as it stood at a later one, and a `completed` names what the latest lease's send returned; undisturbed, it is the verdict on the ledger as it stands |
| GemmaWorker.UntouchedReplyIsOneMoment | cmd/sirsi/gemma_shared.go:150-163 | if the reply did not change between the two reads, the report is the verdict on one moment |
| GemmaReceipt.SentAtMostOnce | cmd/sirsi/gemma_shared_receipt.go:35-60 | in an attempts directory that is durable, over all interleaved processes, failures, losses of power and restarts, bound by nothing but the exclusive creation and their own progress, the request is sent at most once |
| GemmaReceipt.SentAtMostOnceIff | cmd/sirsi/gemma_shared_receipt.go:67-75 | every run sends at most once if and only if the attempts directory was durable before |
| GemmaReceipt.LostDirectoryResends | cmd/sirsi/gemma_shared_receipt.go:67-75 | the run: a new directory is lost with its receipt behind the send, and the request is sent again |
| GemmaReceipt.ReadableReceipt | cmd/sirsi/gemma_shared_receipt.go:100-114 | in such a directory, a readable `prepared` proves that nothing was sent, a readable `submitted` that it was |
| GemmaReceipt.PendingDecidesNothing | cmd/sirsi/gemma_shared_receipt.go:47-60 | the same durable `pending` is left with and without a send |
| GemmaReceipt.SendFollowsOwnCreate | cmd/sirsi/gemma_shared_receipt.go:35-60 | whoever sends created the file, and neither it nor the power went down between the two |
| GemmaReceipt.SendFollowsPending | cmd/sirsi/gemma_shared_receipt.go:47-51 | the queue is called only behind a `pending` of the caller's own receipt that is on disk under its name |
| GemmaReceipt.ReceiptTellsWhatHappened | cmd/sirsi/gemma_shared_receipt.go:35-60 | over every run a readable receipt is of a request that was made, and an original that it names is the answer of a call; `submitted` names one |
| GemmaReceipt.MissingReceipt | cmd/sirsi/gemma_shared_receipt.go:83-90 | in such a directory, a request without a receipt was never sent |
| GemmaReceipt.Attempts.Persist | cmd/sirsi/gemma_shared_receipt.go:121-172 | success leaves the whole new receipt durable and named; failure may leave it torn but sends nothing |
| GemmaReceipt.Attempts.ReadExisting | cmd/sirsi/gemma_shared_receipt.go:100-114 | an existing receipt is accepted exactly if it is readable and of the same request |
| GemmaReceipt.Attempts.Attempt | cmd/sirsi/gemma_shared_receipt.go:35-119 | among any number of other processes, with a loss of power before any step: a denied or retaining attempt sent nothing, a successful one leaves the durable answer of its own, and only, send; undisturbed, it sends exactly if there is no receipt |
| CustodyPaths.InsideIsLexical | scripts/release-custody.py:80-92 | a target that passes the last loop is resolved without a link, to its lexical normalisation |
| CustodyArchive.MembersAreKnown | scripts/release-custody.py:49-73 | every member of an accepted archive is a file, a directory or a link, under one of the two tops and with no empty or dotted component; a link is short, relative and of the application, and leads below it |
| CustodyArchive.PlainArchivesAreAccepted | scripts/release-custody.py:45-75 | within the limits, of distinct files and directories with one of the application, nothing else is asked |
| CustodyArchive.MembersAreWhereTheySay | scripts/release-custody.py:76-79 | no directory on the way to a member is a link: it is at its own path |
| CustodyArchive.LinkLeadsInside | scripts/release-custody.py:62-92 | following a link below the application meets no second link, agrees with the normalisation, and ends strictly below it |
| CustodyArchive.RootLinkLeadsNowhere | scripts/release-custody.py:62-70 | a link at the application itself loops for every number of links allowed |
| CustodyArchive.LinkIsUsableIffBelow | scripts/release-custody.py:62-92 | resolving an accepted link comes to an end, and not back to itself, if and only if it is below the application |
| CustodyArchive.RootLinkIsAccepted | scripts/release-custody.py:74-92 | the archive of that one link is accepted |
| CustodyInspector.WalkTarget | scripts/release-custody.py:80-92 | the stack loop decides exactly whether a target stays inside |
| CustodyInspector.Inspect | scripts/release-custody.py:39-92 | the inspection accepts exactly the archives that the theorems are about |
| MachoLayout.FieldLocation | scripts/compare-pretoolguard-macho.py:58-77 | the field is an aligned word inside the load commands, of a segment whose file range ends the file |
| MachoLayout.FieldIsUnique | scripts/compare-pretoolguard-macho.py:70-78 | no other command of a readable file is a link-edit segment |
| MachoLayout.SegmentsAreApart | scripts/compare-pretoolguard-macho.py:65-81 | two segments of a readable file take disjoint space |
| MachoLayout.FieldsCoincide | scripts/compare-pretoolguard-macho.py:85-94 | readable files that agree outside the field of one have their field at the same place |
| MachoCompare.NeighboursSuffice | scripts/compare-pretoolguard-macho.py:79-81 | comparing sorted neighbours finds every overlap of the unsorted ranges, and only those |
| MachoCompare.Linkedit | scripts/compare-pretoolguard-macho.py:40-82 | one pass over the commands reads exactly the readable files, and returns their field and its value |
| MachoCompare.Compare | scripts/compare-pretoolguard-macho.py:85-96 | a pair is accepted exactly if the second file is the first with at most that size rounded up to pages |
| MachoCompare.AcceptedDifference | scripts/compare-pretoolguard-macho.py:93-94 | an accepted pair agrees in every byte outside one word |
| MachoCompare.AcceptedGrowth | scripts/compare-pretoolguard-macho.py:90-92 | the word grows by less than a page, to whole pages in 64 bits |
| MachoCompare.AcceptsSelf | scripts/compare-pretoolguard-macho.py:85-96 | acceptance is reflexive on readable files |
| MachoCompare.AcceptsBothWays | scripts/compare-pretoolguard-macho.py:85-96 | acceptance is antisymmetric |
| MachoCompare.AcceptsThrough | scripts/compare-pretoolguard-macho.py:85-96 | acceptance is transitive |
| MachoReadable.ReadableIff | scripts/compare-pretoolguard-macho.py:40-82 | the reader, without its pass: a file is readable if and only if its commands can be laid out from byte 32 on, each as long as it says and none a signature, exactly one of them the link-edit segment at the end of the file, and no two segments sharing memory; the field is the size of that segment |
| MachoReadable.AcceptsIff | scripts/compare-pretoolguard-macho.py:85-96 | the comparison, byte by byte: both files readable and equally long, all bytes outside the field equal, and the field equal or rounded up to the fewest whole pages of 16 KiB |
| ChangelogBullets.Parse | scripts/release-prep-changelog.py:12-34 | the parser's loop finds the bullets that look-ahead finds, keeps every line of content once and in order, and returns only bullets in output form |
| ChangelogBullets.BulletsAreBlocks | scripts/release-prep-changelog.py:12-34 | the line by line parser agrees with look-ahead on every text: a dash takes the blank and indented lines behind it, prose the prose behind it |
| ChangelogBullets.ParagraphIsOneBullet | scripts/release-prep-changelog.py:27-32 | a paragraph of plain lines is one bullet: a dash before its first line, two spaces before each further one |
| ChangelogBullets.ContentIsKept | scripts/release-prep-changelog.py:12-34 | the lines of the bullets are the text's lines that are neither blank nor a heading, one by one and in order, up to the mark before and the space behind each |
| ChangelogBullets.BulletsAreInForm | scripts/release-prep-changelog.py:12-34 | every bullet the parser returns is in its output form, except the empty one |
| ChangelogBullets.BulletsRoundTrip | scripts/release-prep-changelog.py:12-34 | bullets in form, printed with blank lines between them, are read back exactly |
| ChangelogRelease.WordsOfSpelling | scripts/release-prep-changelog.py:35-36 | the words of a line are the ones it is written with, whatever stands between them |
| ChangelogRelease.EveryLineIsSpelled | scripts/release-prep-changelog.py:35-36 | every line is written so |
| ChangelogRelease.SameKeyIff | scripts/release-prep-changelog.py:35-36 | two bullets have one key if and only if their words agree up to case |
| ChangelogRelease.FreshIsExact | scripts/release-prep-changelog.py:38-43 | the cut keeps exactly one bullet of each new key and nothing else |
| ChangelogRelease.FreshKeepsTheFirst | scripts/release-prep-changelog.py:38-43 | the one that is kept is the first |
| ChangelogRelease.PartsRoundTrip | scripts/release-prep-changelog.py:7-8 | splitting at headings undoes concatenation |
| ChangelogRelease.PartsAreWhole | scripts/release-prep-changelog.py:7-8 | concatenation undoes splitting: the parts are the whole file |
| ChangelogCut.KeepNew | scripts/release-prep-changelog.py:38-43 | the nested loops compute the cut: one bullet of each new key and nothing else |
| ChangelogCut.KeptAre | scripts/release-prep-changelog.py:37-43 | what is kept are bullets of unreleased sections with words that no bullet of another section has, one for each such key |
| ChangelogCut.ReleaseIs | scripts/release-prep-changelog.py:4-46 | the run, section by section: refused if and only if there is no such bullet; otherwise the old preamble, an empty unreleased section, the release under its title with the kept bullets, and the other sections unchanged and in order |
| ChangelogCut.CutRelease | scripts/release-prep-changelog.py:4-46 | one run is refused exactly if there is nothing to release, and otherwise writes that file; its own output is refused unless the version reads as unreleased |
| ChangelogCut.WrittenParts | scripts/release-prep-changelog.py:45-46 | the written file splits into the preamble, an empty block, the new section and the older ones |
| ChangelogCut.RerunIsRefusedIff | scripts/release-prep-changelog.py:4-46 | a second run on the written file finds nothing new exactly unless the version reads as unreleased |
| ChangelogCut.RerunCanSucceed | scripts/release-prep-changelog.py:4-46 | the file and the version for which the second run is not refused |
| ChangelogCut.NothingIsLost | scripts/release-prep-changelog.py:37-46 | after a release every unreleased key is a released one |
| SessionReaper.NewestTable | cmd/sirsi/ccdreap.go:191-197 | the table holds each scheduled task's latest activity |
| SessionReaper.Attribute | cmd/sirsi/ccdreap.go:217-227 | a runner is attributed to the first of the nearest sessions within three minutes, or to none if there is none |
| SessionReaper.ReapableIsLeaked | cmd/sirsi/ccdreap.go:228-247 | what is reaped: a session of a task that something more recent has run for, unless its own activity is unknown, idle for ten minutes; never an interactive one |
| SessionReaper.ShouldArchiveIsDue | cmd/sirsi/ccdreap.go:311-335 | what is archived: nothing live, of a task what is leaked, and otherwise what has been idle for seven days |
| SessionReaper.Collect | cmd/sirsi/ccdreap.go:199-247 | every runner is attributed and the candidates are exactly those of a leaked session, or the pass is refused because a runner has no session |
| SessionReaper.Dedupe | cmd/sirsi/ccdreap.go:127-148 | exactly the candidates without a parent of the same session among the candidates are kept |
| SessionReaper.KeptAncestor | cmd/sirsi/ccdreap.go:113-126 | in acyclic parenthood every candidate reaches a kept one of its session by parent links, over dropped ones only |
| SessionReaper.Kill | cmd/sirsi/ccdreap.go:262-279 | what is killed are kept candidates and their children; a kept candidate always, its children unless it was itself killed before its turn; nothing without `--apply` |
| SessionReaper.ProtectedIsKilledIff | cmd/sirsi/ccdreap.go:232-279 | a protected runner is a target if and only if it is a child of a kept candidate, and killed for certain if that one is no child of another |
| SessionReaper.NewestRunnerCanBeKilled | cmd/sirsi/ccdreap.go:269-279 | the newest session's runner can be such a child |
| SessionReaper.DroppedIsKilledIff | cmd/sirsi/ccdreap.go:262-279 | a dropped candidate is a target if and only if its first kept ancestor is its parent |
| SessionReaper.ThirdGenerationSurvives | cmd/sirsi/ccdreap.go:262-279 | three generations of one session: all collected, two dropped, the last no target |
| SessionReaper.Archive | cmd/sirsi/ccdreap.go:289-305 | exactly the due sessions are archived, or fail to be written |
| SessionReaper.LiveIsNotArchived | cmd/sirsi/ccdreap.go:311-323 | a session with an attributed runner is not archived in that pass |
| SessionReaper.NewestIsNeverArchived | cmd/sirsi/ccdreap.go:320-335 | over any sequence of passes a task with activity keeps its newest session unarchived |
| SessionReaper.Reap | cmd/sirsi/ccdreap.go:185-305 | one run of load, collect, kill and archive is such a pass, or refuses before it changes anything; what it kills are runners of leaked sessions and their children, and a runner of any other session only as such a child |

## Left out

- PretoolguardDisk.RunIsSafe: a swap is taken to survive a crash as a whole, and to be lost as a whole unless both directories were synced since; the file system's own ordering is not modelled.
- PretoolguardStack.PairClaimHoldsIff: a transaction acts only while no other one's swap is unsynced; two swaps that are both unsynced at one crash are not modelled.
- PretoolguardInstaller.Installer.Install: the owner, the target directory and the announced provenance are checks that refuse or not; access-control lists and extended attributes are not modelled.
- Malformed JSON lines, field types and the hexadecimal form of a transaction's name are not modelled: a line is a record or torn.
- LifecycleHost.Ops.Run: an existence check that fails reads as absence in the source; here reads that succeed tell the truth.
- LifecycleSaga.Lifecycle.Execute: fetched git objects, the evidence files and the machine after the controller itself dies are not modelled.
- ReleaseRemote.Remote.Create: an answer may be anything; that the repository assigns identities without repetition is assumed only where success is promised.
- ReleaseReserver.Reserver.Invoke: invocations follow one another, each from wherever the last one stopped; two that run at once are not interleaved, and meet only at the exclusive creation of the receipt.
- ReleasePublisher.Publisher.Publish: the local verification of signatures and of the guard image is one check that passes or not; while nobody interferes a lookup by tag finds public releases only, as the source says of drafts.
- LifecycleSaga.Lifecycle.KeepTap: the fetch of the pinned casks from git is one operation that may fail.
- ReleaseClaim.Workflow.Claim: the reconciliation of old custody and the listing of dispatches, jobs and steps are each one check that passes or not.
- GemmaWorker.Fabric.RunOnce: prompts, model output, inference budgets and the breaker and quota refusals of the queue are arbitrary failures; the order in which the queue offers items is not modelled.
- GemmaProgress.ClaimMakesReady: the claim's budgets, breakers and dependencies between items are not modelled; each is a claim that fails.
- GemmaLedger keeps the result column as a reference or a note, and only a worker's completion writes a reference; its JSON form, the file mirror, the migration and the retention sweep of the queue are not modelled.
- GemmaHolder.FinishedIffAddressed: who may hand an item on, reopen it or redirect a name is not checked; these may happen at any time, and a redirection is one step.
- GemmaReceipt.Attempts.Persist: that the file's identity, link count or parent directory changed is one failure among others; nobody unlinks the file.
- CustodyInspector.Inspect: member names are lists of components split at the separator, and case folding with canonical decomposition is any function of a component.
- CustodyArchive.LinkIsUsableIffBelow: whether the place a link leads to is in the archive is not modelled; the inspection does not ask it.
- MachoCompare.Compare: reading the files, their size limit and the report are not modelled.
- ChangelogCut.CutRelease: the version file and the second changelog are not modelled; white space, word characters and lower case are parameters.
- SessionReaper.Kill: but for the children of a process that an earlier turn killed, parenthood is that of one moment, and times are exact where the source uses floating point.
- The menu bar, dashboards, mobile bindings, launch agents and everything that delegates to other packages are not modelled.
