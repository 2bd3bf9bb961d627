# Overstate, modelled and proved

Overstate is a web console for a fleet of Salt masters running on Kubernetes. This
project models the parts of it that keep state or decode bytes, in Dafny, and proves
what they promise: over every run, every interleaving, every byte stream and every
tree. `dafny verify dfyconfig.toml` checks all of it.

| file | what it models |
|---|---|
| `ExecStream.dfy` | the WebSocket loop of pod exec: a buffer fed by arbitrary chunks, frames as in RFC 6455 sections 5.2 and 5.3, channels taken apart |
| `KeyFingers.dfy` | which fingerprint of a `key.finger` answer is attributed to which copy of a key |
| `KeyTrust.dfy`, `KeyTrustRuns.dfy`, `KeyTrustDrift.dfy`, `KeyTrustPasses.dfy` | reconcile and backfill of minion keys across master pods: the decisions, what every run of passes keeps and reaches, what remains when keys change meanwhile, and the loops that carry the passes out call by call |
| `RbacCatalog.dfy`, `RbacScopes.dfy`, `RbacTargets.dfy`, `RbacLaunch.dfy`, `RbacGrants.dfy`, `RbacMemo.dfy`, `RbacEdits.dfy` | scoped permissions: the evaluators, target narrowing and the head of a launch, delegated grants, request memos, delegated member lists |
| `ConfigHistory.dfy` | ConfigMap editing by many editors over two compare-and-swap objects |
| `WaveBatch.dfy` | splitting a roster into waves, and the gated wave loop |
| `ReturnPipeline.dfy`, `Verdicts.dfy`, `SyncVerdicts.dfy` | duplicate returns, job completion, conformity verdicts arriving out of order, and the sync that ties the three together |
| `PillarTree.dfy`, `PillarDocument.dfy` | nested pillar edits: on values, and in place on mapping objects |
| `Cron.dfy`, `SlotSchedule.dfy` | cron expressions, and the schedule's once-per-slot rule |
| `Text.dfy`, `Sequences.dfy`, `Trails.dfy`, `Options.dfy` | strings as Python orders, splits, joins and strips them; sequence facts; capped histories; optional values |

Code that changes things step by step is a method or a class here and is proved
against a function; the lemmas are about the function. What the environment decides
(which pod answers, which call fails and whether it took effect all the same, how a
stream is cut, what other editors do between two calls, which minions return) is a
parameter, so every statement is about all of it.

Where the code does not do what it says, the model follows the code, and a failing
case and the exact condition are proved:

- `refresh_role_cache` computes the role through the memo that it drops afterwards.
  `RbacMemo.RefreshMakesInert` says exactly when the fallback is inert afterwards,
  `RbacMemo.StaleMemoKeepsLadder` is a run where it is not.
- `delegate_grant_error` promises that a lead cannot appoint what they do not hold. On a
  scope that resolves to nothing its comparisons pass whatever the lead holds.
  `RbacGrants.UnnamedGainExactly` and `RbacGrants.DelegationRunAsks` say when the check
  asked with no minion is safe, `RbacGrants.EmptyScopeGives` is a case where it is not.
- `delegate_group_error` compares the scopes of a group's grants, not what they carry. A
  lead who may edit its members hands on no more than they hold exactly when they hold
  what each of those grants carries: `RbacEdits.MembersKeepExactly`. How far any run of
  such edits reaches is `RbacEdits.EditRun`.
- `verify_collection` is documented never to leave its test key. It leaves it exactly
  when the commit of the write fails, and it removes a key of that name that was there
  before: `PillarDocument.Document.VerifyCollection`.
- A cron day field such as `*/2` counts as a wildcard and is ignored.
  `Cron.DayRuleAgreesExactly` says when the day rule is the standard one,
  `Cron.SteppedDayIsIgnored` shows the difference.
- A sync is meant to retry a fileserver refresh that failed. `SlotSchedule.RetryExactly`
  says exactly when the next one does, over any run; `SlotSchedule.RetryIsLost` is a run
  where it does not.

Where a property holds under a condition, or rests on what callers do, both halves are
stated:

- Reconcile and backfill act on a reading. `KeyTrustRuns` takes the key directories to
  stand still meanwhile; `KeyTrustDrift` lets minions and administrators change them
  between any two calls and a wheel match select any ids, and says exactly when trust is
  still neither created nor lost.
- Deleting a key that was just set restores the collection exactly under the condition
  of `PillarTree.SetThenDelete`; `PillarTree.EmptyParentIsPruned` shows two cases where
  it does not.
- The failure gate holds for the first attempt too exactly when the limit is at least
  one (`WaveBatch.GateHoldsExactly`, `WaveBatch.ZeroLimitTriesOnce`);
  `parse_batch_fields` (overstate_ui/jobs_helpers.py:474) lets no other limit through.
- `visible_prefixes` lists the path of a fleet-only role granted on a path, though
  reading it is refused (`RbacScopes.ListingAgreesExactly`,
  `RbacScopes.StrayGrantIsListed`). Such a row would have to be written past the forms,
  which refuse it (overstate_ui/users.py:819-820); for rows the forms write the two
  agree (`RbacScopes.FormedListingAgrees`).

## Model

| member | source | states |
|---|---|---|
| `ExecStream.BigEndianInverts` | overstate_ui/k8s.py:551-561 | reading back a number written big-endian in a fixed width gives the number |
| `ExecStream.ToBigEndianInverts` | overstate_ui/k8s.py:551-561 | writing back the number read from a fixed number of bytes gives those bytes |
| `ExecStream.MaskedTwice` | overstate_ui/k8s.py:586-587 | unmasking undoes masking, for every key and payload |
| `ExecStream.XorBits` | overstate_ui/k8s.py:587 | each bit of the exclusive or is the exclusive or of the bits there |
| `ExecStream.ParseOnWire` | overstate_ui/k8s.py:538-587 | the first frame of a stream from its bytes alone: where the length and the key stand, which byte counts most, when the frame is whole, and every byte of its payload |
| `ExecStream.ParseEncode` | overstate_ui/k8s.py:538-587 | parsing undoes encoding, for 7, 16 and 64-bit lengths, masked or not, whatever follows the frame |
| `ExecStream.EncodeParse` | overstate_ui/k8s.py:538-587 | encoding undoes parsing: a parsed frame has no other reading, and its bytes are a prefix of the stream |
| `ExecStream.ParsePrefix` | overstate_ui/k8s.py:531-582 | what was parsed from a prefix of the stream is parsed from every extension of it |
| `ExecStream.DecodeEncoded` | overstate_ui/k8s.py:530-600 | decoding the bytes of any frame list delivers that list, up to the first close frame |
| `ExecStream.DecodeOnWire` | overstate_ui/k8s.py:589-599 | from the first byte: opcode 8 ends the stream with nothing delivered, any opcode but 1 and 2 and any empty payload is passed by, and the rest of a data payload goes to the channel its first byte names |
| `ExecStream.EveryStreamIsFrames` | overstate_ui/k8s.py:530-600 | every byte stream whatever is whole frames, then a close frame or a cut one, and exactly those frames are delivered |
| `ExecStream.ItemsDelivered` | overstate_ui/k8s.py:589-605 | the frames of a list of messages and idle frames deliver each channel the concatenation of its messages |
| `ExecStream.MessagesRoundTrip` | overstate_ui/k8s.py:589-605 | round trip of any messages through the wire, per channel, with pings and other idle frames anywhere among them, and a cut or closed stream behind adding nothing |
| `ExecStream.HeaderSettled` | overstate_ui/k8s.py:513-524 | once the blank line is in, the status line and the start of the frames no longer depend on what follows |
| `ExecStream.RespondOnWire` | overstate_ui/k8s.py:519-524 | from the bytes of the response: it is refused exactly without 101 before the first line end, and the frames begin after the first blank line |
| `ExecStream.RespondSplit` | overstate_ui/k8s.py:513-530 | the header read so far decides the response as the whole stream would |
| `ExecStream.FlowIsConcat` | overstate_ui/k8s.py:531-580 | two ways of cutting one byte stream into nonempty chunks are the same stream |
| `ExecStream.SparingMeans` | overstate_ui/k8s.py:531-535 | receiving takes chunks until enough is held or the stream ends, and with one chunk less there is not enough |
| `ExecStream.Socket.Recv` | overstate_ui/k8s.py:515-516 | one chunk per call, nothing lost, and an empty answer only at the end, which then stays |
| `ExecStream.Fill` | overstate_ui/k8s.py:544-550 | receiving until the buffer is long enough stops when it is or the stream ended, never receives with enough in hand, and leaves buffer plus unread unchanged |
| `ExecStream.TakeHead` | overstate_ui/k8s.py:538-574 | reading length and key piece by piece from a growing buffer finds what a parse of the whole stream finds, or that it is cut |
| `ExecStream.TakeFrame` | overstate_ui/k8s.py:531-587 | one turn of the loop takes the frame that a parse of the whole stream sees first, leaves the rest, and receives no more than that frame needs |
| `ExecStream.ReadFrames` | overstate_ui/k8s.py:525-605 | the loop terminates and its three joined strings are those of the whole-stream decoder, for every chunking |
| `ExecStream.ReadHeader` | overstate_ui/k8s.py:513-518 | the handshake loop stops with the blank line in, or at the end of the stream |
| `ExecStream.ExecPod` | overstate_ui/k8s.py:513-605 | the outcome, refusal or the three strings, is a function of the concatenated bytes alone |
| `ExecStream.ExecRoundTrip` | overstate_ui/k8s.py:513-605 | a 101 response followed by the frames of any messages, idle frames among them, yields per channel exactly what was sent |
| `KeyFingers.WalkFinds` | overstate_ui/keys.py:207-219 | the walk finds a name exactly when the answer says a fingerprint of it somewhere, and finds one that was said |
| `KeyFingers.FingerMeans` | overstate_ui/keys.py:103 | what is taken for a fingerprint: two or more pairs of hex digits with colons between, with or without a newline after them |
| `KeyFingers.Walk` | overstate_ui/keys.py:207-219 | the recursive fill of the shared dictionary is the walk function, later fingerprints over earlier ones |
| `KeyFingers.AttributionIsExact` | overstate_ui/keys.py:188-229 | from an answer whose every entry tells the truth of the keys held, what is attributed to a key is its own fingerprint, even with one id in several states |
| `KeyFingers.SectionAttribution` | overstate_ui/keys.py:197-206 | from a sectioned answer a key is given what the entry of its id in its own section says, only when that is a fingerprint, and nothing without an entry |
| `KeyFingers.FlatAttribution` | overstate_ui/keys.py:197-229 | from an answer without a nonempty section a key is given a fingerprint exactly when its id sits in one state and the answer says one, and what it is given was said |
| `KeyFingers.ReadingIsSeen` | overstate_ui/keys.py:232-259 | with one state per id, a reading is the copy's own fingerprint or none: what the key-trust model assumes of it |
| `KeyFingers.CountStates` | overstate_ui/keys.py:220-223 | the counting loops count the states that list each id |
| `KeyFingers.PickFlat` | overstate_ui/keys.py:224-228 | the flat loop keeps exactly the ids of one state with count one that the walk found |
| `KeyFingers.ReadSection` | overstate_ui/keys.py:199-205 | a section's loop keeps its entries that look like fingerprints |
| `KeyFingers.AttributeFingerprints` | overstate_ui/keys.py:188-229 | the whole attribution, sectioned or flat or neither, per state |
| `KeyTrust.ViewsAre` | overstate_ui/keys.py:232-259 | the reading is one view per reachable client pod and nothing else |
| `KeyTrust.FirstDecider` | overstate_ui/keys.py:296-302 | the pod named in a quarantine skip is the first, in client order, that rejects or denies the id |
| `KeyTrust.PlanIs` | overstate_ui/keys.py:291-341 | a pass accepts id on a pod exactly when the pod shows it pending with a fingerprint that an accepted copy shows, and no pod rejects or denies it |
| `KeyTrust.SkipsAre` | overstate_ui/keys.py:296-341 | which skip entries a reconcile reports, and exactly when each is made |
| `KeyTrust.PendingIsReported` | overstate_ui/keys.py:303-341 | nothing pending goes unreported: a pending copy is planned, or skipped for a reason that speaks of it, and not both |
| `KeyTrust.CandidatesAre` | overstate_ui/keys.py:403-437 | the copy plan holds exactly the unquarantined ids that are accepted somewhere, absent somewhere and unanimous |
| `KeyTrust.TheFinger` | overstate_ui/keys.py:426-436 | the planned fingerprint is the one that every accepted copy shows |
| `KeyTrust.Source` | overstate_ui/keys.py:420 | the source of a copy is an accepted pod, the first in name order |
| `KeyTrustRuns.PlannedIs` | overstate_ui/keys.py:291-341 | what is planned, in terms of the true key directories and not of what was read of them |
| `KeyTrustRuns.CopiedIs` | overstate_ui/keys.py:394-437 | what is copied, in terms of the true key directories |
| `KeyTrustRuns.CopiedExactly` | overstate_ui/keys.py:394-544 | exactly when a copy takes effect, in terms of the true key directories, the source, the id and the calls, and whose key it is |
| `KeyTrustRuns.StepExactly` | overstate_ui/keys.py:262-601 | what one pass does to each copy on each pod, exactly: when it accepts a pending key, when it adds a copy and of which key, and nothing else |
| `KeyTrustRuns.StepKeepsTrust` | overstate_ui/keys.py:262-347 | one pass, with any calls failing with or without effect, neither adds nor loses a trusted (id, fingerprint) pair |
| `KeyTrustRuns.RunKeepsTrust` | overstate_ui/keys.py:262-601 | complete trust, never create it: over any run of reconcile and backfill passes the set of trusted pairs never changes |
| `KeyTrustRuns.QuarantineHolds` | overstate_ui/keys.py:296-302 | an id rejected or denied on a reachable pod gains no accepted pod in that pass |
| `KeyTrustRuns.RunKeepsQuarantine` | overstate_ui/keys.py:296-302 | over a run, an id barred by a pod that stays reachable ends with exactly the copies it had |
| `KeyTrustRuns.StepIsForward` | overstate_ui/keys.py:330-341 | a pass only turns pending copies into accepted ones or adds accepted ones; no key material is replaced |
| `KeyTrustRuns.WorkedPair` | overstate_ui/keys.py:330-341 | the pairs a pass acted on with effect are those that were not accepted and are afterwards |
| `KeyTrustRuns.PassShrinks` | overstate_ui/keys.py:588-601 | every effective action strictly shrinks the count of not-accepted pairs, by exactly itself |
| `KeyTrustRuns.RoundConverges` | overstate_ui/keys.py:309-341 | with every pod reachable and every call working, one reconcile and one backfill leave an agreed id accepted under its fingerprint on each pod, or pending there under a different or unread one |
| `KeyTrustRuns.NothingLeftToAccept` | overstate_ui/keys.py:322-341 | after one smooth round a second reconcile plans nothing |
| `KeyTrustRuns.NothingLeftToCopy` | overstate_ui/keys.py:420-437 | after one smooth round a second backfill copies nothing of a safe id |
| `KeyTrustRuns.SecondRoundIsIdle` | overstate_ui/keys.py:262-601 | a second smooth round changes nothing at all, when all ids are safe |
| `KeyTrustDrift.AcceptKeepsExactly` | overstate_ui/keys.py:333-338 | an accept, with whatever its match selects, takes no trusted pair away, and adds none if and only if everything it moves is trusted under its own fingerprint at that time |
| `KeyTrustDrift.PlanIsHarmlessExactly` | overstate_ui/keys.py:330-341 | from any state of the directories, whatever changed since the reading, carrying out a plan in any order and number keeps the trusted pairs if and only if each of its accepts is safe there |
| `KeyTrustDrift.FreshPlanIsSound` | overstate_ui/keys.py:291-341 | the plan of a reconcile pass is safe in the directories it was read from, for a literal match |
| `KeyTrustDrift.DriftingRunKeepsTrust` | overstate_ui/keys.py:262-347 | over any interleaving of such accepts with changes by others that leave the waiting planned keys as read and no trusted pair gone, no accept changes the trusted pairs |
| `KeyTrustDrift.ExchangedKeyIsAccepted` | overstate_ui/keys.py:330-335 | a key exchanged while it waits, after the reading, is accepted though trusted nowhere |
| `KeyTrustDrift.WideMatchIsUnsafe` | overstate_ui/keys.py:335 | a match that selects another waiting id too is not safe |
| `KeyTrustDrift.CopiesAreHarmlessExactly` | overstate_ui/keys.py:519-543 | from any state of the directories, making copies in any order and number keeps the trusted pairs if and only if each installs a trusted key and every trusted pair has a pod that keeps it |
| `KeyTrustDrift.FreshCopiesAreSound` | overstate_ui/keys.py:394-437 | the copies of a backfill pass are so in the directories they were read from |
| `KeyTrustDrift.OverwrittenKeyIsLost` | overstate_ui/keys.py:519-543 | a pod that came to trust another key after the reading loses it to the copy |
| `KeyTrustPasses.PreviewIsExecution` | overstate_ui/keys.py:291-347 | a preview names exactly the pairs that a real run from the same state accepts or reports as errors, each in one list, with the same skips |
| `KeyTrustPasses.ReconcileReportIs` | overstate_ui/keys.py:330-347 | what a real pass reports as accepted, as an error and as unreachable, pair by pair, in terms of the true key directories |
| `KeyTrustPasses.CopyPlanIs` | overstate_ui/keys.py:394-437 | the copies a backfill plans: onto the reachable pods that lack an id which no reachable pod bars and all that trust it show under one fingerprint |
| `KeyTrustPasses.PlannedCopyEnds` | overstate_ui/keys.py:504-544 | how each planned copy ends and under which name it is reported, by what each call came to |
| `KeyTrustPasses.DisagreeIs` | overstate_ui/keys.py:426-434 | an id is left to a human as disagreeing exactly when it is trusted and absent somewhere, barred nowhere, and not all that trust it show one fingerprint |
| `KeyTrustPasses.PreviewOfCopies` | overstate_ui/keys.py:560-601 | a dry backfill names the plan of the real one and does nothing; a real one reports the copy step missing exactly when it had a copy to make |
| `KeyTrustPasses.EveryPlannedPairEnds` | overstate_ui/keys.py:504-601 | every planned copy is backfilled, reported failed, or skipped for a reason that covers the pod, and only one of these |
| `KeyTrustPasses.FleetKeyStates` | overstate_ui/keys.py:243-259 | the reading loop returns the views of reachable clients in order, and the others as unreachable |
| `KeyTrustPasses.Masters.Accept` | overstate_ui/keys.py:333-338 | the wheel call moves a pending key to accepted when it takes effect, whether or not it reports so, and touches nothing else |
| `KeyTrustPasses.Masters.InstallKey` | overstate_ui/keys.py:469-487 | the install script leaves the pod with the whole key accepted, or untouched |
| `KeyTrustPasses.ReconcileId` | overstate_ui/keys.py:291-341 | the body of the id loop: what it appends to each list and does to the fleet |
| `KeyTrustPasses.ReconcileKeys` | overstate_ui/keys.py:262-347 | the loops with their calls interleaved refine the pass function; a preview changes no pod |
| `KeyTrustPasses.BackfillCandidates` | overstate_ui/keys.py:394-437 | the candidate loop with its skips |
| `KeyTrustPasses.BackfillOne` | overstate_ui/keys.py:490-544 | one candidate, pod by pod, with every way a copy can end |
| `KeyTrustPasses.BackfillAbsentKeys` | overstate_ui/keys.py:547-601 | the whole backfill refines the pass function; a dry run or a missing copy step changes no pod |
| `RbacCatalog.KnownIsUnion` | overstate_ui/authz.py:561-567 | a permission is known exactly when some built-in role carries it |
| `RbacCatalog.WritersRead` | overstate_ui/authz.py:923-935 | every role that may write files may read them |
| `RbacScopes.MinionEntryMeans` | overstate_ui/authz.py:436-557 | what one entry grants of a per-minion permission, for each kind of scope and in terms of the snapshot, groups, list items and matches; the minion sets hold the same ids |
| `RbacScopes.OtherEntryMeans` | overstate_ui/authz.py:537-548 | what one entry grants of file, fleet-wide and delegate permissions |
| `RbacScopes.EntriesAddUp` | overstate_ui/authz.py:561-582 | grants add up: a list of entries is authorized what one of its entries is |
| `RbacScopes.MinionsAddUp` | overstate_ui/authz.py:601-619 | so do the minion sets and fleet grants |
| `RbacScopes.ComputeMinionsWith` | overstate_ui/authz.py:601-619 | the accumulating loop computes the union of the reaches of the entries that carry a per-minion permission |
| `RbacScopes.ComputeScopeMinions` | overstate_ui/authz.py:773-792 | the same for any permission |
| `RbacScopes.ComputeVisiblePrefixes` | overstate_ui/authz.py:923-935 | the loop collects the sorted set of granted prefixes, or the whole tree for a fleet grant |
| `RbacScopes.MinionDomainAgrees` | overstate_ui/authz.py:526-619 | for a per-minion permission, the check on a minion of the snapshot, fleet grants and the two minion sets agree |
| `RbacScopes.FleetDomainAgrees` | overstate_ui/authz.py:537-598 | for a fleet-wide permission, the check asks for a fleet grant and nothing else |
| `RbacScopes.ListedIs` | overstate_ui/authz.py:918-935 | a path is listed exactly when it is readable or lies under a stray path grant of a fleet-only role |
| `RbacScopes.ListingAgreesExactly` | overstate_ui/authz.py:918-935 | listing and reading agree on every path if and only if each stray grant's path is readable through another grant |
| `RbacScopes.FormsMean` | overstate_ui/users.py:806-860 | which role the grant forms let stand on which kind of scope |
| `RbacScopes.FormedListingAgrees` | overstate_ui/authz.py:918-935 | where every entry is one the grant forms accept, listing and reading agree on every path |
| `RbacScopes.ReadableBelow` | overstate_ui/authz.py:541-548 | what may be read may be read below |
| `RbacScopes.StrayGrantIsListed` | overstate_ui/authz.py:923-935 | a viewer entry on a path, which no form writes, lists it although reading it is refused |
| `RbacTargets.RequestedMeans` | overstate_ui/authz.py:638-654 | which snapshot ids a target requests, type by type |
| `RbacTargets.RefusalsMean` | overstate_ui/authz.py:633-694 | a fleet grant keeps the target; without one, which refusal a publish and a kill get, and exactly when |
| `RbacTargets.NarrowingIsExact` | overstate_ui/authz.py:635-658 | without a fleet grant the published target is a list naming exactly requested and held ids, never empty, and reads back as them if and only if every one is a clean id |
| `RbacTargets.NarrowedIsAuthorized` | overstate_ui/authz.py:635-658 | every minion that a published target names passes the per-minion check |
| `RbacTargets.NarrowingIsIdempotent` | overstate_ui/authz.py:635-658 | narrowing a published target again is the identity |
| `RbacTargets.KillIsAllOrNothing` | overstate_ui/authz.py:667-694 | a kill reaches its whole resolved target or nothing, and publishes what narrowing under job.kill would |
| `RbacTargets.StoredTargetReadsBack` | overstate_ui/authz.py:869-884 | a stored scoped target is read back as the ids it was narrowed to |
| `RbacLaunch.FleetScheduleIsForUnseen` | overstate_ui/authz.py:938-973 | the fleet-wide schedule check is the per-minion one asked of a minion outside the snapshot, and implies it everywhere |
| `RbacLaunch.ScheduleMeans` | overstate_ui/authz.py:957-973 | which permissions defining a schedule of each class of function takes on a minion |
| `RbacLaunch.RefusalMeans` | overstate_ui/jobs_service.py:484-537 | why a launch is refused, and exactly when for the class, for ssh and for the target |
| `RbacLaunch.SentIsReached` | overstate_ui/jobs_service.py:510-541 | what then leaves is a list naming exactly the requested and held minions; with the dropped ones it makes up the request; the job row reads back as it |
| `RbacLaunch.SentIsAuthorized` | overstate_ui/jobs_service.py:497-541 | nothing leaves for a minion on which the caller may not run the function, nor a schedule where it may not be defined, fleet grant or not |
| `RbacLaunch.FleetKeepsTarget` | overstate_ui/jobs_service.py:510-541 | a fleet grant keeps the target as it is, save that a group is spelt out |
| `RbacLaunch.NeverStar` | overstate_ui/jobs_service.py:471-473 | the bare star never leaves for a scoped caller unless a minion has that name |
| `Text.PublishedNames` | overstate_ui/authz.py:640-658 | sorted ids joined by commas, split and stripped again, are the same ids if and only if each is nonempty, trimmed and comma-free |
| `Text.AtMostMeans` | overstate_ui/authz.py:658 | strings come in order of the first character in which they differ, a prefix first |
| `Text.StripOnlySpaces` | overstate_ui/authz.py:640 | stripping takes spaces off the two ends and nothing else |
| `Text.StripTrims` | overstate_ui/authz.py:640 | stripping leaves no space at either end, invents no character, and changes exactly the untrimmed strings |
| `Text.SplitJoin` | overstate_ui/authz.py:658 | splitting undoes joining for pieces free of the separator |
| `Text.JoinSplit` | overstate_ui/authz.py:640 | joining undoes splitting |
| `RbacGrants.CheckDelegation` | overstate_ui/authz.py:814-835 | the delegation check with its loop over the wanted permissions, first failure reported |
| `RbacGrants.GrantAdds` | overstate_ui/authz.py:475-509 | a new grant adds one entry for the users it reaches and none for others |
| `RbacGrants.EntriesMean` | overstate_ui/authz.py:460-531 | which grants and mappings give a user an entry, and exactly when a ladder role counts instead |
| `RbacGrants.DelegationPassesExactly` | overstate_ui/authz.py:814-835 | exactly when a delegated grant passes: its scope, its role, and on each minion named the right to delegate and whatever the role carries there |
| `RbacGrants.DelegationStep` | overstate_ui/authz.py:801-835 | after one grant that passes the check, whoever holds a per-minion pair held it before or the delegator did |
| `RbacGrants.DelegationRun` | overstate_ui/authz.py:801-835 | over any run of delegated grants by any delegators, nobody holds a per-minion pair that neither they nor a delegator held at the start |
| `RbacGrants.DelegationRunGivesNoFleet` | overstate_ui/authz.py:814-821 | over such a run nobody gains a fleet grant of any permission |
| `RbacGrants.DelegationRunGivesNoPath` | overstate_ui/authz.py:814-821 | nor any file path |
| `RbacGrants.DelegationRunAuthorizes` | overstate_ui/authz.py:561-582 | the same said of the check asked about a minion |
| `RbacGrants.AsksIs` | overstate_ui/authz.py:537-557 | the check asked with no minion wants an entry that counts for the permission, whatever its scope resolves to |
| `RbacGrants.HoldingAsks` | overstate_ui/authz.py:549-557 | who holds a permission on some minion passes the check that names none |
| `RbacGrants.UnnamedGainExactly` | overstate_ui/authz.py:801-835 | a passing grant gives the check without a minion to someone, when neither they nor the delegator passed it, exactly when it carries the permission to them on a scope that resolves to nothing |
| `RbacGrants.DelegationRunAsks` | overstate_ui/authz.py:801-835 | over a run of grants none of whose scopes is empty, nobody comes to pass the check without a minion that neither they nor a delegator passed at the start |
| `RbacGrants.EmptyScopeGives` | overstate_ui/authz.py:821-835 | a team lead appoints a secrets reader on a pattern that matches nothing yet: the reader then passes a check that neither passed, and holds the first minion to match |
| `RbacMemo.StepCoherent` | overstate_ui/authz.py:460-582 | no check, grant write or refresh leaves a wrong memo for a user whose refresh is not pending |
| `RbacMemo.RunCoherent` | overstate_ui/authz.py:460-582 | so over any run of them |
| `RbacMemo.ChecksAreFresh` | overstate_ui/authz.py:561-582 | a memoized check of a user with no refresh pending answers as a fresh evaluation would |
| `RbacMemo.CachedRoleIs` | overstate_ui/authz.py:1160-1180 | the cached role is the highest ladder rung held on the fleet, else whether there is any grant |
| `RbacMemo.WritesMean` | overstate_ui/authz.py:1160-1193 | what a grant, a removal and a refresh change in tables and memos, and that they leave the rest alone |
| `RbacMemo.RefreshMakesInert` | overstate_ui/authz.py:1160-1193 | after a refresh the ladder fallback is inert if and only if the user has a grant, or fallback is off, or the refresh saw no fleet ladder grant; always so when it saw fresh entries |
| `RbacMemo.StaleMemoKeepsLadder` | overstate_ui/authz.py:1166-1192 | an administrator through a local group alone, let in and deleting that grant in one request, is refreshed from the old memo and stays one by the fallback |
| `RbacMemo.RequestContext.ReadGrantEntries` | overstate_ui/authz.py:460-509 | reading entries through the memo |
| `RbacMemo.RequestContext.Authorize` | overstate_ui/authz.py:561-582 | a check, with both memos filled on the way |
| `RbacMemo.RequestContext.InsertGrant` | overstate_ui/authz.py:460-465 | a grant write: one row more, memos untouched until the refresh |
| `RbacMemo.RequestContext.DeleteGrant` | overstate_ui/authz.py:460-465 | a grant removal: the row gone, memos untouched until the refresh |
| `RbacMemo.RequestContext.RefreshRoleCache` | overstate_ui/authz.py:1160-1193 | the refresh: role column from the memo, then the user's entries and all decisions dropped |
| `RbacEdits.CheckGroup` | overstate_ui/authz.py:847-866 | the group check with its loop, first offending grant reported |
| `RbacEdits.GroupPassesExactly` | overstate_ui/authz.py:847-866 | the group check passes exactly when every grant of the group is on a minion scope inside the editor's delegated one |
| `RbacEdits.RegroupMeans` | overstate_ui/users.py:1082-1103 | a new member list changes who is in that group and caches a role afresh for those on either list, and nothing else |
| `RbacEdits.EffectiveAfterEdit` | overstate_ui/users.py:1064-1109 | after a passing grant or member list, an entry is one from before or names only minions the editor may delegate on; the ladder fallback gives nobody anything |
| `RbacEdits.EditStep` | overstate_ui/users.py:1064-1109 | one edit: whoever then holds a permission on a minion held it before, or the editor could delegate there |
| `RbacEdits.EditRun` | overstate_ui/authz.py:801-866 | over any run of delegated grants and member lists by any editors, what anybody gains on a minion is on one where some editor could delegate at the start |
| `RbacEdits.EditRunGivesNoFleet` | overstate_ui/authz.py:801-866 | over such a run nobody gains a fleet grant or a file path |
| `RbacEdits.MembersKeepExactly` | overstate_ui/authz.py:847-866 | a member list that passes gives nobody what neither they nor the editor held if and only if the editor holds, on each scope of the group, what that grant's role carries |
| `ConfigHistory.StepKeepsInv` | overstate_ui/masterconfig.py:306-387 | every step of every editor keeps what each editor knows and what each write did |
| `ConfigHistory.RunKeepsInv` | overstate_ui/masterconfig.py:306-387 | so over every interleaving |
| `ConfigHistory.EverySaveIsExact` | overstate_ui/masterconfig.py:316-366 | each edit that took effect, in any interleaving with any calls failing, was posted with its base version, replaced exactly that version, gave its one key another text, and that version was already in the history |
| `ConfigHistory.EveryRevertIsExact` | overstate_ui/masterconfig.py:627-653 | each revert that took effect, in any interleaving, put back the data of a snapshot that was in the history before |
| `ConfigHistory.HistoryIsTheNewest` | overstate_ui/masterconfig.py:122-149 | the stored history is always the newest twenty successful appends in order; an unreadable one is never overwritten and stops every write |
| `ConfigHistory.NoLostUpdate` | overstate_ui/k8s.py:276-298 | the live object is what the chain of writes made of the first; two edits read at one version never both take effect |
| `ConfigHistory.RunChains` | overstate_ui/k8s.py:276-298 | the writes form one chain at growing versions |
| `ConfigHistory.SaveTakesEffect` | overstate_ui/masterconfig.py:306-387 | a lone save takes effect exactly when the key is there, the text is another and valid, the form has its version and the history can be read; the object it replaced becomes the newest snapshot |
| `ConfigHistory.ReactorTakesEffect` | overstate_ui/reactor.py:266-350 | a lone reactor write, likewise |
| `ConfigHistory.LandsAtItsVersion` | overstate_ui/k8s.py:276-298 | the write of an edit or a revert takes effect exactly at the version it names |
| `ConfigHistory.SnapshotIsRetriedOnce` | overstate_ui/masterconfig.py:143-149 | a snapshot that meets another's is tried once more on the new list; a second conflict ends the edit with the live object untouched |
| `ConfigHistory.RevertRestores` | overstate_ui/masterconfig.py:605-665 | a lone revert puts back the newest snapshot and makes what it replaced the newest one; without a snapshot nothing changes |
| `ConfigHistory.TwoRevertsRestore` | overstate_ui/masterconfig.py:605-665 | two reverts in sequence restore the live data |
| `ConfigHistory.StepIsRely` | overstate_ui/reactor.py:266-350 | every step of every editor, the reactor page included, is interference of the kind the methods tolerate |
| `ConfigHistory.ApiServer.ReplaceHistory` | overstate_ui/k8s.py:276-298 | compare-and-swap on the history object, with lost and refused calls |
| `ConfigHistory.ApiServer.ReplaceLive` | overstate_ui/k8s.py:276-298 | compare-and-swap on the live object; an empty base version is refused |
| `ConfigHistory.ApiServer.ReadHistory` | overstate_ui/masterconfig.py:103-119 | a missing history reads as empty, an unreadable one as an error |
| `ConfigHistory.ApiServer.Interfere` | overstate_ui/k8s.py:276-298 | what other editors may do between two calls |
| `ConfigHistory.TrySnapshot` | overstate_ui/masterconfig.py:122-149 | read, append, cap, replace: on success the snapshot is the last in the history; a conflict means that another was added since, a failure a failed call or an unreadable history |
| `ConfigHistory.SnapshotHistory` | overstate_ui/masterconfig.py:122-149 | the same with the one retry after a conflict |
| `ConfigHistory.Save` | overstate_ui/masterconfig.py:306-387 | save, with others at work between its calls: what it replaced, what was logged before, what changed, in which order a form is refused, what alone can then keep it from being saved (a failed call, two others' snapshots, a missing or overtaken version), and that a refusal changed nothing |
| `ConfigHistory.Revert` | overstate_ui/masterconfig.py:605-665 | revert, with others at work: it writes the newest snapshot it first read, with what it read of the live object in the history before; and what alone can keep it from that |
| `WaveBatch.SlicesPartition` | overstate_ui/tasks_batch.py:17-22 | slices concatenate to the roster, are nonempty and full except perhaps the last |
| `WaveBatch.SplitIsPartition` | overstate_ui/tasks_batch.py:17-22 | the waves concatenate to the roster and are nonempty; by count each but the last has the size asked for, in percent mode the least size that makes up the share |
| `WaveBatch.PercentWaves` | overstate_ui/tasks_batch.py:17-22 | in percent mode there are at most ceil(100 / p) waves, for any roster |
| `WaveBatch.PlanMeans` | overstate_ui/tasks_batch.py:87-120 | a wave halts exactly on a cancel or lost scope; otherwise it targets exactly its members in the allowed set |
| `WaveBatch.LostMeans` | overstate_ui/tasks_batch.py:88-120 | exactly when a wave has lost its scope |
| `WaveBatch.FailuresAre` | overstate_ui/tasks_batch.py:176-184 | the failures of a published wave are its targets that did not come back successful, the missing those that did not come back |
| `WaveBatch.NothingPastTheGate` | overstate_ui/tasks_batch.py:86-198 | no further attempt is made once failures reached the limit, nor any from a wave on that saw a cancel or lost its scope |
| `WaveBatch.GateHoldsExactly` | overstate_ui/tasks_batch.py:145-198 | every attempt, the first included, is made below the limit if and only if the limit is at least one or nothing is attempted |
| `WaveBatch.ZeroLimitTriesOnce` | overstate_ui/tasks_batch.py:83-147 | a limit of zero does not stop the first wave |
| `WaveBatch.PublishedInsideScope` | overstate_ui/tasks_batch.py:91-175 | attempts go in wave order, each at exactly its wave's members allowed at that time, and count exactly what came back of those |
| `WaveBatch.FailuresAddUp` | overstate_ui/tasks_batch.py:143-184 | the final count is failed returns plus missing returns plus all targets of unpublishable waves |
| `WaveBatch.FailuresAreBounded` | overstate_ui/tasks_batch.py:145-198 | it is at most the limit, raised to one, less one plus the largest wave |
| `WaveBatch.CompleteMeans` | overstate_ui/tasks_batch.py:86-207 | a complete batch stayed below its limit or attempted nothing, halted nowhere, and tried every wave with a member in scope |
| `WaveBatch.WhyItEnded` | overstate_ui/tasks_batch.py:84-207 | a batch ends cancelled only by a wave that saw the flag, stopped only by failures at the limit or a wave that lost its scope, each the first to halt it |
| `WaveBatch.WavesDoneIs` | overstate_ui/tasks_batch.py:186-193 | waves_done numbers the last wave that was published |
| `WaveBatch.RunWaveBatch` | overstate_ui/tasks_batch.py:56-207 | the loop with its breaks and its parent row computes that run |
| `ReturnPipeline.FirstWriterWins` | salt-extmods/pgjsonb_upsert.py:145-182 | through any interleaving of duplicate writes and syncs, each key keeps its first stored row, and a recorded return is that row |
| `ReturnPipeline.StepFaithful` | overstate_ui/jobs_service.py:118-139 | what is recorded is always what is stored |
| `ReturnPipeline.RunGrows` | overstate_ui/jobs_service.py:118-139 | stored rows and recorded returns only grow and never change |
| `ReturnPipeline.SyncRecordsAll` | overstate_ui/jobs_service.py:122-139 | after a sync every stored row of the job is recorded |
| `ReturnPipeline.SyncIsIdempotent` | overstate_ui/jobs_service.py:58-163 | repeating a sync changes neither jobs nor returns |
| `ReturnPipeline.CompleteIsSticky` | overstate_ui/jobs_service.py:140-142 | with every row recorded, no later sync reopens a complete job |
| `ReturnPipeline.ReopensOnlyForNewMinions` | overstate_ui/jobs_service.py:140-157 | a complete job reopens only in a sync of it that records a new minion |
| `ReturnPipeline.SyntheticMeans` | overstate_ui/jobs_helpers.py:13 | which jids no sync completes, by their prefix |
| `ReturnPipeline.SyncCopies` | overstate_ui/jobs_service.py:118-139 | a sync copies success and payload of every row of its job, and touches no other return |
| `ReturnPipeline.SyncCompletes` | overstate_ui/jobs_service.py:78-157 | exactly when a sync leaves a job complete, from rows, returns, the master's minions and the clock; no other job changes |
| `ReturnPipeline.Database.Returner` | salt-extmods/pgjsonb_upsert.py:145-182 | one insert: a conflict or a database error stores nothing |
| `ReturnPipeline.Database.SyncJob` | overstate_ui/jobs_service.py:58-163 | the whole sync, loop and completion rule, for any row order |
| `ReturnPipeline.Database.CopyRows` | overstate_ui/jobs_service.py:121-139 | the row loop: updates, inserts and the set of new minions |
| `ReturnPipeline.Database.Youngest` | overstate_ui/jobs_service.py:148-151 | the youngest return that has a time, or none |
| `ReturnPipeline.Database.QuietNow` | overstate_ui/jobs_service.py:148-157 | no return younger than the grace period, or the job itself older |
| `Verdicts.NarrowToWatched` | overstate_ui/states.py:18-40 | the loop over matched entries computes the narrowed verdict |
| `Verdicts.VerdictMeans` | overstate_ui/states.py:118-148 | when a return is drifted and when the verdict is partial, with and without a watch set |
| `Verdicts.LandingMeans` | overstate_ui/states.py:118-176 | one landing, minion by minion: who is stamped, with what and from which job, exactly when a later job holds the verdict, and that nobody else moves |
| `Verdicts.StampsAreClaims` | overstate_ui/states.py:132-152 | a job speaks only of minions that returned, or that it provably targeted once complete, and of those only as unreachable |
| `Verdicts.LatestJobWins` | overstate_ui/states.py:153-175 | for any landings in any order and number, a minion ends with the verdict of the latest-started job that touched it, as last stated |
| `Verdicts.LatestJobWinsForgetting` | overstate_ui/states.py:153-175 | the same though job rows are deleted, from any moment on, as long as the job behind the minion's verdict is not the one deleted |
| `Verdicts.ForgottenYields` | overstate_ui/states.py:155-164 | a verdict whose job was deleted yields to the next landing that touches the minion, whenever its job started |
| `Verdicts.SettledSnoc` | overstate_ui/states.py:153-175 | one more landing keeps that form |
| `Verdicts.OrderDoesNotMatter` | overstate_ui/states.py:153-175 | final verdicts of the same jobs settle alike in any order and repetition |
| `Verdicts.TrailIsNewest` | overstate_ui/states.py:73-87 | the trail is always the newest twenty records in order, growing exactly when a verdict is stamped |
| `Verdicts.ConformityStore.RecordHistory` | overstate_ui/states.py:73-87 | append, then delete beyond the newest twenty |
| `Verdicts.ConformityStore.ApplySyncVerdicts` | overstate_ui/states.py:118-176 | the loop over touched minions, working out each verdict as it comes to it, is one landing on the whole board; other jobs stamp nothing |
| `Verdicts.RecomputedMeans` | overstate_ui/states.py:199-220 | recomputing stamps every minion that returned with the job's verdict, never partial, and no other |
| `Verdicts.RecomputeIsLanding` | overstate_ui/states.py:179-220 | recomputing is an ordinary landing if and only if no minion that returned is held by a job that started later |
| `Verdicts.LatestWinsRecomputed` | overstate_ui/states.py:186-220 | recomputed from the latest-started job after any landings, the latest job still wins |
| `Verdicts.ConformityStore.RecomputeConformity` | overstate_ui/states.py:179-220 | the loop over the stored returns of the latest job is that stamping; without a job or a return nothing happens |
| `SyncVerdicts.SyncAndStamp` | overstate_ui/jobs_service.py:58-163 | a sync with its last call: which syncs reach the verdicts, with which rows |
| `SyncVerdicts.StepKeepsInv` | overstate_ui/jobs_service.py:58-163 | one write or sync keeps board and returns in step |
| `SyncVerdicts.RunKeepsInv` | overstate_ui/jobs_service.py:58-163 | over any run of writes and syncs: a verdict says unreachable exactly where its job has no recorded return from the minion, and every recorded return of an eligible job is answered by a verdict of that job or of one that started no earlier |
| `SyncVerdicts.ReturnsAreAnswered` | overstate_ui/jobs_service.py:58-163 | so from an empty board every recorded return of an eligible job has a verdict on its minion, of that job or of one that started no earlier |
| `SyncVerdicts.BoardTellsReturns` | overstate_ui/jobs_service.py:58-163 | under one watch set, the verdict on a minion is what the return recorded for its job says, and that return is the row first stored |
| `SyncVerdicts.IdleSync` | overstate_ui/jobs_service.py:70-142 | a sync of a complete job with every row recorded, or of a job a worker owns, changes nothing at all |
| `SyncVerdicts.SilentWithoutRows` | overstate_ui/jobs_service.py:78-102 | without rows a sync speaks only when it completes the job |
| `SyncVerdicts.OtherSyncsSpeak` | overstate_ui/jobs_service.py:78-162 | every other sync of an eligible job stamps each minion that returned and, once complete, each one its target names, unless a later job holds the verdict |
| `PillarTree.PutFails` | overstate_ui/pillar_secrets.py:183-190 | a set fails exactly when a value that is neither a mapping nor null lies on the way |
| `PillarTree.PutBlames` | overstate_ui/pillar_secrets.py:183-190 | the error names the step that is not a mapping |
| `PillarTree.PutGets` | overstate_ui/pillar_secrets.py:180-191 | a set of any value, seen at every path, empty mappings included: the value at and below the key, mappings above it, everything else as before |
| `PillarTree.PutLeaves` | overstate_ui/pillar_secrets.py:180-191 | a set writes one leaf, clears what was below it and any null above it, and touches no other leaf |
| `PillarTree.CutFinds` | overstate_ui/pillar_secrets.py:194-206 | a delete reports success exactly when the key resolves, and otherwise changes nothing |
| `PillarTree.CutGets` | overstate_ui/pillar_secrets.py:194-214 | a delete seen at every path: nothing at or below the key, everything beside the way to it as before, and of the mappings on the way exactly those that still hold something |
| `PillarTree.CutLeaves` | overstate_ui/pillar_secrets.py:194-214 | a delete removes the leaves at and below the key and no other |
| `PillarTree.PutCutEmpty` | overstate_ui/pillar_secrets.py:185-214 | in an empty mapping, a set can always be undone by a delete |
| `PillarTree.SetThenDelete` | overstate_ui/pillar_secrets.py:180-214 | deleting a just-set key restores the mapping if and only if the deepest existing mapping on the way is the top one or nonempty, and lacks the next name |
| `PillarTree.EmptyParentIsPruned` | overstate_ui/pillar_secrets.py:185-213 | an empty parent or a null on the way does not come back |
| `PillarTree.RestorableMeans` | overstate_ui/pillar_secrets.py:180-214 | without empty mappings that is: the key was absent and no null lies on the way |
| `PillarTree.PutKeepsNoEmpty` | overstate_ui/pillar_secrets.py:180-191 | a set keeps a mapping free of empty mappings |
| `PillarTree.CutKeepsNoEmpty` | overstate_ui/pillar_secrets.py:207-213 | so does a delete, by pruning |
| `PillarTree.DottedIdentifies` | overstate_ui/pillar_secrets.py:171-177 | dotted names identify the leaves of a tree whose names have no dots |
| `PillarTree.KeyAndPath` | overstate_ui/pillar_secrets.py:181 | a key is the dotted name of the path it splits into, and the leaves under that path are those named at or below it |
| `PillarTree.FlattenAfterSet` | overstate_ui/pillar_secrets.py:171-191 | flattening after a set gives the old leaves with everything at or below the key replaced by it |
| `PillarTree.FlattenAfterDelete` | overstate_ui/pillar_secrets.py:171-214 | flattening after a delete gives the old leaves not at or below the key |
| `PillarDocument.Document.SetPath` | overstate_ui/pillar_secrets.py:180-191 | the in-place descent over nested mapping objects does what the set on values says, and changes nothing when it fails |
| `PillarDocument.Document.DelPath` | overstate_ui/pillar_secrets.py:194-214 | the in-place delete with its parent stack does what the delete on values says |
| `PillarDocument.Document.Prune` | overstate_ui/pillar_secrets.py:207-213 | the pruning loop removes the emptied parents, deepest first, and stops at the first that is not |
| `PillarDocument.Document.Flatten` | overstate_ui/pillar_secrets.py:171-177 | the recursive fill writes every leaf under its dotted name and nothing else |
| `PillarDocument.Document.Flattened` | overstate_ui/pillar_secrets.py:171-177 | a flattening from the top is one of the document's value |
| `PillarDocument.Document.VerifyCollection` | overstate_ui/pillar_secrets.py:304-356 | the write and the removal: the test key is left exactly when the commit of the write failed (or, unsealed, was there before); all else is untouched; a finished check restores the collection if and only if it lacked the key |
| `PillarDocument.PutThrough` | overstate_ui/pillar_secrets.py:183-191 | a set through a mapping that was reached is a set in it |
| `PillarDocument.CutThrough` | overstate_ui/pillar_secrets.py:198-214 | a delete through a mapping that was reached is a delete in it, followed by pruning |
| `Cron.NumberShow` | overstate_ui/file_sync_schedule.py:41-54 | written numbers read back as themselves |
| `Cron.PartitionMeans` | overstate_ui/file_sync_schedule.py:37 | a partition cuts at the first separator, or finds none |
| `Cron.SpanRoundTrip` | overstate_ui/file_sync_schedule.py:37-59 | every ascending span within the limits, written out, parses to itself |
| `Cron.ItemForms` | overstate_ui/file_sync_schedule.py:34-59 | every form of item from its text: star, number, stepped number or star, and the error of each that is none |
| `Cron.RangeForms` | overstate_ui/file_sync_schedule.py:46-59 | the same of ranges, with their errors in order |
| `Cron.RangeMeans` | overstate_ui/file_sync_schedule.py:60 | the range holds exactly the values from start to end in steps |
| `Cron.FieldValues` | overstate_ui/file_sync_schedule.py:28-67 | the item loop, with its errors in order, computes the field |
| `Cron.FieldMeans` | overstate_ui/file_sync_schedule.py:28-67 | a field parses if and only if every item does and something is selected; its values are exactly those some item selects, 7 read as 0 on weekdays, all within the limits |
| `Cron.FirstErrorWins` | overstate_ui/file_sync_schedule.py:34-59 | the error reported for a field is that of its first item that does not parse |
| `Cron.FieldRoundTrip` | overstate_ui/file_sync_schedule.py:28-67 | any list of spans, written as a field of either kind, reads back as exactly what the spans select, 7 as 0 on weekdays |
| `Cron.WordsOfJoin` | overstate_ui/file_sync_schedule.py:77 | words joined by spaces split back into themselves |
| `Cron.WordsStep` | overstate_ui/file_sync_schedule.py:77 | the fields of any text, one by one: what stands between spaces, however many |
| `Cron.WordsAreWords` | overstate_ui/file_sync_schedule.py:77 | every field text is nonempty and free of spaces |
| `Cron.StarIsAll` | overstate_ui/file_sync_schedule.py:44-45 | a bare star selects exactly the whole range |
| `Cron.ValidExactly` | overstate_ui/file_sync_schedule.py:70-83 | an expression is valid exactly when it has five fields and each is; otherwise the first bad one is reported |
| `Cron.MatchesMeans` | overstate_ui/file_sync_schedule.py:95-119 | a minute matches iff its minute, hour and month are selected and its day is: a day field that begins with a star is not asked, so between standard fields by both when one is a bare star and by either when neither is; Sunday is 0 or 7 |
| `Cron.ParsedDayFields` | overstate_ui/file_sync_schedule.py:28-67 | a parsed day field is flagged and full when it is a bare star, and flagged otherwise only if it begins with one |
| `Cron.DayRuleAgreesExactly` | overstate_ui/file_sync_schedule.py:107-119 | the day rule agrees with the standard one on every day if and only if no day field is a stepped star, or those that are select enough (case by case) |
| `Cron.SteppedDayIsIgnored` | overstate_ui/file_sync_schedule.py:107-119 | a day field of star-slash-2 is ignored: the second of the month matches |
| `SlotSchedule.DueIsMonotone` | overstate_ui/file_sync_schedule.py:122-137 | later ticks are due no earlier slot |
| `SlotSchedule.StoredSince` | overstate_ui/file_sync_schedule.py:148-180 | after a success the stored slot is one due at a tick since, no earlier than it |
| `SlotSchedule.SuccessesIncrease` | overstate_ui/file_sync_schedule.py:163-190 | successful slots strictly increase over any run of ticks in time order, so none succeeds twice |
| `SlotSchedule.StoredSlotSucceeded` | overstate_ui/file_sync_schedule.py:148-160 | the stored slot is the one a run began with or one that succeeded in it |
| `SlotSchedule.EveryMatchIsTried` | overstate_ui/file_sync_schedule.py:122-180 | a matching minute is attempted by a tick in it, or in the next one if that does not match, unless it already succeeded |
| `SlotSchedule.OnlyMatchesAreTried` | overstate_ui/file_sync_schedule.py:122-137 | only matching minutes are attempted, in their own minute or the next |
| `SlotSchedule.FailedSlotIsRetried` | overstate_ui/file_sync_schedule.py:203-209 | a failed slot is tried again by a tick of the next minute |
| `SlotSchedule.SyncMeans` | overstate_ui/file_sync_schedule.py:193-236 | status, slot and fileserver after one sync, for every outcome |
| `SlotSchedule.WarningMeansStale` | overstate_ui/file_sync_schedule.py:211-235 | without failed git syncs, a warning stands exactly while the fileserver is behind |
| `SlotSchedule.WarningSurvives` | overstate_ui/file_sync_schedule.py:200-209 | over any run in which no git sync succeeds, a warning stays if and only if no sync is made |
| `SlotSchedule.RetryExactly` | overstate_ui/file_sync_schedule.py:211-216 | after a failed refresh the next git sync to succeed asks for a refresh if and only if it changed something or no failed sync was made in between |
| `SlotSchedule.RetryIsLost` | overstate_ui/file_sync_schedule.py:200-216 | one failed git sync after a failed refresh loses the retry |
| `SlotSchedule.FileSync.SaveStatus` | overstate_ui/file_sync_schedule.py:148-160 | the slot is stored only when given |
| `SlotSchedule.FileSync.SyncNow` | overstate_ui/file_sync_schedule.py:193-236 | one sync: status, slot and fileserver afterwards |
| `SlotSchedule.FileSync.RunScheduledSync` | overstate_ui/file_sync_schedule.py:163-180 | one tick, run or skipped |
| `SlotSchedule.FileSync.RunManualSync` | overstate_ui/file_sync_schedule.py:183-190 | a manual sync never touches the slot |

## Left out

Whole areas:

- Routes, templates, flashes, audit text, pagination and sorting of pages.
- HTTP, TLS, login and retry, Redis, task queues, the ORM and thread pools: replaced by state and by outcomes chosen by the environment.
- Git work, file browsing, YAML parsing and comment-preserving dumps, JSON decoding, hashes, PEM and sealed boxes.
- The legacy ladder mode, identity-provider provisioning, rate limiters, the deletion of local groups and of delegated grants.
- The patch script, migrations and browser assets.

Within the modelled parts:

- Pod exec: UTF-8 decoding of the three strings, the exit code read from the status channel, the size limit of one `recv`, timeouts and socket errors. Fragmented messages are read as the code reads them, frame by frame.
- KeyTrustRuns.StepKeepsTrust: nothing else changes a key between the reading and the calls made from it, and a match is the literal id; `KeyTrustDrift` states what holds without either.
- KeyTrustRuns.RunKeepsTrust: between passes too only passes change the key directories; `KeyTrustDrift.DriftingRunKeepsTrust` is the result with changes by others.
- KeyTrustPasses.Masters.Accept: moves the literal id; `KeyTrustDrift.AcceptKeepsExactly` is about whatever a match selects.
- KeyTrustDrift: changes by others are seen between calls, not within one; a second copy of an id in another state on the same pod is not modelled.
- Key trust: each id has one state on a pod, since the code keeps only the first; the install script is taken as atomic; the client name is taken to map to that client's own pod; `key.print` yields the accepted key or nothing.
- KeyFingers.AttributionIsExact: assumes that the answer is truthful about ids the pod holds; the shape of the reply envelope around it is not modelled.
- Scopes: glob and grain matching, and the parsing of a JSON list scope, are parameters. The order in which a delegation check names a missing permission is a fixed order of the model's permissions.
- Launch: which permission class a function name falls in, forced beacon arguments, and everything from the publish on are not modelled; a group's members are a set.
- RbacGrants.DelegationRun: for a fixed snapshot and fixed groups, and for grant writes only; a permission of the delegate domain is bounded as the minion set of its scopes (`perm_scope_minions`).
- RbacGrants.DelegationRunAsks: for runs whose scopes resolve to some minion; a run with an empty one can give the check away, and `RbacGrants.UnnamedGainExactly` says exactly when a grant does.
- RbacScopes.FormedListingAgrees: of the forms, only what decides which role may stand on which kind of scope is modelled.
- RbacEdits.EditRun: for a fixed snapshot and fixed minion groups; the role cached after a delegated grant is left out, since a user with an entry never falls back on it.
- RbacEdits.RegroupMeans: a member list is replaced as a value; that all its users exist, and that users are refreshed one after the other, is not modelled.
- RbacMemo.ChecksAreFresh: for users whose every grant change has been followed by their refresh, counting all members of a group whose grants changed.
- Config history: time and user of a snapshot are not modelled. The server is taken to number versions increasingly, and to refuse a stale base version, as `replace_configmap` says; an empty one counts as stale for any object that exists, as it does in the repository's own stand-ins for the server.
- ConfigHistory.RevertRestores: a lone revert; with others at work only what `ConfigHistory.Revert` states holds, since the revision is read afresh just before the write.
- Batches: the parent row is taken to exist; returns of a wave come from its targets; `sync_job` is not called inside the loop, because it returns at once for a batch JID.
- Returns: the `fun` and `user` of a job, the row expiry of the returner and its event and load functions are not modelled; a sync sees one consistent set of rows.
- Verdicts: `checked_at`, `targeted` and the exception branch of the roster lookup, beyond there being no roster.
- Syncs and verdicts: whether a job is a state job that ran on minions is fixed per jid; the payload is decoded by a parameter; deletion of jobs and recomputing are not mixed into these runs.
- SyncVerdicts.BoardTellsReturns: under one watch set; with changing ones `SyncVerdicts.RunKeepsInv` holds.
- Verdicts.LatestJobWins: for jobs whose rows stay; `Verdicts.LatestJobWinsForgetting` is the result with deletions. A deleted job that is recorded anew, with a new start time, is not modelled.
- Verdicts.OrderDoesNotMatter: for minions that begin with no verdict or with one of a forgotten job; `Verdicts.LatestJobWins` covers the rest.
- PillarDocument.Document.SetPath: a mapping held in two places, as a YAML alias gives, is excluded by `Valid`.
- PillarDocument.Document.DelPath: likewise.
- Pillar trees: mapping keys are strings, other values are opaque; the order of keys is not modelled, so flattening is exact only for names without dots, where no two leaves share a name.
- PillarDocument.Document.VerifyCollection: only the write and the removal; `finished` is not the `ok` of the source, which also needs the refresh and the read-back to succeed. Nobody else edits the file meanwhile; reading and writing it succeed; the fileserver, refresh and read-back steps do not touch the file.
- Cron: digits are ASCII digits; names of months and days are rejected by the code too. The calendar that turns a time into minute, hour, day, month and weekday is not modelled, so `SlotSchedule` takes the set of matching minutes as a parameter, empty for a schedule that is off.
- Slots: the stored expression is taken as valid; status messages are not modelled, so a warning is recognised by its status alone.
