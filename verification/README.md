# WovenTeam in Dafny

WovenTeam keeps its state in two append-only line logs, the task ledger and the room log; everything else is
read back from them. This project models the code that writes and reads those logs and proves what every run keeps.

* **Text layer.** `Json`, `JsonStrings`, `Message`, `Compaction`, `Redaction`, `Config`, `Lines` and `RecordLines` work on
  characters: escaping and the strstr-style field lookup, the message printer and parser, the compaction of a
  posted body, redaction, the configuration file, fgets with its buffer sizes, and the printed ledger lines.
* **Ledger.** `Ledger` is the ledger as a sequence of typed records. `RecordLines` proves that a printed lease,
  renewal, reclaim, status or kill line is read back as exactly the record it stands for.
* **Lease protocol.** `Scanners` (the claim scanners over their 256-row table), `Leases` (the lease and cancel folds,
  both claim procedures, runs), `WaitLoop` and `WaitOutcomes` (the renewing wait loop and how it ends), `Projection` (the
  tasks table with its upsert and CASE rules) and `Blocking` (blocked dependents).
* **Admission.** `Policy` (the evaluator) and `Admission` (window sums, active sums, the two posting handlers, runs).
* **Room.** `Room` (ids, readers, event stream), `Replies` (the agents' replies) and `LedgerTail` (the incremental tail).
* **SHA-256.** `Sha256` proves the streaming hash against sections 5.1.1 and 6.2.2 of FIPS 180-4, and `Sha256Constants`
  its constants, functions, rounds and padding against their definitions there.

A C loop is a method proved equal to a specification function; the theorems are lemmas about those functions. The
specification functions of a log recurse on its last record, so a run is a sequence of steps that append.

Each claim, each posted request and each handling of a room message is one atomic step. The code itself takes the
lock for a single append only, so the run theorems hold for one process per agent name and no writer in between.

Results about the code that a reader may not expect, each proved here:

* A renewal counts only in the host scanner. A renewed lease protects its task from remote claims exactly until the
  task is put back to queued or assigned (`Leases.RemoteClaimOfRenewedIff`), and from local claims of the owner not at
  all: the expiry of the lease record itself decides (`Leases.LocalClaimOfRenewedIff`). Both failures are runs
  (`Leases.RerouteTakesOverRenewedLease`, `Leases.LocalScanIgnoresRenewal`); under the conditions every run keeps the
  lease (`Leases.RenewedLeaseIsKept`).
* A reclaim record names the previous holder, so after a reroute the queued scan and the host scan disagree on the
  owner (`Scanners.ReclaimAfterRerouteMisleadsQueuedScan`), and an operator's reclaim of a task without a lease names
  nobody (`Projection.ReclaimWithoutLeaseDiffers`). `Scanners.OffersAgreeIff` and `Projection.AgentsAgreeIff` say
  exactly which ledgers are affected.
* Reopening a finished task, by a review-gate decision or a reclaim, adds its tokens without asking the policy
  (`Admission.ReopeningAddsItsTokens`, `Admission.ReopeningBreaksCap`); a negative token request is stored raw and lets a cap of 100 end at 200
  (`Admission.NegativeRequestBreaksCap`); a package dated before a budget window, or not at all, is not measured by it
  (`Admission.PackageIsMeasuredIff`).
* A package whose agent is left to the router is judged by the routed agent's default model but stored with the model
  of its body, which takes it past the cap of its model family (`Admission.RoutedModelBreaksFamilyCap`); a reroute asks
  nobody, so it can give an agent more tasks than its cap (`Admission.RerouteBreaksAgentCap`). Posted packages are never
  checked against the cap per parent (`Admission.PackagesBreakParentCap`). `Admission.PostingKeepsCapIff` says for every
  cap and every admitted posting whether it is kept.
* The event handler appends lease events as they are posted, and such a lease can give a task a second holder
  (`Leases.PostedLeasesBreakSeparation`); `Leases.HoldersSeparatedIff` says exactly when none does.
* An event with an empty status, or for the empty task id, makes the scanners and the projection differ
  (`Projection.StatusAgreesIff`, `Projection.EmptyTaskIdAgreesIff`).
* A room message of many control bytes prints but cannot be read back, and the next message takes its id again
  (`Room.NextIdIsFreshIff`, `Room.OddMessageRepeatsItsId`).
* The ledger tail falls behind exactly when some line does not fit its buffer (`LedgerTail.TailFallsBehindIff`), and then
  for good (`LedgerTail.OverlongLineBlocksForever`).
* Compaction drops a newline between two digits (`Compaction.IllFormedBodyIsNotPreserved`), so what a handler
  validated and what the ledger holds can differ for a body that is not JSON.
* The string reader takes the escapes \b, \f and \u for their letters (`JsonStrings.ReadsJsonIff`), although the
  program's own printer writes \u escapes (`JsonStrings.EscapedMeansText`).
* Redaction removes the word a prefix starts. The prefix of a key header ends in a space, so only its first word goes
  (`Redaction.RedactedKeyHeader`).
* A claim looks at the last lease only: an earlier one of another agent that expires later refuses nobody
  (`Leases.EarlierLeaseRefusesNobody`). With expiries in order any lease that holds does (`Leases.RefusedWhileAnyoneHolds`).

## Model

| member | source | states |
|---|---|---|
| Json.Escape | src/wt_json.c:15-46 | the escape loop yields the escaped text, and fails exactly when it and its terminator do not fit |
| Json.FindFieldValue | src/wt_json.c:48-62 | the lookup loop stops behind the first quoted key that a colon follows, or finds nothing |
| Json.ReadStringField | src/wt_json.c:64-88 | the reading loop undoes the escapes up to the closing quote, and fails on a missing field or a text that does not fit |
| Json.LeavesTextIff | src/wt_json.c:64-88 | the reading loop steps over the terminator exactly when the text ends, unclosed, in an odd number of backslashes and what is in front of the last fits |
| Json.FindInFields | src/wt_json.c:48-62 | on a printed line the lookup lands on the value of the first field with the key and nowhere else, whatever the texts hold |
| Json.ReadTextOfEscaped | src/wt_json.c:15-88 | reading an escaped text gives it back, with odd control bytes as the letters of their escapes |
| Json.ReadBackOfRender | src/wt_json.c:64-88 | what a text field of a printed line reads as, and when it does not fit |
| Json.ReadStringOfRender | src/wt_json.c:15-88 | a text field comes back unchanged if and only if it holds no control byte other than newline, carriage return and tab |
| Json.ReadLongOfRender | src/wt_json.c:90-116 | an integer field of a printed line always comes back |
| JsonStrings.LiteralReads | src/wt_json.c:64-88 | a JSON string literal reads character by character: \n, \r and \t as these characters, any other escape as the letter behind the backslash |
| JsonStrings.ReadsJsonIff | src/wt_json.c:74-80 | the reader agrees with JSON on a literal if and only if it has no \b, \f or \u escape |
| JsonStrings.EscapedMeansText | src/wt_json.c:15-46 | what the printer writes for any text is a JSON literal that means the text, odd control bytes included |
| JsonStrings.BlanksAroundColon | src/wt_json.c:48-62 | white space around the colon does not matter, whatever the key |
| Message.ToJson | src/wt_message.c:42-62 | the printed line, and exactly when printing fails |
| Message.FromJsonLine | src/wt_message.c:64-77 | the message made of eight field reads, or failure when one fails |
| Message.ReadBack | src/wt_message.c:42-77 | what parsing makes of any printed message, with anything after the brace |
| Message.RoundTrip | src/wt_message.c:42-77 | parsing undoes printing if and only if no text holds an odd control byte |
| Message.LineHasNoNewline | src/wt_message.c:42-62 | a printed message is a single line |
| RecordLines.ReadOnLine | src/wt_json.c:48-116 | reading any key of a printed line gives its first field with that key, and nothing when there is none |
| RecordLines.LeaseLineReadsBack | src/wt_task_store.c:358-379 | printed lease and renewal lines are read as the lease and renewal records, whatever the message holds |
| RecordLines.OtherLinesReadBack | src/wt_task_store.c:391-458 | the same for reclaim, status and kill lines, for every clean status text that fits, including the fields that are absent |
| RecordLines.RoutingLinesReadBack | src/wt_roomd.c:1360-1368 | the same for the daemon's routing, reroute and review-gate lines |
| RecordLines.LongTextsAreNotRead | src/wt_task_store.c:704-759 | a line with an id of 128 characters or more is no record, and a long agent, status or type is missing from it |
| Compaction.CompactJsonLine | src/wt_roomd.c:147-174 | the state machine drops newlines, carriage returns and tabs outside strings only, up to the buffer |
| Compaction.CompactionPreservesFields | src/wt_roomd.c:147-174 | for a body whose white space only surrounds structure, every string and integer field reads the same before and after |
| Compaction.CompactionPreservesJson | src/wt_roomd.c:147-174 | the same for every body of the JSON grammar, however it is spaced |
| Compaction.CompactionSqueezesBlanks | src/wt_roomd.c:147-174 | of a JSON body exactly the newlines, carriage returns and tabs between tokens go; spaces and everything inside strings stay |
| Compaction.IllFormedBodyIsNotPreserved | src/wt_roomd.c:147-174 | a body that is not JSON for which an integer field reads differently |
| Redaction.RedactSecrets | src/wt_security.c:172-191 | the copying loop replaces each recognised word by the marker, and exactly when it runs out of room |
| Redaction.RedactedHasNoSecret | src/wt_security.c:164-191 | no recognised prefix is left anywhere, not even across a marker's edges |
| Redaction.RedactedIsIdentity | src/wt_security.c:164-191 | a text is left alone if and only if it holds no recognised prefix |
| Redaction.RedactedTwice | src/wt_security.c:164-191 | redaction is idempotent |
| Redaction.RedactedKeepsPrefix | src/wt_security.c:172-191 | text in front of the first secret is copied unchanged |
| Redaction.RedactedWord | src/wt_security.c:172-191 | a recognised word goes as a whole, up to white space, quote, apostrophe, comma or brace, and redaction goes on behind it |
| Redaction.RedactedToken | src/wt_security.c:164-191 | nothing is left of a token that starts with wt_, ghp_, github_pat_ or AKIA |
| Redaction.RedactedKeyHeader | src/wt_security.c:164-191 | of a key header only its first word goes, because the prefix ends in a space |
| Sha256.BuildSchedule | src/wt_security.c:44-52 | the in-place schedule loop builds the recursive message schedule |
| Sha256.ScheduleEquations | src/wt_security.c:45-51 | that schedule satisfies both equations of section 6.2.2, step 1, of FIPS 180-4 |
| Sha256.RunRounds | src/wt_security.c:53-78 | the loop over eight working variables is the 64-fold round function |
| Sha256.Context.Transform | src/wt_security.c:44-88 | one block updates the state by the compression function |
| Sha256.Context.Update | src/wt_security.c:103-112 | buffering keeps the absorbed bytes: full blocks in the state, the rest waiting |
| Sha256.Context.Final | src/wt_security.c:114-132 | the digest of everything absorbed: padding of section 5.1.1, then the compression of its blocks |
| Sha256.HashPieces | src/wt_security.c:90-132 | every way of splitting a byte string into updates gives the same digest |
| Sha256Constants.ConstantsAreCubeRoots | src/wt_security.c:18-27 | the 64 constants are the first 32 bits of the fractional parts of the cube roots of the first 64 primes |
| Sha256Constants.InitialIsSquareRoots | src/wt_security.c:90-101 | the initial state is that of the square roots of the first eight |
| Sha256Constants.SigmasRotate | src/wt_security.c:45-70 | the four sums are the shifts and rotations of section 4.1.2 |
| Sha256Constants.ChChooses | src/wt_security.c:53-70 | Ch takes each bit from y or z as x says |
| Sha256Constants.MajIsMajority | src/wt_security.c:53-70 | Maj takes the majority of each bit |
| Sha256Constants.RoundEquations | src/wt_security.c:53-78 | one round is step 3 of section 6.2.2, equation by equation |
| Sha256Constants.BlockEquations | src/wt_security.c:79-88 | one block is step 4: the working variables are added to the hash value |
| Sha256Constants.PaddingEquations | src/wt_security.c:114-128 | the padding is a one bit, the fewest zeros and the length in bits, most significant byte first |
| Sha256Constants.WordsAreBigEndian | src/wt_security.c:44-48 | words are read and written with the most significant byte first, and writing undoes reading |
| Scanners.FindKnownTask | src/wt_task_store.c:87-94 | the first table row with the task id, or none |
| Scanners.ScanLedger | src/wt_task_store.c:147-169 | the scan loop with its 256-row array is the table fold, for each of the three scanners |
| Scanners.TableRefinesFold | src/wt_task_store.c:139-328 | the table holds the per-task fold of each of the first 256 packaged tasks, in packaging order |
| Scanners.ScanRefinesFold | src/wt_task_store.c:171-179 | a scan returns the fold of the earliest-packaged known task that matches, or nothing when none does |
| Scanners.KnownAre256 | src/wt_task_store.c:139-170 | the table holds the first 256 packaged tasks in the order of their first package |
| Scanners.FindQueuedForAgent | src/wt_task_store.c:139-180 | the queued scan's offer |
| Scanners.QueuedOfferIsEarliest | src/wt_task_store.c:139-180 | with at most 256 tasks it is the earliest-packaged queued or assigned task of the agent, or nothing |
| Scanners.FindClaimableForAgent | src/wt_task_store.c:182-261 | the two-pass local offer |
| Scanners.FindClaimableForAgentOnHost | src/wt_task_store.c:263-328 | the one-pass host offer |
| Scanners.OffersNameTheAgent | src/wt_task_store.c:171-328 | an offer names the agent that asked for it |
| Scanners.TwoPassFindsIffOnePass | src/wt_task_store.c:182-328 | without hosts and renewals and with records naming the owner, the local scan finds a task exactly when the host scan does |
| Scanners.ScanFindsIff | src/wt_task_store.c:171-179 | a scan returns a task exactly when it is the earliest-packaged known task that matches |
| Scanners.FoldIsSetByLast | src/wt_task_store.c:139-328 | status, agent, owner, host and expiry of a task are those of the last record that sets them |
| Scanners.OnlyRenewalsDiffer | src/wt_task_store.c:303-316 | the local and the host expiry differ only when a renewal came last |
| Scanners.OffersAgreeIff | src/wt_task_store.c:182-328 | on every ledger the two scans offer a task without a host to the same agents at all times exactly when the last agent named is the routed owner, if it is queued, and the two expiries agree, if it is underway |
| Scanners.ReclaimAfterRerouteMisleadsQueuedScan | src/wt_task_store.c:450-456 | a ledger on which the two scans offer a task to different agents |
| Leases.FindActiveLease | src/wt_task_store.c:704-759 | the loop over flag, holder, expiry and attempt is the lease fold |
| Leases.LeaseOfMeaning | src/wt_task_store.c:704-759 | the fold reports the last lease, active exactly when nothing after it releases the task |
| Leases.FindCancelRequest | src/wt_task_store.c:627-662 | the cancel loop is the cancel fold |
| Leases.CancelHoldsUntilNextLease | src/wt_task_store.c:627-662 | a cancel request holds if and only if some kill record has no later lease |
| Leases.AgentPaused | src/wt_task_store.c:330-356 | the last pause or resume of the agent decides |
| Leases.PausedIff | src/wt_task_store.c:330-356 | an agent is paused if and only if its last control record pauses it |
| Leases.ClaimWrites | src/wt_agent.c:736-769 | over the records: a claim writes nothing exactly when another agent's last lease stands unreleased and unexpired; else its lease, behind a reclaim exactly when a lease stands expired |
| Leases.HolderIsNeverRefused | src/wt_agent.c:744 | the holder of a lease is never refused its own task |
| Leases.RefusedWhileAnyoneHolds | src/wt_agent.c:736-749 | with separated holders and expiries in order a claim is refused exactly when any lease of another agent holds |
| Leases.EarlierLeaseRefusesNobody | src/wt_task_store.c:704-759 | without that order an earlier lease that outlasts the last one refuses nobody |
| Leases.TaskLedger.HandleAssignedTask | src/wt_agent.c:721-773 | what a local claim appends, and when it claims |
| Leases.TaskLedger.HandlePostRemoteClaim | src/wt_roomd.c:2330-2372 | what a remote claim appends, and when it claims |
| Leases.RunKeepsHoldersSeparated | src/wt_agent.c:736-773 | in every run two leases of one task with different holders have a reclaim or terminal status record between them |
| Leases.AtMostOneHolder | src/wt_agent.c:736-773 | in every run at most one agent at any moment holds an unexpired, unreleased lease on a task |
| Leases.HoldersSeparatedIff | src/wt_roomd.c:2887-2926 | whatever is appended and whatever the clocks say, holders stay separated exactly when every lease posted as an event names the holder of the lease active then |
| Leases.PostedLeasesBreakSeparation | src/wt_roomd.c:2887-2926 | two lease events posted for one task after which two agents hold it at once |
| Leases.AutomaticReclaimOnlyAfterExpiry | src/wt_agent.c:750-762 | an automatic reclaim names the last lease's holder and never precedes its expiry |
| Leases.RunCountsAttempts | src/wt_agent.c:763-769 | the k-th lease of a task carries attempt k across reclaims, failures and retries |
| Leases.RemoteClaimLeasesIff | src/wt_roomd.c:2330-2372 | a remote claim leases a task exactly when the host is capable, it is the first task offered, and no foreign lease stands |
| Leases.LocalClaimLeasesIff | src/wt_agent.c:721-773 | a local claim leases a task exactly when the agent is not paused, no foreign lease stands, and it is the first task queued for it, or nothing is queued and it is the first stuck one |
| Leases.RemoteClaimOfRenewedIff | src/wt_roomd.c:2330-2372 | while the renewed expiry is ahead a remote claim leases the task exactly when it went back to queued or assigned, the agent owns it, and no earlier task or foreign lease stands in the way |
| Leases.LocalClaimOfRenewedIff | src/wt_task_store.c:182-261 | then a local claim leases it exactly when it has no host and is queued for the agent, or is underway, owned by the agent, with the lease record's own expiry passed |
| Leases.RenewedLeaseIsKept | src/wt_agent.c:322-333 | from any moment of a run at which the task is underway, while only renewals and running statuses are added, remote claims come before the renewed expiry and the owner makes no local claim, no claim leases it |
| Leases.RerouteTakesOverRenewedLease | src/wt_roomd.c:2347-2372 | a run in which a reroute lets a remote claim take over a lease renewed until later |
| Leases.LocalScanIgnoresRenewal | src/wt_task_store.c:237-241 | a run in which the owner's local claim takes over a renewed lease after its first expiry, while no host is offered the task |
| WaitLoop.WaitForAdapterChild | src/wt_agent.c:269-342 | the wait loop's records, expiry and outcome are the fold over its turns |
| WaitOutcomes.EndsAtFirst | src/wt_agent.c:292-342 | the loop ends at its first ending turn for that turn's reason, with one renewal per tick before it, and reports the last renewal's expiry or the start's |
| WaitOutcomes.OutcomeIff | src/wt_agent.c:292-327 | each of the four endings exactly: child gone, wait error, timeout, or a due poll that finds a standing kill record |
| WaitLoop.ClaimSetsExpiry | src/wt_agent.c:767-768 | after a claim the host scanner sees the task leased until the claim's clock plus the lease duration |
| WaitLoop.NeverOfferedWhileWaiting | src/wt_agent.c:269-342 | while the loop waits the host scanner offers the task to nobody, if delay, renewal interval and gap fit in the lease duration |
| WaitLoop.ClaimedTaskStaysUnoffered | src/wt_agent.c:721-773 | from a local claim on, through the running statuses and all turns of the loop, the task is offered to nobody under the same bound |
| WaitLoop.LongerGapLetsTaskBeOffered | src/wt_agent.c:322-333 | as soon as they do not fit, some schedule within the gap lets it be offered: the bound is exact |
| WaitLoop.WaitEndsInTime | src/wt_agent.c:301-319 | the loop waits past neither the timeout nor, by more than the poll interval, a cancel request that stands |
| Projection.Database.ProjectPackage | src/wt_task_projection.c:43-134 | the upsert keeps lease columns and attempt count of an existing row, leaves every other row and the order alone, and keeps one row per id |
| Projection.Database.InsertEvent | src/wt_task_projection.c:136-325 | the CASE update moves only the row of the event's task, only the columns its type may move, and nothing without a row or an id |
| Projection.Database.Rebuild | src/wt_task_projection.c:663-692 | the rebuild loop yields the table fold |
| Projection.TableIsFold | src/wt_task_projection.c:663-692 | the table holds exactly one row per packaged task, the fold of its records |
| Projection.StatusAgrees | src/wt_task_projection.c:204-221 | row and scanners know the same tasks, and their statuses agree unless the scanners see the empty text |
| Projection.StatusAgreesIff | src/wt_task_projection.c:204-217 | the statuses agree exactly when the last record with a status carries a non-empty one, or the row's own last one is an empty package status |
| Projection.EmptyTaskIdAgreesIff | src/wt_task_projection.c:201-203 | for the empty task id they agree exactly when the last status is the last package's |
| Projection.EmptyStatusDiffers | src/wt_task_store.c:166-168 | an event with an empty status makes them differ when the row has one |
| Projection.EmptyTaskIdDiffers | src/wt_task_projection.c:201-203 | so does an event of the task with the empty id |
| Projection.RowIsSetByLast | src/wt_task_projection.c:204-217 | a row's status and agent are those of the last record that names one |
| Projection.AgentsAgreeIff | src/wt_task_projection.c:217 | row and queued scan hold the same agent exactly when the last record that carries an agent names one and no later request names another, or both come from a package with an empty one |
| Projection.ReclaimWithoutLeaseDiffers | src/wt_roomd.c:2733-2738 | an operator's reclaim of a task without a lease clears the agent in the queued scan only |
| Projection.UnassignedPackageDiffers | src/wt_task_projection.c:93 | a package without an agent is assigned to everyone in the table and to nobody in the scan |
| Projection.ActiveLeaseIsProjectedIff | src/wt_task_projection.c:218-225 | the row shows an active lease's owner and expiry if and only if a package stands before the lease, or there is a row and the lease names neither |
| Projection.RunProjectsActiveLease | src/wt_task_projection.c:218-225 | so it does in every run of claims, under any agent name |
| Projection.RunProjectsAttempts | src/wt_task_projection.c:234 | in every run the projected attempt count is the number of leases |
| Policy.ModelFamily | src/wt_policy.c:13-29 | there is no family exactly without a slash or with one in front; else it is the text before the first slash, cut to the buffer |
| Policy.ShortFamilyIsWholePrefix | src/wt_policy.c:13-29 | the text before the first slash is the family when it fits |
| Policy.VendorIsBlocked | src/wt_policy.c:31-52 | the nested cursor loop says yes exactly for a non-empty family that is a trimmed entry of the list |
| Policy.VendorsIff | src/wt_policy.c:31-52 | the entries are the pieces between commas without the spaces and tabs around them |
| Policy.DecidedByFirstBroken | src/wt_policy.c:92-230 | the decision is the reason of the first of twelve written-out limits that is broken |
| Policy.EvaluateTaskPackage | src/wt_policy.c:92-230 | the cascade of early returns, with each reason code |
| Policy.AllowedIff | src/wt_policy.c:92-230 | a package is allowed if and only if every switched-on limit leaves room for it |
| Policy.ReasonsAreTrue | src/wt_policy.c:92-230 | every reason code names a limit that is broken |
| Admission.SummarizeTokenBudgets | src/wt_task_store.c:832-868 | the running allocation sums are the window sums of clamped tokens |
| Admission.PreparePolicyInput | src/wt_roomd.c:1106-1138 | the window sums, the initiative, family and agent sums and counts the evaluator is given |
| Admission.HandlePost | src/wt_roomd.c:1228-1595 | the answer to a posted package or request and the records it appends |
| Admission.AnswerIff | src/wt_roomd.c:1185-1226 | every answer exactly: the policy's reason, the host, then for requests the first cap without room, else accepted |
| Admission.AcceptedIff | src/wt_roomd.c:1228-1595 | a posting is accepted if and only if it passes every rule that is switched on, over the ledger as it stands |
| Admission.RefusedChangesNothing | src/wt_roomd.c:1320-1346 | a refused posting leaves one decision record or none, and every row and window as it was |
| Admission.PostingWrites | src/wt_roomd.c:1344-1388 | the records an accepted posting appends |
| Admission.WindowGrows | src/wt_task_store.c:851-858 | a record adds to a window exactly the positive tokens of a package dated inside it |
| Admission.RowCounts | src/wt_task_projection.c:1656-1783 | what a row counts for in each of the five sums and counts, until it is complete, failed, cancelled or closed |
| Admission.AdmittedTaskIsOfferedToItsAgent | src/wt_roomd.c:1344-1388 | an admitted, routed task is at once what the host scan returns to its agent on its host unless an earlier task comes first, and to nobody else |
| Admission.WindowsStayWithinBudgets | src/wt_policy.c:190-199 | in every run both window sums stay within their budgets at every later time, whatever timestamps packages carry |
| Admission.PackageIsMeasuredIff | src/wt_task_store.c:851-858 | an admitted package adds its tokens to a window exactly when its creation time is positive and not before the window |
| Admission.RecordChangesTotalByItsRow | src/wt_task_projection.c:1656-1760 | a record changes an active sum exactly by its own task's row |
| Admission.AdmissionRaisesItsMeasuresOnly | src/wt_roomd.c:1228-1388 | an admission adds at most its request or one task, only to the sums its package counts for, also on a second posting |
| Admission.PostingStores | src/wt_roomd.c:1344-1388 | the row of a posted task afterwards: status, agent, tokens, model, initiative and parent, the routing event included; every other row is as before |
| Admission.PostingChangesMeasure | src/wt_roomd.c:1228-1595 | an admitted posting changes the sum or count of every initiative, family, parent and agent exactly by what it stores less what it overwrites |
| Admission.PostingKeepsCapIff | src/wt_roomd.c:1228-1595 | so it keeps a cap exactly when that still fits |
| Admission.InFamilyMeans | src/wt_task_projection.c:1762-1783 | the LIKE pattern of a family selects exactly the model ids that start with its letters, in either case, and a slash |
| Admission.MeasuresStayWithinCaps | src/wt_policy.c:165-227 | in every run that is orderly for a measure it stays within its cap: initiatives, families judged by the model they store, parents whose subtasks were requested, agents that get no task without a posting |
| Admission.InitiativesStayWithinCaps | src/wt_policy.c:165-178 | in every orderly run token sum and task count of every initiative stay within their caps |
| Admission.ReopeningAddsItsTokens | src/wt_roomd.c:2929-2981 | an event that reopens a finished task adds its tokens, or the task, to every initiative, family, parent and agent it counts for, and keeps a cap exactly when they fit |
| Admission.ReopeningBreaksCap | src/wt_roomd.c:2929-2981 | a run under a cap of 100 in which a review gate reopens a finished task of 100 tokens beside an active one |
| Admission.FinishingKeepsCapIff | src/wt_task_projection.c:1741-1760 | finishing a task keeps a cap exactly when the sum without its raw tokens, or the count without the task, does |
| Admission.PackageKeepsCapIff | src/wt_task_projection.c:43-134 | a package record by itself, before any routing event, keeps a cap exactly when what it adds, less what it overwrites, fits |
| Admission.NegativeRequestBreaksCap | src/wt_roomd.c:1268-1271 | a run under a cap of 100 in which packages of -100, 100 and 100 tokens are admitted and the sum ends at 200 |
| Admission.RoutedModelBreaksFamilyCap | src/wt_roomd.c:1295-1299 | a run in which two packages of any posted status, stored with one family and judged by another, take its sum to 200 under a cap of 100 |
| Admission.RerouteKeepsAgentCapIff | src/wt_roomd.c:2493-2521 | a reroute to another agent keeps that agent's cap exactly when it has room for the task |
| Admission.RerouteBreaksAgentCap | src/wt_roomd.c:2493-2521 | a run in which two admitted tasks and a reroute leave an agent with two tasks under a cap of one |
| Admission.PackagesIgnoreParentCap | src/wt_roomd.c:1228-1388 | the answer to a posted package is the same under every cap per parent |
| Admission.PackagesBreakParentCap | src/wt_roomd.c:1228-1388 | runs in which any number of packages of one parent is admitted under any cap per parent |
| Blocking.AppendBlockedDependents | src/wt_task_store.c:776-830 | the records appended and their number |
| Blocking.DependentsAreFirst256 | src/wt_task_store.c:776-810 | only the first 256 packages that list the blocked task are looked at |
| Blocking.BlockingIsExact | src/wt_task_store.c:776-830 | for every scanner an affected task becomes blocked, nothing else changes, and every listing task is then blocked or terminal |
| Blocking.RecordsPerTask | src/wt_task_store.c:811-829 | an affected task gets one record per package of it that lists the blocked task, any other none |
| Blocking.SecondCallAddsNothing | src/wt_task_store.c:776-830 | a second call appends nothing |
| Room.RoomLog.ReadLastMessageId | src/wt_room_store.c:52-67 | the greatest id of the readable messages |
| Room.RoomLog.AppendNewMessage | src/wt_room_store.c:98-152 | the log after one locked append, unchanged when the message does not print |
| Room.MaxIdIsGreatest | src/wt_room_store.c:52-67 | the last id is the greatest there is |
| Room.FirstAfterIs | src/wt_room_store.c:186-201 | only greater ids are found, and only the array's size leaves any out |
| Room.RoomLog.ReadRecent | src/wt_room_store.c:154-184 | the ring array returns exactly the last messages in order |
| Room.RoomLog.ReadMessagesAfter | src/wt_room_store.c:186-201 | the first messages with a greater id, up to the array's size |
| Room.MessagesOfLine | src/wt_room_store.c:118-127 | a printed line adds exactly the message read back of it, also when its newline no longer fits the buffer |
| Room.IdsAreSequential | src/wt_room_store.c:98-152 | any sequence of appends of readable messages is numbered 1, 2, 3 and so on, and the readers see exactly those messages |
| Room.CleanMessagesAreReadExactly | src/wt_room_store.c:98-201 | without odd control bytes the readers see the stored messages themselves |
| Room.NextIdIsFreshIff | src/wt_room_store.c:120-127 | the next append takes a fresh id if and only if the message before can be read back |
| Room.OddBodyIsUnreadable | src/wt_message.c:64-77 | 820 odd control bytes make a body that does not fit when read back |
| Room.OddMessageRepeatsItsId | src/wt_room_store.c:120-145 | such a message fits its arrays and prints, no reader sees it, and the next append takes its id again |
| Room.EventStream.SendNewMessages | src/wt_roomd.c:3129-3134 | one tick sends the first 64 messages after the last id and moves it |
| Room.DeliveredOnceInOrder | src/wt_roomd.c:3129-3134 | over any interleaving of appends and ticks the client gets every message once, in order, 64 at a time |
| Replies.Agent.HandleOnce | src/wt_agent.c:811-854 | the newest message that addresses the agent is answered and its id stored |
| Replies.HandleStepIsHandleOnce | src/wt_agent.c:811-854 | the step of the runs is what the method does to log and stored ids, with and without a reply |
| Replies.RepliesReachTheLog | src/wt_agent.c:69-83 | every reply of the three agents prints and reads back, so the readers see the log of the run's step |
| Replies.RunsAreOnTheFiles | src/wt_agent.c:811-854 | over any number of actions the log file and the state files hold the messages and the ids of the run |
| Replies.HandlingAnswersNewest | src/wt_agent.c:817-851 | one handling answers the newest message for the agent in its context of 20, or 1 to 256, above the stored id, and stores that id |
| Replies.NothingIsMissed | src/wt_agent.c:811-854 | an agent that handles before its context is full leaves no message for it pending |
| Replies.AtMostOneReply | src/wt_agent.c:56-67 | in every run an agent replies at most once to any message |
| Replies.RepliesNeverTrigger | src/wt_agent.c:56-67 | every answered message comes from the ceo or the system, and no reply addresses any agent |
| Replies.AtMostOneMoreReply | src/wt_agent.c:811-854 | once nothing more is said to an agent it sends at most one more reply, and none when no message waits |
| LedgerTail.Client.StreamLedgerDelta | src/wt_roomd.c:3069-3103 | one tick's frames and new offset, the truncation branch included |
| LedgerTail.ReadMeaning | src/wt_roomd.c:3069-3103 | a tick consumes whole lines only, sends their records, and stops at the measured size or at an unreadable rest |
| LedgerTail.RecordsOfNextLine | src/wt_roomd.c:3089-3096 | the records are the lines without a final carriage return and without the empty ones |
| LedgerTail.TailDeliversOnce | src/wt_roomd.c:3119-3137 | over any growth and ticks the frames are exactly the records of the complete lines between seed and offset |
| LedgerTail.NothingLeftBehindIff | src/wt_roomd.c:3086-3096 | a tick leaves a complete line of the unread text behind if and only if some line of that text is too long for the buffer |
| LedgerTail.TailFallsBehindIff | src/wt_roomd.c:3119-3137 | over any growth and ticks a complete line that the last tick found present is unsent if and only if some line since the seed was too long |
| LedgerTail.OverlongLineBlocksForever | src/wt_roomd.c:3089-3092 | such a line stops the tail, however the file grows |
| LedgerTail.TruncationStartsAfresh | src/wt_roomd.c:3075-3081 | after a truncation the tail sends nothing and goes on from the end of the shorter file |
| Config.WtConfig.WriteFile | src/wt_config.c:241-350 | the written text loads back to plain values over any configuration |
| Config.TrimWhitespace | src/wt_config.c:21-30 | both trimming loops |
| Config.WtConfig.SetValue | src/wt_config.c:105-212 | the first matching key is set, an unknown one changes nothing |
| Config.WtConfig.LoadFile | src/wt_config.c:214-239 | the loading loop is the fold over the file's pieces |
| Config.KeyIsFound | src/wt_config.c:105-212 | the 51 keys are told apart by the comparisons |
| Config.LoadedOfLine | src/wt_config.c:221-236 | a written line sets its field to the trimmed text, whatever the text holds |
| Config.LineIs | src/wt_config.c:221-236 | comments, blank lines and lines without '=' change nothing; else the trimmed key is set to the trimmed text |
| Config.LongLinesArePieces | src/wt_config.c:221-236 | a line of more than 510 characters is taken in pieces of 511 |
| Config.ValueIs | src/wt_config.c:105-212 | a text is cut to its array, a number is what it starts with or 0, a flag is on when that is not 0 |
| Config.RoundTrip | src/wt_config.c:214-350 | loading the written file restores every field if and only if every text is one line without outer white space |

## Left out

- Sockets, HTTP parsing and responses, fork, exec, signals, waitpid, files and locks: only their effect is modelled (a record or line appended, a snapshot read, a clock reading, a child alive or gone, a measured file size).
- SQLite: the tasks table is a sequence of rows, its statements are functions; the other tables, the columns that neither admission nor the leases use, and the JSON reports are not part of this model.
- src/wt_deliverable.c, src/wt_notify.c, src/wt_http.c, src/wt_system.c, src/wt_time.c, src/wt_say.c, src/wt_tail.c, src/worker, web, bin, docs, roles and models are not part of this model.
- Role tables, default agents and models, autonomy defaults, host profiles and name allow-lists: their answers are parameters of a posted request or claim.
- Integers are unbounded, except the 32-bit words and the 64-bit length of SHA-256; a number beyond `long` is not modelled.
- Lines that snprintf would cut: a printed ledger line is taken whole, and a frame or a path always fits. Message lines, configuration lines and log pieces do keep their buffer sizes.
- Lines without a taskId: the scanners skip them, the projection files a package without one under the empty id; both are records of no task here.
- Ledger packages as text: their fields reach the records through the compaction theorem; the search for a quoted id behind the word dependencies is the record's list of dependencies.
- Admission.SummarizeTokenBudgets: the usage records with their actual tokens and costs, the all-time sums and the package counts of the summary are left out, because no decision depends on them.
- Admission.HandlePost: whether a host is capable is an input of the posting, because host profiles are kept outside the ledger; responses, room messages and failing appends are left out.
- Token issue and login checks, the hexadecimal printing of a token's hash, and token previews.
- The remaining ledger writers (heartbeats, milestones, autonomy, artifact and deliverable events): they are records the folds ignore.
- Scanners.ScanLedger: the three copies of the loop are one loop with the scanner as a parameter; title, body, profile and update time of a summary are not kept.
- Leases.TaskLedger.HandleAssignedTask: what follows the lease record (the adapters and their status records) is any further record of a run; a failing append is not modelled.
- WaitLoop.WaitForAdapterChild: the loop runs over the turns it is given; the signals and the grace period after a cancel or timeout are left out.
- Json.ReadStringField: for a text that ends in a lone backslash the C loop steps over the terminator and reads what lies behind; the model fails there, and Json.LeavesTextIff says exactly when.
- Redaction.RedactSecrets: a null input is the empty text.
- Policy.EvaluateTaskPackage: null arguments and the wording of the detail messages are left out.
- Replies.Agent.HandleOnce: the task part that runs first is any other writer, and writing the state file succeeds.
- LedgerTail.Client.StreamLedgerDelta: a failing send and an unreadable file are left out, and a null character in a line.
- Config.WtConfig.WriteFile: the single formatted print is one function; the fields are one table of keys, kinds and sizes; configPath, which is not written, and the environment overrides are left out.
- Sha256.Context.Update: the rotation helper is inlined as literal rotations, and words are compared as 32-bit vectors.
