# Verified models of telemt

Dafny models of the parts of telemt whose correctness spans many functions, with proofs about every input, every run
or every interleaving. `dafny verify dfyconfig.toml` checks the project.

## What is modelled

**The per-user IP tracker.** `TrackerSpec` describes the tracker as three flat tables from (user, address) pairs:
session counts, last admission times and queued releases. `Tracker.UserIpTracker` is the tracker itself, with 64
shards of nested maps, two entry counters with hard caps and a queue gauge. Every method is proved to do to the flat
tables exactly what `TrackerSpec` says, while the counters stay equal to the number of entries. The theorems about
whole sequential runs (`RecentLog`, `FreshAdmissions`, `DeferredRelease`, `AdmissionAnswers`, `WindowGrowth`) are
stated on the flat tables. `Interleaving` is a second model of the same code: any number of threads, each holding at
most one shard lock, that reserve, insert, remove and subtract in separate steps. `InterleavedCounters`,
`InterleavedSessions` and `InterleavedLimit` prove what every interleaving keeps, `InterleavedCalls` that the steps of
an admission nobody disturbs come to what the flat specification decides. `InterleavedWindow` and `WindowLag` find how
much of the sliding-window limit is left under concurrency.

Two properties a reader may expect of the tracker do not hold of the code. Replacing an immediate release by a queued
one can change a later answer when the window is made longer in between, because `remove_ip` may compact the log of
recent addresses and `enqueue_cleanup` never does. `WindowGrowth` gives the calls that show it, on a new tracker and
with wall clock and monotone clock in step, and proves that the change is harmless exactly when the window does not
grow; `DeferredRelease` proves harmlessness for all runs without such growth. And the bound on fresh admissions per
window, which `FreshAdmissions` proves for calls made one after another, fails under concurrency: `check_and_add`
reads the clock before it waits for the shard lock, so a late thread records an admission with an old time.
`WindowLag` proves that the bound holds for intervals of a given length exactly when that length and the longest wait
together fit into the window.

**Editing the configuration file.** `TomlTables` and `TomlEdits` model finding, replacing and appending one table by
lines of text. `ConfigSave` models the loop that writes the requested access sections, and the shape of a rendered
section. `TomlTexts` says what an edit makes of the characters, `TomlBlocks` cuts a file into its tables, as TOML sees
them. `AccessUsers` models the five user mutations, from the checks on a request over loading the file to the file
written and the tracker; `UserStore` is the API that runs them on the file and on a `Tracker.UserIpTracker`.
`AccessNames` spells out the names it accepts, `AccessEdits`, `AccessTouches` and `UserProfiles` say what the
mutations do to the tables and which sections they write, `AccessFiles` and `AccessSaves` what loading gives after a
save, `AccessHeaders` under which header of the file each table ends up, `AccessReplies` what a call is answered,
`AccessRuns` what holds after any calls. The loader has its own names for the tables (`AccessUsers.FieldRows`, the
fields of its configuration), and nothing but a proof ties them to the names the API writes. Writing TOML rows,
telling which parts of a file have a say in a table, reading them, date parsing, validation and the file hash are
parameters (`AccessUsers.Env`); `AccessFiles.Faithful` states all that is assumed of the first three, and
`AccessExample` shows that it can be met.

The code does not always write a file that it can load again, and `AccessFailures` gives the calls. Creating a user
with a rate limit of zero in every direction given writes a row the loader refuses. Creating a user named `include`
writes a row the loader takes for an include directive. Requests carry unsigned 64-bit numbers and the loader's TOML
values hold signed ones, so a create or a patch with a rate of 2^63 or more writes a row that does not parse; a quota
or a limit that large does the same, unless the TOML writer refuses it and the request fails. All these requests pass
the checks, and afterwards every mutation fails. `AccessRuns` proves that they are all there is, from a file that is
in order: the file loads after any calls exactly when none of them that went through was such a request.

A file is in order when it loads, when nothing but a table whose header line is exactly `[access.x]` has a say in a
section, and when no user in it is named `include` or has ` = ` in the name, at which the writer of rate rows would
cut the name off. The first matters because a header with a comment, `[access.users] # staff`, is TOML but not seen by
the API, which appends a second table. `AccessSaves.SavedIff` and `AccessRuns.StepLoadsIff` hold for every file: they
say exactly when a save leaves the configuration that was meant.

**Cipher mode and generator.** `Cbc` models the CBC loops over any block permutation, as the equations of section 6.2
of NIST SP 800-38A; `CbcLaws` proves how blocks and parts of a message chain. `SecureRandom` models the refill buffer
over an arbitrary stream of chunks, `Shuffling` the shuffle over an arbitrary sequence of choices.

**The conntrack controller.** `Conntrack` is the event loop as a state machine, `ConntrackLoop` the loop on the state
it changes, `ConntrackRuns` and `ConntrackPressure` what holds after any events. `ConntrackHistory` tells
configuration, verdicts and flags from the events alone, `ConntrackAttempts` which closes lead to a delete.

**Comparing configurations.** `CanonicalJson` models the recursive sorting of object keys before two configurations
are compared.

Clocks, random choices, results of external commands, sampled statistics and whether the file can be read and written
are parameters. Time is a non-decreasing number of nanoseconds. `shard_idx` is an arbitrary function into 0..63.

## Model

| member | source | states |
|---|---|---|
| `Tracker.UserIpTracker.constructor` | src/ip_tracker.rs:85-118 | A new tracker has no entries, counters at zero, no limits, and a window of 30 seconds |
| `Tracker.UserIpTracker.SetLimitPolicy` | src/ip_tracker/admission.rs:4-9 | Mode and window change, the window to at least one second; nothing else does |
| `Tracker.UserIpTracker.SetUserLimit` | src/ip_tracker/admission.rs:11-13 | One user's limit changes and nothing else |
| `Tracker.UserIpTracker.RemoveUserLimit` | src/ip_tracker/admission.rs:15-17 | One user's own limit goes and nothing else changes |
| `Tracker.UserIpTracker.LoadLimits` | src/ip_tracker/admission.rs:19-25 | The default and all per-user limits are replaced and nothing else changes |
| `Tracker.UserIpTracker.EnqueueCleanup` | src/ip_tracker/cleanup.rs:5-38 | One more release of the pair is queued; the gauge keeps counting the queued pairs and no user is listed without one |
| `Tracker.UserIpTracker.DrainCleanupForUser` | src/ip_tracker/cleanup.rs:61-89 | Everything queued for the user is released and leaves the queue, early return included; the counters stay exact |
| `Tracker.UserIpTracker.DrainCleanupShard` | src/ip_tracker/cleanup.rs:91-147 | Exactly the smaller of 1024 and the number of queued pairs of the shard are released with their whole counts |
| `Tracker.UserIpTracker.DrainCleanupQueue` | src/ip_tracker/cleanup.rs:52-59 | One such batch of every shard is released, early return included |
| `Tracker.UserIpTracker.MaybeCompactEmptyUsers` | src/ip_tracker/snapshot.rs:4-68 | When a minute has passed, entries outside the window go from every shard; users with nothing left go without a trace in the tables |
| `Tracker.UserIpTracker.PrepareAdmission` | src/ip_tracker/admission.rs:41-57 | The user's releases are applied, compaction runs if due, and the user's entries outside the window go |
| `Tracker.UserIpTracker.CheckAndAdd` | src/ip_tracker/admission.rs:40-152 | Outcome and new tables are those of the flat specification, which `AdmissionAnswers` pins down from the calls, for every mode, limit and cap, rejections and roll-back included, with both counters exact |
| `Tracker.UserIpTracker.RemoveIp` | src/ip_tracker/admission.rs:154-172 | One session of the pair is released at once, after compaction if due |
| `Tracker.UserIpTracker.ClearUserIps` | src/ip_tracker/snapshot.rs:226-242 | The user's sessions and recent addresses go, the queued releases stay, the counters stay exact |
| `Tracker.UserIpTracker.ClearAll` | src/ip_tracker/snapshot.rs:244-262 | All three tables and their counters are emptied |
| `Tracker.UserIpTracker.GetRecentCountsSnapshot` | src/ip_tracker/snapshot.rs:112-134 | For each user asked about, the number of addresses inside the window |
| `Tracker.UserIpTracker.GetRecentIpsForUsers` | src/ip_tracker/snapshot.rs:153-175 | For each user asked about, exactly the addresses inside the window in increasing order; the drain before does not change them |
| `IpOrder.Sort` | src/ip_tracker/snapshot.rs:171 | The addresses in strictly increasing order, each once |
| `ShardOps.ApplyActiveCleanup` | src/ip_tracker.rs:167-193 | The count drops by the pending releases or the entry goes; the result says how many entries went |
| `ShardOps.ApplyReleases` | src/ip_tracker/cleanup.rs:139-146 | Applying a batch entry by entry is one release of the whole batch, and the counter drops by the entries that went |
| `ShardOps.QueuePush` | src/ip_tracker/cleanup.rs:10-18 | The gauge grows only for a pair not listed yet |
| `ShardOps.PopOneCleanup` | src/ip_tracker.rs:203-217 | A pair comes off with its whole count; nothing comes off only when the shard's queue is empty |
| `ShardOps.QueueTakeBatch` | src/ip_tracker/cleanup.rs:97-113 | A batch is as large as it can be and loses no count |
| `ShardOps.PruneRecent` | src/ip_tracker/admission.rs:27-38 | Exactly the entries inside the window stay, unchanged, and the number of those gone is returned |
| `ShardOps.CompactShards` | src/ip_tracker/snapshot.rs:22-67 | Compacting shard by shard prunes the whole table once, with both counters exact |
| `ShardOps.Admit` | src/ip_tracker/admission.rs:59-152 | The decision on nested maps and counters is the flat decision, and a refused admission leaves tables and counters as they were |
| `Tracker.DrainsLeave` | src/ip_tracker/cleanup.rs:97-113 | `n` drains of a shard leave max(0, pairs − 1024·n) pairs queued |
| `RecentLog.RecentIsPrunedLog` | src/ip_tracker/admission.rs:27-38 | In every run whose window does not grow the recent table is the full log of admissions since the last clear, minus entries outside the window for good |
| `RecentLog.PruningIsUnobservable` | src/ip_tracker/snapshot.rs:153-175 | While the window does not grow, a recent-address query answers as the full unpruned log would, whenever pruning and compaction ran |
| `FreshAdmissions.Remembered` | src/ip_tracker/admission.rs:54-57 | An admission stays on record as long as it is inside the window, whatever calls but a clear come after |
| `FreshAdmissions.WindowLimitHolds` | src/ip_tracker/admission.rs:86-103 | In TimeWindow and Combined mode every closed interval as long as the window holds at most `limit` fresh admissions of a user |
| `DeferredRelease.CallAgrees` | src/ip_tracker/cleanup.rs:61-89 | One call on two trackers that agree gives the same answer and leaves them agreeing, one of them deferring its releases |
| `DeferredRelease.DeferralIsInvisible` | src/ip_tracker/admission.rs:154-172 | Queueing every release instead changes no answer in any run that meets no cap and whose window does not grow, over-releases and clears included |
| `WindowGrowth.GrowingIsVisible` | src/ip_tracker/snapshot.rs:4-28 | For every longer window there are calls on a new tracker, with both clocks in step, whose answer changes when the release is queued |
| `WindowGrowth.DeferralHarmlessIff` | src/ip_tracker/admission.rs:154-155 | Queueing is harmless for all runs of a new tracker, with clocks in step, that switch the window once exactly when the new window is not longer |
| `AdmissionAnswers.LimitAnswer` | src/ip_tracker/admission.rs:86-104 | In every state a call is answered with the limit, the user's addresses that are owed a session and those seen within the window exactly when the address is owed none, that limit is in force, and the mode's count of addresses has reached it |
| `AdmissionAnswers.OtherAnswers` | src/ip_tracker/admission.rs:59-152 | In every other case the answer is the session cap at 131072 entries for an address without a session, else the log cap at 262144 for an address not seen within the window, else admission |
| `AdmissionAnswers.InitialIsNew` | src/ip_tracker.rs:85-118 | A tracker just made is empty, bounds nobody and has a window of thirty seconds |
| `AdmissionAnswers.ClearedIsNew` | src/ip_tracker/snapshot.rs:244-262 | A tracker that was cleared is as empty as a new one, queue included |
| `AdmissionAnswers.HeldIsOwed` | src/ip_tracker/admission.rs:154-172 | In every run of a new tracker the sessions a pair is owed are the admissions minus the releases, immediate or queued, since the last clear |
| `AdmissionAnswers.PolicyIsSet` | src/ip_tracker/admission.rs:4-25 | Limits, mode and window are those the calls so far have set |
| `AdmissionAnswers.TurnedAwayIff` | src/ip_tracker/admission.rs:40-104 | In every run of a new tracker whose window does not grow, a call that meets no cap is turned away exactly when, by the calls before it, the address holds no session, a positive limit is in force, and as many addresses hold one or were admitted within the window, as the mode has it; otherwise it is admitted |
| `AdmissionAnswers.FirstAddressesAdmitted` | src/ip_tracker/admission.rs:86-152 | On a new tracker a user who has asked from no more addresses than the limit is admitted in every mode, after any calls of any users up to the number of entries there is room for |
| `AdmissionAnswers.NoLimitAdmits` | src/ip_tracker.rs:146-155 | So is a user for whom no positive limit is in force |
| `RecentLog.MaintenanceForgets` | src/ip_tracker/snapshot.rs:4-46 | A maintenance call forgets exactly what has left the window, if sixty seconds of wall clock have passed since the last compaction by any call, and else nothing |
| `InterleavedCounters.MoveKeepsInv` | src/ip_tracker.rs:157-201 | Every atomic step keeps both counters and the gauge equal to entries plus reservations plus removals not yet subtracted |
| `InterleavedCounters.CountersExact` | src/ip_tracker/admission.rs:40-172 | In every reachable state each counter is the entries of all shards plus what threads owe, and entries never exceed 131072 and 262144 |
| `InterleavedCounters.ExactWhenUnlocked` | src/ip_tracker/cleanup.rs:79-88 | Whenever no shard lock is held the counters are the numbers of entries |
| `InterleavedCounters.NeverSaturates` | src/ip_tracker.rs:157-165 | No subtraction from a counter or the gauge ever saturates or wraps |
| `InterleavedCounters.GaugeZeroMeansEmpty` | src/ip_tracker/cleanup.rs:53-54 | The gauge reads zero only when nothing is queued, so the early return skips no release |
| `InterleavedSessions.SessionsAccounted` | src/ip_tracker/cleanup.rs:5-147 | When sessions are released at most once, every count is live sessions plus queued plus drained but unapplied releases, in every interleaving |
| `InterleavedSessions.LiveStaysActive` | src/ip_tracker.rs:167-193 | An address with a live session is never dropped |
| `InterleavedLimit.ActiveWithinLimit` | src/ip_tracker/admission.rs:88-104 | A constant limit bounds a user's active addresses in every reachable state, in ActiveWindow and Combined mode |
| `InterleavedLimit.LiveWithinLimit` | src/ip_tracker/admission.rs:59-152 | Distinct live addresses of a user never exceed a constant limit, whatever the interleaving |
| `InterleavedWindow.Remembered` | src/ip_tracker/admission.rs:46-57 | In every interleaving an admission stays on record until its time plus the window has come, less the longest wait between reading the clock and inserting |
| `InterleavedWindow.NotOnRecord` | src/ip_tracker/admission.rs:86-104 | In TimeWindow and Combined mode a fresh admission finds its address not on record and fewer than `limit` addresses that are |
| `InterleavedWindow.LaggedLimitHolds` | src/ip_tracker/admission.rs:46-152 | Every closed interval shorter than the window by that wait holds at most `limit` fresh admissions, whatever the interleaving |
| `InterleavedCalls.UndisturbedAdmission` | src/ip_tracker/admission.rs:59-152 | Under the lock, with nobody else at the counters, the steps of an admission can all be taken exactly when the flat specification admits, and make the entries it makes |
| `WindowLag.LimitHoldsIff` | src/ip_tracker/admission.rs:46-49 | The limit holds for intervals of a length, for every limit and interleaving, exactly when length and longest wait together fit into the window |
| `TomlEdits.FindTomlTableBounds` | src/api/config_store.rs:275-293 | The offsets are those of the first matching header line and of the next header line or the end |
| `TomlEdits.UpsertTomlTable` | src/api/config_store.rs:255-273 | Splicing by offsets replaces exactly the lines of the table; a missing table is appended after a blank line |
| `TomlEdits.SeparatedLocates` | src/api/config_store.rs:264-270 | The blank line before an appended table changes no table but the last, whose text grows by one or two newlines |
| `TomlEdits.UpsertLocates` | src/api/config_store.rs:255-293 | After an upsert of a well-formed table, locating it gives exactly that text |
| `TomlEdits.UpsertKeepsOthers` | src/api/config_store.rs:255-293 | Every other table keeps its text and place among the tables; only an append pads the last one |
| `TomlEdits.UpsertOverwrites` | src/api/config_store.rs:255-293 | A second upsert of a table gives what it would have given alone, so upserting is idempotent |
| `TomlTexts.TrimIs` | src/api/config_store.rs:281-282 | A trimmed line is the line between white space and neither begins nor ends with any |
| `TomlTexts.ReplacedText` | src/api/config_store.rs:255-262 | A table that is there is cut out of the text and the new one put in its place, before it no other table of that name, and all else stays character by character |
| `TomlTexts.AppendedText` | src/api/config_store.rs:264-272 | A table that is not there is appended to the text as it is, after one newline, or two if the text does not end in one, or none if it is empty |
| `ConfigSave.NamesDiffer` | src/api/config_store.rs:26-39 | The eight sections have eight different tables |
| `ConfigSave.RenderedWellFormed` | src/api/config_store.rs:205-213 | A rendered section is a well-formed table exactly when none of its rows reads as a header |
| `ConfigSave.SaveAccessSections` | src/api/config_store.rs:100-127 | The loop with its list of applied sections computes the save that the lemmas below are about |
| `ConfigSave.SaveShows` | src/api/config_store.rs:108-122 | Whatever the order and repetitions, every requested section ends up as its rendering, at most one blank line longer, or is absent and empty |
| `ConfigSave.SaveKeepsOthers` | src/api/config_store.rs:108-122 | A table that was not requested keeps its text, up to newlines after the last one |
| `ConfigSave.SaveFailsIff` | src/api/config_store.rs:112-119 | A save fails exactly when a requested section that must be written does not render |
| `ConfigSave.SaveFinds` | src/api/config_store.rs:112-117 | After a save a section has a table exactly when it had one before, or was requested and has rows |
| `AccessNames.ValidUsernames` | src/api/model.rs:611-617 | A name is accepted exactly if it is one to sixty-four letters, digits, underscores, dots and hyphens |
| `AccessNames.ValidSecrets` | src/api/model.rs:603-605 | A secret is accepted exactly if it is thirty-two hexadecimal digits |
| `AccessEdits.EditKeepsKeyed` | src/api/users.rs:517-539 | Every mutation keeps at least one user and keeps every row keyed by an existing user |
| `AccessEdits.EditTouchesChanges` | src/api/users.rs:122-143 | The list of sections to write names every section the mutation changes |
| `AccessTouches.TouchesExactly` | src/api/users.rs:122-143 | Creating, patching and switching write exactly the sections that the request changes in some tables |
| `AccessTouches.TouchedIs` | src/api/users.rs:421-430 | The sections to write depend on the request alone; rotating and deleting write all eight |
| `AccessEdits.EditDisables` | src/api/users.rs:325-333 | Only users who are switched off keep a row that says so |
| `AccessEdits.EditLimit` | src/api/users.rs:312-324 | What is passed on to the tracker is what happened to the persisted limit |
| `AccessEdits.EditLeavesUser` | src/api/users.rs:524-530 | A mutation that goes through leaves a user, whatever the tables were before |
| `AccessFiles.LoadsIff` | src/config/load.rs:1649-1655 | A file loads as given tables exactly when every section, read from all blocks with a say in it, gives their rows, default users included, no rate row is zero in both directions and every secret has its form |
| `AccessFiles.SectionIsField` | src/config/types.rs:1897-1935 | The API writes every section under the header from which the loader fills the table the section's rows come from |
| `AccessFiles.FieldHasSection` | src/api/config_store.rs:26-39 | For each of the eight tables of the loader there is a section with its header |
| `AccessFiles.IncludeIff` | src/config/load.rs:917-926 | A line is taken for an include directive exactly when, trimmed, it is the word, white space, an equals sign and anything |
| `AccessFiles.IncludeWithHeader` | src/config/load.rs:917-926 | A rendered table has a line the loader takes for an include directive exactly when its rows have one |
| `AccessFiles.LoadedInRange` | src/config/load.rs:1117-1118 | No number of a file that loads exceeds the signed 64 bits of a TOML value |
| `AccessFiles.WrittenReads` | src/api/config_store.rs:233-253 | A written table reads back as its rows exactly when no row is named `include`, every number fits, no rate key is cut off at ` = ` and no other block has a say; otherwise it does not read, save that sub-tables may add rates |
| `TomlBlocks.ReplacedBlocks` | src/api/config_store.rs:255-262 | Replacing a table exchanges that one block of the file |
| `TomlBlocks.AppendedBlocks` | src/api/config_store.rs:264-272 | Appending a table adds one block after those of the separated text |
| `TomlBlocks.AddedNewlineBlocks` | src/api/config_store.rs:265-270 | A newline at the end goes to the last block and makes no new one |
| `AccessSaves.UpsertReadsOther` | src/api/config_store.rs:255-293 | Writing one section changes neither what another reads as nor how many blocks have a say in it, whatever their style |
| `AccessSaves.UpsertReadsOwn` | src/api/config_store.rs:255-293 | The table written is among the blocks with a say in its section, and the only one exactly when nothing but the table the scan finds had one before |
| `AccessSaves.SavedSection` | src/api/config_store.rs:108-122 | Whatever the order and repetitions, a requested section reads as before if it was skipped, and else as the written rows exactly when it is alone and readable |
| `AccessSaves.SaveReadsOthers` | src/api/config_store.rs:108-122 | A section that was not requested reads as before |
| `AccessSaves.SavedIff` | src/api/config_store.rs:100-127 | For every file: writing only the changed sections leaves a file that loads as the whole new configuration exactly when every rate row limits a direction and each section either was skipped with nothing to change or is alone and readable |
| `AccessSaves.SavedLoads` | src/api/config_store.rs:100-127 | If every section is alone, the file loads as the new configuration or not at all |
| `AccessSaves.StraySaved` | src/api/config_store.rs:275-293 | Writing a section, other than rates, that something the scan does not find has a say in leaves a file that does not load |
| `AccessSaves.StaysClean` | src/api/config_store.rs:100-127 | If nothing but the tables the scan finds has a say in any section, that is so after a save |
| `AccessHeaders.FieldIsSaved` | src/api/config_store.rs:129-214 | After a save every table of the configuration that it changed is under the literal header the loader fills it from: the header in brackets, then the table's rows and newlines, or nothing if it has no rows |
| `AccessHeaders.CallWritesFields` | src/api/users.rs:335-374 | So after every call that goes through, for every table it changes |
| `AccessHeaders.QuotaIsWritten` | src/config/types.rs:1921 | A quota set by a patch stands under `[access.user_data_quota]` |
| `AccessReplies.DoneIsCurrent` | src/api/config_store.rs:50-66 | A call that goes through was made without a revision or with that of the text there is |
| `AccessReplies.StaleConflicts` | src/api/config_store.rs:50-66 | An acceptable call with another revision on a file that loads is a conflict and changes nothing |
| `AccessReplies.NoLostUpdate` | src/api/users.rs:65-66 | In any run two calls that expect one revision both go through only if the text before the second is the one before the first again, provided the hash tells the two texts apart |
| `AccessReplies.PutBack` | src/api/users.rs:65-66 | If the first of them changed the text, a call in between that went through put it back |
| `AccessReplies.DoneIff` | src/api/users.rs:23-154 | A call goes through exactly when the request is acceptable, the file readable and loadable, the revision current, the user new or there and not the last to be deleted, the tables valid, every section to be written renders and the file can be written |
| `AccessReplies.FailuresIff` | src/api/users.rs:508-530 | When exactly each of the four specific failures is the answer |
| `AccessReplies.BadRequestIff` | src/api/users.rs:335-337 | A bad request is one that was not acceptable or whose tables are not valid |
| `AccessReplies.InternalIff` | src/api/config_store.rs:100-127 | An internal error is a file that cannot be read, does not load or cannot be written |
| `AccessReplies.ExpirationIsParsed` | src/api/users.rs:63-93 | An expiration in a call that goes through is a date, and that date ends up in the tables |
| `AccessRuns.EditRates` | src/api/users.rs:99-107 | Only creating a user with a rate given and all given rates zero brings in a row without a limit in either direction; a patch removes such a row |
| `AccessRuns.EditReadable` | src/api/users.rs:285-309 | From names that can be written back, all sections a mutation writes can be read back exactly when its request gives no number above 2^63 - 1 and does not create `include` |
| `AccessRuns.StepLoadsIff` | src/api/users.rs:65-146 | For every file: after a call that goes through it loads as the edited tables exactly when the request is not for zero rates only and every section written lands, by a condition on the file, the tables and the request |
| `AccessRuns.StepLoads` | src/api/users.rs:65-146 | A clean file loads after a call that goes through as the edited tables or not at all, by a condition on the request and the tables before it, and stays clean |
| `AccessFailures.ZeroRateBreaks` | src/api/users.rs:99-107 | Creating a user with an upload limit of zero goes through, and after it every call fails |
| `AccessFailures.IncludeUserBreaks` | src/api/model.rs:611-617 | So does creating a user named `include`, a name that passes the check |
| `AccessFailures.BigRateBreaks` | src/api/config_store.rs:233-243 | So does creating a user with an upload limit of 2^63, which is written as it is |
| `AccessFailures.BigPatchBreaks` | src/api/users.rs:285-309 | So does patching a user to that limit |
| `AccessFailures.StrayUsersBreak` | src/api/config_store.rs:275-293 | So does creating any user in a file where something other than the table the scan finds has a say in the users |
| `AccessFailures.CommentedHeaderBreaks` | src/api/config_store.rs:285-289 | Such a file is one whose users stand under `[access.users] # staff` |
| `AccessExample.CreatedInEmptyFile` | src/api/users.rs:65-146 | For one reader and writer that meet all that is assumed of TOML, a user is created in the empty file and the file loads as the default user and the new one |
| `AccessRuns.LoadsExactly` | src/config/load.rs:1117-1118 | After any calls, from a file in order, the file is in order if none of them that went through was harmful, and else does not load; harmful is to create `include` or a user with only zero rates, and to create or patch with a number above 2^63 - 1 |
| `AccessRuns.AlwaysInStep` | src/api/users.rs:23-557 | As long as no harmful call goes through, loading the file gives exactly the tables the mutations made one after another |
| `AccessRuns.AlwaysAgree` | src/api/users.rs:370-374 | After any calls on a clean file the tracker has the per-user limits that loading the file gives |
| `AccessRuns.AlwaysKeyed` | src/api/users.rs:517-539 | After any calls on a clean file there is a user and every row belongs to one, if that was so at the start |
| `AccessRuns.DeletedIsForgotten` | src/api/users.rs:556-557 | After a deletion the tracker has no address of the user |
| `AccessEdits.PatchesCompose` | src/api/users.rs:242-333 | One patch after another is the patch taking each field from the later one that sets it, the joint rate-limit row included |
| `AccessEdits.PatchTwiceIsOnce` | src/api/patch.rs:5-16 | Every patch is idempotent |
| `UserProfiles.EditProfile` | src/api/users.rs:242-336 | The user ends up with exactly the settings asked for; a patch is a JSON Merge Patch (section 2 of RFC 7396) of what they had |
| `UserProfiles.EditOthers` | src/api/users.rs:76-117 | Every other user keeps all settings |
| `UserProfiles.DeleteUndoesCreate` | src/api/users.rs:532-539 | Creating a user and deleting them again restores all eight tables |
| `UserStore.PatchRate` | src/api/users.rs:285-309 | The row of both directions is updated together and removed when both are zero |
| `UserStore.UserStore.Commit` | src/api/users.rs:335-374 | Validation, the write and the tracker update happen in this order, and a failure changes nothing |
| `UserStore.UserStore.CreateUser` | src/api/users.rs:23-154 | Loading, row-by-row inserts, the list of sections and the write give the state and reply of the specified step, for every check that can fail |
| `UserStore.UserStore.PatchUser` | src/api/users.rs:199-374 | Loading, row-by-row patches, the joint rate row, the list of sections and the write give the state and reply of the specified step |
| `UserStore.UserStore.RotateSecret` | src/api/users.rs:393-433 | Loading, the new secret and the write of all sections give the state and reply of the specified step |
| `UserStore.UserStore.SetUserEnabled` | src/api/users.rs:459-488 | Loading, the change of one row and the write of its section give the state and reply of the specified step |
| `UserStore.UserStore.DeleteUser` | src/api/users.rs:508-557 | Loading, removal from all tables, the write and the clearing of the tracker give the state and reply of the specified step; the last user is not deleted |
| `Cbc.XorBlocks` | src/crypto/aes.rs:155-161 | The loop computes the bitwise exclusive or |
| `Cbc.Encrypt` | src/crypto/aes.rs:166-193 | Aligned data gives the ciphertext whose every block satisfies the CBC equation; other data gives an error |
| `Cbc.Decrypt` | src/crypto/aes.rs:198-225 | Aligned data gives the plaintext whose every block satisfies the inverse equation; other data gives an error |
| `Cbc.EncryptInPlace` | src/crypto/aes.rs:228-259 | The buffer ends up as the encryption of what it held, or untouched with an error |
| `Cbc.DecryptInPlace` | src/crypto/aes.rs:262-295 | The buffer ends up as the decryption of what it held, or untouched with an error |
| `Cbc.EncryptionIsUnique` | src/crypto/aes.rs:228-259 | The CBC equation has one solution, so the in-place and the allocating loop give the same bytes |
| `Cbc.DecryptionIsUnique` | src/crypto/aes.rs:262-295 | The same for decryption |
| `Cbc.EncryptedIffDecrypted` | src/crypto/aes.rs:163-198 | Over a permutation, data encrypts to a text exactly when the text decrypts to the data |
| `Cbc.DecryptUndoesEncrypt` | src/crypto/aes.rs:198-225 | Decrypting an encryption gives the data back |
| `Cbc.EncryptUndoesDecrypt` | src/crypto/aes.rs:166-193 | Encrypting a decryption gives the text back |
| `CbcLaws.EncryptedChains` | src/crypto/aes.rs:182-190 | Two parts of a message are encrypted together exactly when the first is and the second is from the last ciphertext block of the first |
| `CbcLaws.DecryptedChains` | src/crypto/aes.rs:214-222 | The same of decryption, for any cipher |
| `CbcLaws.OneBlockEncrypted` | src/crypto/aes.rs:155-188 | One block is the cipher applied to the byte-wise exclusive or of block and initialisation vector |
| `CbcLaws.OneBlockDecrypted` | src/crypto/aes.rs:216-220 | One block is the byte-wise exclusive or of the deciphered block and the initialisation vector |
| `CbcLaws.SecondBlock` | src/crypto/aes.rs:184-188 | The second of two equal blocks is mixed with the first ciphertext block |
| `SecureRandom.SecureRandom.Serve` | src/crypto/random.rs:64-87 | One turn of the loop serves at least one byte, the next ones of the stream |
| `SecureRandom.SecureRandom.FillLoop` | src/crypto/random.rs:62-88 | The caller's buffer holds the next bytes of the stream, as many as it is long |
| `SecureRandom.SecureRandom.Fill` | src/crypto/random.rs:58-89 | What all calls served so far, put together, stays the stream from its start |
| `SecureRandom.ServedIsPrefix` | src/crypto/random.rs:58-89 | After any calls of any sizes their outputs together are a prefix of the chunks drawn, and less than one chunk is unused |
| `SecureRandom.StreamIsChunks` | src/crypto/random.rs:70-76 | Positions in the stream are positions in the concatenated chunks |
| `Shuffling.ShuffleInPlace` | src/crypto/random.rs:141-147 | The loop of swaps computes the recursive shuffle |
| `Shuffling.ShuffleKeeps` | src/crypto/random.rs:141-147 | Every sequence of choices gives a permutation |
| `Shuffling.ShuffleInjective` | src/crypto/random.rs:141-147 | On distinct elements different choices give different orders |
| `Shuffling.ChoicesWork` | src/crypto/random.rs:141-147 | Every order comes from some choices |
| `Shuffling.OneSwap` | src/crypto/random.rs:143-145 | If only one place is given another choice than itself, it and its choice change places and nothing else moves |
| `Shuffling.ShuffleIsBijection` | src/crypto/random.rs:141-147 | On distinct elements every order comes from exactly one sequence of choices, and nothing but orders comes out |
| `ConntrackLoop.Controller.constructor` | src/conntrack_control.rs:101-113 | The loop starts without pressure, with a full budget and both flags down |
| `ConntrackLoop.Controller.ChangeConfig` | src/conntrack_control.rs:122-126 | A new configuration refills the budget and republishes the flags |
| `ConntrackLoop.Controller.HandleClose` | src/conntrack_control.rs:133-160 | A delete is attempted exactly under pressure, for a forced close, with budget left |
| `ConntrackLoop.Controller.CollectPressureSample` | src/conntrack_control.rs:216-247 | Percentages and saturating growth of the two counters since the last tick |
| `ConntrackLoop.Controller.UpdatePressureState` | src/conntrack_control.rs:249-309 | Activation, hysteresis and deactivation with the flags that go with them |
| `ConntrackLoop.Controller.HandleTick` | src/conntrack_control.rs:163-173 | A tick refills the budget, samples and updates |
| `ConntrackLoop.Controller.Run` | src/conntrack_control.rs:116-184 | The loop over any events does what the state machine does, and lowers the flags when it ends |
| `ConntrackRuns.AlwaysFlagsOk` | src/conntrack_control.rs:186-214 | After any events both flags say running, enabled and active; the low streak is below 3, and 0 without pressure |
| `ConntrackRuns.DeletesUnderPressure` | src/conntrack_control.rs:134-146 | After any events a delete is attempted only with both flags up and budget left |
| `ConntrackRuns.AttemptsWithinBudget` | src/conntrack_control.rs:143-160 | Attempts and remaining tokens together never exceed the budget handed out, whatever the configurations |
| `ConntrackRuns.AttemptsBounded` | src/conntrack_control.rs:143-163 | With a constant budget attempts are at most the budget times one plus the refills |
| `ConntrackRuns.AttemptsHaveOutcomes` | src/conntrack_control.rs:146-160 | Every attempt is counted under exactly one outcome |
| `ConntrackRuns.ConnPctExact` | src/conntrack_control.rs:222-229 | The connection percentage is exact up to 100 even where the multiplication saturates |
| `ConntrackRuns.DeltasAddUp` | src/conntrack_control.rs:233-239 | The growth seen by the ticks sums to the growth of the counter exactly when the counter never went back |
| `ConntrackPressure.PressureExactly` | src/conntrack_control.rs:249-309 | After any events the flags are up exactly when enabled and some tick hit the high mark since when all ticks were enabled and no three in a row were low and clear |
| `ConntrackPressure.ReleaseExactly` | src/conntrack_control.rs:295-306 | While enabled, a tick ends pressure exactly when it is the third low and clear one in a row since activation |
| `ConntrackPressure.CrossedMarksFail` | src/conntrack_control.rs:280-306 | With the low mark not below the high one, four ticks end the pressure that the last of them should start |
| `ConntrackPressure.ToldByTicksIff` | src/config/load.rs:1967-1968 | Under one enabled configuration pressure is told by the ticks for all events exactly when the low mark is below the high one, which loading demands |
| `ConntrackHistory.AlwaysKnows` | src/conntrack_control.rs:116-126 | While no channel is closed the controller has the configuration given last, the feature on exactly if that asks for it and the system supports all it needs, and the totals of the last tick |
| `ConntrackHistory.JudgeSays` | src/conntrack_control.rs:216-283 | A tick is high or clear by the connections' exact share, the descriptors and the growth since the tick before, with no rounding or saturation |
| `ConntrackHistory.FlagsFromEvents` | src/conntrack_control.rs:249-309 | After any events both flags are up exactly when the events alone say so: no channel closed, the feature on, a tick high since when none was off and no three in a row clear |
| `ConntrackAttempts.StretchExactly` | src/conntrack_control.rs:128-161 | Over any stretch of closes, with the flags up at its start, attempts grow by the smaller of the tokens and the closes by timeout, pressure or reset, with the outcomes of the first of these; with the flags down nothing changes |
| `ConntrackAttempts.RefillIsFull` | src/conntrack_control.rs:122-163 | A tick and a change of configuration start the next stretch with the full budget and attempt nothing |
| `ConntrackAttempts.AttemptsExactly` | src/conntrack_control.rs:116-178 | After any events the four counters count exactly the deletes that the stretches between refills lead to, each up to the budget in force at its start |
| `CanonicalJson.Canonicalize` | src/config/hot_reload.rs:269-289 | The recursion ends and computes the canonical form |
| `CanonicalJson.CanonTwice` | src/config/hot_reload.rs:269-289 | Canonicalising is idempotent |
| `CanonicalJson.CanonIsSame` | src/config/hot_reload.rs:269-289 | Canonicalising changes a value only in the order of its keys |
| `CanonicalJson.EqualIffSame` | src/config/hot_reload.rs:291-303 | Canonical forms of values with distinct keys are equal exactly when the values are equal up to key order at every depth |
| `CanonicalJson.ConfigEqual` | src/config/hot_reload.rs:291-303 | Two configurations compare equal exactly when both serialize, to values equal up to key order |

## Left out

- Integer widths of counts: session counts, entry counters and limits are unbounded; the source's `usize`/`u64` additions saturate far above the caps.
- Mutex poisoning, memory orderings and the test probes of the tracker: the recovery arms repeat the normal ones.
- Concurrent `clear_all`: it is a step taken while no other call is under way, because the source stores zeros without holding all locks.
- The order of steps inside one critical section of the interleaved model: a thread holding a shard lock may take the modelled steps in any order, which allows more behaviours than the code has.
- Parts of the tracker that only count or list: reject counters, `memory_stats` and active-address queries.
- The compare-and-swap of the compaction timestamp: in the interleaved model compaction may run at any time.
- Update in place inside a shard: the nested maps of the tracker are values that the methods reassign.
- Byte offsets in the configuration text: positions count characters, which differ from bytes only by an encoding.
- DeferredRelease.DeferralIsInvisible: runs that meet a global cap are excluded, because a queued release frees its entry later than an immediate one.
- TOML serialisation, the reading of tables, `validate`, RFC 3339 parsing and the SHA-256 revision: parameters of the model. Lines inside a multi-line string or array that start with `[` count as headers, as they do for the source's scan, and a file that ends in a lone carriage return is not told apart from one that does not.
- Loading of the rest of the file: it is taken to load, since mutations do not touch it. More than 2^32 users, which the loader also refuses, are not modelled.
- Include directives: a table with one counts as unloadable, because the file it would name, a secret or a number, is taken not to exist; sections kept in included files are outside the model.
- AccessRuns.LoadsExactly: starts from a file in order, which the empty file is; for the others `StepLoadsIff` says call by call whether the file loads as it should.
- AdmissionAnswers.TurnedAwayIff: runs in which the window grows are excluded, because pruned admissions do not come back; `LimitAnswer` covers every state.
- AccessReplies.NoLostUpdate: SHA-256 is a parameter, so that it tells the two texts apart is a condition.
- AccessRuns.AlwaysAgree: starts from a clean file, because in another the API may leave a row in place that it means to remove.
- AccessSaves.StraySaved: leaves out the rates, whose sub-tables may add rows to a written table instead of clashing with it; `SavedIff` says that the file then does not load as it should.
- The tracker's limits after concurrent mutations: the source updates them after it has released the mutation lock, so the agreement is stated for calls made one after another.
- ConntrackPressure.PressureExactly: configurations with the low mark not below the high one are excluded; loading refuses them, and `ToldByTicksIff` shows that they have to be.
- Responses, links and user listings built after a mutation.
- AES, CTR mode, key lengths and zeroising; the quality of the random numbers.
- `nft`, `iptables` and `conntrack` commands, capability probing, rule reconciliation, the relay-pressure note and the event queue depth.
- The field-by-field hot overlay, file watchers and change logging of hot reload.
- HTTP routing, statistics, startup, quota files, and the panel, bot and scripts.
