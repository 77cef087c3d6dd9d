# Grasshopper: verified model

This project models the parts of Grasshopper where state, order and time interact, and proves what they promise:

- the revisioned memory store: writes, corrections, restores, archives and moves over rows, history, receipts and full-text words (`Records`, `StoreSpec`, `StoreInvariant`, `StoreSafety`, `ArchiveAndMove`, `StoreEffects`, `StoreRuns`, `MoveWitness`), which calls it accepts and what it answers to each of the others (`StoreAnswers`, `MoveAnswers`), what the owner's actions send and do (`OwnerActions`, `OwnerEffects`), with the writer itself as a class that changes its tables statement by statement (`Writer`);
- what agents load at startup and what the owner's preview says about it (`Lists`, `Startup`, `StartupReader`), with small lemmas on sets and strings in `Sets` and `Text`;
- search ranking (`Ranking`), the owner's paged list (`OwnerPages`, `PagerSpec`, `OwnerPager`), device pairing and tokens (`PairingSpec`, `PairingAnswers`, `Pairing`), the audit throttle (`AuditThrottle`, `AuditCounts`), the inference gate (`InferenceGate`);
- server upgrades and rollbacks with a crash possible at every step (`Decimal`, `Versions`, `Cutover`, `UpgradeAnswers`, `Upgrader`), and the Cursor hook command (`HookCommand`).

Operations that change state are methods proved equal to a function on values, or for the pager, whose evictions may go in any order, to be steps of a relation; the theorems are about those and about runs of them. Check everything with `dafny verify dfyconfig.toml`.

How the model reads the program:

- Digests, `Scope.Key` and the JSON and base64 encodings are one-to-one, so a fingerprint is the payload, a scope is its own key, and a snapshot key is what it digests.
- A transaction commits all of its changes or none. The two unique indexes and the request primary key are explicit checks after each statement; that they never refuse anything is proved (`StoreRuns.ApplyKeeps`).
- Clock readings, vectors, encoded sizes, health outcomes, random ids and database failures are parameters. Times are integers; each locked call reads its clock when it takes the lock.
- Strings are sequences of code points with their UTF-8 byte length. Similarities and scores are reals.

Where the code does less than its comments say:

- The comment on `Move` promises a copy and an archived original. A first success always archives the original (`ArchiveAndMove.MoveArchives`), but makes a fresh copy exactly when the request ID it derives for the copy is unused (`ArchiveAndMove.MoveExact`, and over runs `StoreRuns.MoveInRuns`); when it is used, the row it belongs to is left as it was (`ArchiveAndMove.MoveLeaves`), and `MoveWitness.MoveCanLoseTheMemory` is a run in which a move succeeds and no active copy remains.
- The comment on `cutover` says a crash in the middle still leaves rollback aimed at the old archive. It does, but that rollback, or any cutover that does not start from the last healthy archive, itself passes a state that names the last healthy archive nowhere (`Cutover.CutoverCrashSafe`, `Cutover.RollbackAfterCrash`). So does the next upgrade after such a crash (`Cutover.UpgradeAfterCrash`); `Cutover.UpgradeCrashSafe` gives the exact condition for every start, and `Cutover.RunCrashSafe` for whole runs. As long as nothing crashes the condition is met (`Cutover.CrashlessSafe`).
- An upgrade that downloads over the very folder the service runs from, possible only when that folder reports another version than its name, has an unsafe instant (`Cutover.SettledUpgradeSafe`; `Cutover.ReplacesItsOwnFolder` is such a service).
- An owner's edit carries the live tags and type, so its retry is rebuilt and replayed only while those are unchanged, and is refused as a conflict once they are not (`OwnerActions.EditRetry`).
- In the Windows form a hook command for a path ending in a backslash does not read back (`HookCommand.RoundTrip`).

## Model

| member | source | states |
|---|---|---|
| Writer.Writer.Write | internal/memory/writer.go:303-350 | the in-place write, with rollback on any refusal, is the specified one, keeps the whole invariant, loses nothing and is never refused by a constraint |
| Writer.Writer.WriteTx | internal/memory/writer.go:354-547 | the transaction body: replay, plan, statements and acknowledgement in the source's order |
| Writer.Writer.Compose | internal/memory/writer.go:393-476 | title, tags, type and purpose reassigned in turn come to the rule that a chosen title stays, a derived one follows the text, a cleared one is derived again, and a restore wins |
| Writer.Writer.Archive | internal/memory/writer.go:643-663 | the in-place archive is the specified one, keeps the invariant and is never refused by a constraint |
| Writer.Writer.ArchiveTx | internal/memory/writer.go:667-729 | the archive's statements, including the duplicate check only when unarchiving |
| Writer.Writer.Move | internal/memory/writer.go:749-841 | copy and archive in one transaction: both or neither, keeping the invariant |
| Writer.Writer.RetireHandoffs | internal/memory/writer.go:567-615 | the loop over other active handoffs archives each with its two snapshots |
| Writer.Writer.Snapshot | internal/memory/writer.go:281-289 | insert-or-ignore of the present revision |
| Writer.Writer.constructor | internal/memory/init.go:35-64 | the empty database satisfies every rule |
| Text.FirstRunes | internal/memory/writer.go:627-638 | the counting loop returns the first runes, or the whole value when it is short |
| StoreSpec.Select | internal/memory/writer.go:567-583 | a query returns exactly the matching ids, in order |
| StoreInvariant.ReviseHistory | internal/memory/writer.go:281-289 | insert-or-ignore never hides a differing entry: the old revision is recorded already, the new one is not |
| StoreInvariant.ReviseKeepsHistory | internal/memory/writer.go:486-498 | revising a row keeps its history gap-free, ending in the live row, with scope, key and creation time constant and confirmation never lost |
| StoreInvariant.NoDuplicateAccepted | internal/memory/writer.go:551-561 | the code's own duplicate and key checks leave room in both unique indexes |
| StoreInvariant.FewerActiveAccepted | internal/memory/init.go:61-62 | archiving a row can never collide in either unique index |
| StoreInvariant.RetireEachKeeps | internal/memory/writer.go:589-615 | retiring archives exactly the listed handoffs one revision later under the replacing note, and never fails |
| StoreSafety.SettleKeeps | internal/memory/writer.go:541-545 | after settling, a scope has one active handoff and every row that is not a retired handoff is untouched |
| StoreSafety.PlanSound | internal/memory/writer.go:360-481 | every accepted plan is a lawful insert or correction: well-formed, derivable blank title, confirmed kept, no exact duplicate |
| StoreSafety.WriteTxKeeps | internal/memory/writer.go:354-547 | a write transaction keeps the invariant, changes nothing when refused or replayed, and otherwise has exactly its stated effect |
| ArchiveAndMove.ArchiveTxKeeps | internal/memory/writer.go:667-729 | the same for archive and unarchive, including unarchiving a handoff |
| ArchiveAndMove.MoveTxKeeps | internal/memory/writer.go:764-841 | the same for a move, whose inner calls never take its own request ID |
| ArchiveAndMove.MoveArchives | internal/memory/writer.go:801-840 | a first successful move always archives the original one revision later with a note naming the copy; the archive half is never a replay |
| ArchiveAndMove.MoveExact | internal/memory/writer.go:743-841 | its copy is freshly recorded if and only if the request ID derived for the copy was not used before |
| ArchiveAndMove.MoveCarries | internal/memory/writer.go:801-840 | then the target holds an active record equal in content, title, tags, type, purpose, confirmation, provenance and key |
| ArchiveAndMove.MoveLeaves | internal/memory/writer.go:801-840 | fresh or replayed, the revision a successful move names is an exact copy in the target; its row is an active copy after the move if and only if the copy is fresh or that row was one before |
| ArchiveAndMove.CopyPlanExact | internal/memory/writer.go:413-427 | the exact title survives, blank or not, since a blank stored title is always the first 80 runes of its content |
| MoveWitness.MoveCanLoseTheMemory | internal/memory/writer.go:801-840 | a concrete run from the empty store in which a move succeeds and every row ends archived, the derived ID having been used |
| MoveWitness.FreshMove | internal/memory/writer.go:749-841 | the ordinary case: from a one-memory store, a move with the derived ID unused yields one fresh active copy and an archived original |
| StoreEffects.WriteEffect | internal/memory/writer.go:299-302 | a first write puts exactly the requested memory, or exactly the restored revision with its embedding, in one row under a revision never recorded before, and touches nothing else but the handoffs it replaces |
| StoreEffects.DuplicateEffect | internal/memory/writer.go:465-474 | a deduplicated write changes no row and names an active row already holding exactly the requested memory |
| StoreEffects.ArchiveEffect | internal/memory/writer.go:640-663 | an archive changes one row's visibility, author and time one revision later, its text and embedding staying |
| StoreEffects.ArchiveUndone | internal/memory/writer.go:665-729 | archive then unarchive restores every row but for the revision, time and author of the memory itself |
| StoreEffects.BasisStays | internal/memory/writer.go:360-369 | the row a call names by key is the same in every later state |
| StoreEffects.OneWinner | internal/memory/writer.go:380-383 | no lost update: of two writes, by id or key, archives or moves building on one revision, whatever runs in between, only the first can succeed |
| StoreAnswers.WriteAccepts | internal/memory/writer.go:303-547 | in any state that keeps the invariant, a first write succeeds if and only if it is well formed and either names a row that is at the expected revision, loses neither confirmation nor key and has the revision to restore, or names none and claims no revision; and the text it composes is within the limits and no other active memory is the same, or for a new one the same memory is there under the same key |
| StoreAnswers.WriteChecked | internal/memory/writer.go:303-350 | a write is refused before the tables are read exactly when it is not well formed, with the error for what is wrong |
| StoreAnswers.CorrectionRefused | internal/memory/writer.go:360-412 | for a call that names a row: the error for each condition on that row that fails, first things first |
| StoreAnswers.CorrectionAnswer | internal/memory/writer.go:413-481 | otherwise the row is corrected, or the call is refused for a limit, or for an active memory that is the same, which it names |
| StoreAnswers.InsertAnswer | internal/memory/writer.go:370-481 | a call that names no row is stored under the next id, answered with the same memory already there, or refused: for claiming a revision, for a limit, or for differing keys |
| StoreAnswers.ComposesOne | internal/memory/writer.go:393-476 | the rule for the composed text determines it: there is exactly one such text for every call |
| StoreAnswers.ArchiveAnswer | internal/memory/writer.go:643-729 | a first archive or unarchive succeeds exactly on the row it names at the expected revision, unless unarchiving would bring back a memory that is active elsewhere; the error for every other case |
| MoveAnswers.MoveRefused | internal/memory/writer.go:749-800 | the error for each condition on a move's input and source that fails, first things first |
| MoveAnswers.MoveOntoActive | internal/memory/writer.go:801-816 | where an active memory of the target has the source's key a move is refused and changes nothing |
| MoveAnswers.MoveOntoArchived | internal/memory/writer.go:801-827 | where an archived one has it, that row is revived one revision later, unless that would take its confirmation back or the same memory is active there otherwise, each with its error |
| MoveAnswers.MoveAfresh | internal/memory/writer.go:801-827 | where no row has it, the copy is a new row, unless the same memory is active there, with the error by whether the keys agree |
| MoveAnswers.MoveReplaysCopy | internal/memory/writer.go:801-841 | what a move answers when the request ID it derives for the copy was used: it goes on only from that very copy |
| MoveAnswers.MoveTouches | internal/memory/writer.go:749-841 | a first successful move with a fresh copy overwrites nothing active: its copy is a new row or was the archived holder of the key, and besides it and the source only handoffs replaced in the target change |
| StoreRuns.ApplyKeeps | internal/memory/init.go:61-62 | no call is ever refused by a unique index or primary key; a refused call changes nothing; a call loses no revision, receipt or row |
| StoreRuns.RunSafe | internal/memory/writer.go:303-841 | after any run from the empty store: gap-free histories ending in the live rows, three uniqueness rules, exact full-text words, receipts whose revisions are readable and as asked |
| StoreRuns.ReadsHistory | internal/memory/reader.go:330-359 | a revision is readable by id exactly from 1 to the live one and reads as recorded |
| StoreRuns.ReadForever | internal/memory/writer.go:244-289 | reading an id and revision gives the same record after any further calls |
| StoreRuns.RevisionsAgree | internal/memory/writer.go:384-389 | along revisions scope, key and creation time are constant and confirmation never reverts |
| StoreRuns.UsedRequest | internal/memory/writer.go:216-233 | a used request ID changes nothing: it replays its receipt exactly for the recorded payload and is refused for another |
| StoreRuns.OncePerRequest | internal/memory/writer.go:235-242 | over any run all successes with one request ID return one receipt, only the first changes state, and the revision it names stays readable and is what the request asked for |
| StoreRuns.MoveInRuns | internal/memory/writer.go:749-841 | in any run from the empty store a first successful move archives the original, names an exact copy in the target, and puts it there fresh and active exactly when no earlier call used the derived copy ID |
| StoreRuns.VersionGrows | internal/memory/owner_browse.go:104-110 | the count and sum of revisions never fall and the sum rises with every change of a row |
| StoreRuns.EqualVersionsSameRows | internal/memory/owner_browse.go:104-110 | two equal versions in a run mean identical rows, and conversely |
| OwnerActions.ConfirmRetry | internal/service/visualizer.go:342-363 | an identical confirm is rebuilt and replays in every later state exactly while the memory is not archived |
| OwnerActions.RestoreRetry | internal/service/visualizer.go:309-336 | an identical revision restore likewise |
| OwnerActions.EditRetry | internal/service/visualizer.go:337-363 | an identical edit is rebuilt and replays exactly while the memory is active with the same tags and type; rebuilt with others it is refused as a conflict and changes nothing |
| OwnerActions.ArchiveRetry | internal/service/visualizer.go:472-525 | an identical archive or unarchive is always rebuilt, author included, and replays |
| OwnerActions.MoveRetry | internal/service/visualizer.go:427-443 | an identical move is always rebuilt and replays |
| OwnerEffects.UpdateSent | internal/service/visualizer.go:292-357 | a confirm, edit or restore is sent exactly for an active memory, given the named revision, or an earlier one to restore; the refusal of each other case |
| OwnerEffects.ConfirmEffect | internal/service/visualizer.go:342-363 | through the writer a confirm confirms and changes nothing else: text, title, tags, type, purpose, key and author stay |
| OwnerEffects.ConfirmAnswer | internal/service/visualizer.go:342-363 | it goes through exactly when the memory is at that revision and no other active memory is the same and confirmed, with the error of either case |
| OwnerEffects.EditEffect | internal/service/visualizer.go:337-363 | an edit puts the owner's text in, confirmed and as the owner's, keeps tags, type and key, and derives a blank title |
| OwnerEffects.RestoreEffect | internal/service/visualizer.go:309-336 | a restore brings the old revision back whole, confirmed and as the owner's |
| OwnerEffects.OwnerArchiveEffect | internal/service/visualizer.go:484-515 | an archive or unarchive changes visibility alone and keeps the author; where the last revision only says who archived it, the author of the revision before |
| OwnerEffects.MoveSent | internal/service/visualizer.go:423-443 | a move is sent exactly for a recorded revision, with what was left out as the memory has it; the refusal of each other case |
| OwnerEffects.OwnerMoveEffect | internal/service/visualizer.go:427-470 | a move puts the memory where the owner chose, a device or platform left out kept, null cleared and a value set, and archives the original under a note |
| OwnerEffects.AuthorSurvivesMove | internal/service/visualizer.go:497-515 | a memory moved away and brought back by its owner is as before the move, its own author included |
| StartupReader.ApplicableKeys | internal/memory/reader.go:74-104 | the eight-mask loop lists each scope once and contains a stored scope exactly when each dimension is unset or the caller's |
| StartupReader.ChooseHandoff | internal/memory/reader.go:589-608 | the loop picks the first project handoff, or else the first handoff, and skips the others |
| Startup.SelectionSplits | internal/memory/reader.go:599-607 | every record is selected or skipped, and only handoffs are skipped |
| Startup.SelectionKeeps | internal/memory/reader.go:599-607 | choosing a handoff leaves the other records as they are, in order |
| Startup.SelectionHandoff | internal/memory/reader.go:586-608 | the selection holds the chosen handoff and no other |
| StartupReader.BoundRecords | internal/memory/reader.go:747-775 | the packing loop's page: records that fit in turn, everything else counted and the first hundred named |
| StartupReader.BalanceStartupScopes | internal/memory/reader.go:543-581 | the shrinking-slices loop produces the balanced order |
| StartupReader.BoundStartupRecords | internal/memory/reader.go:533-539 | list order when everything fits, balanced otherwise |
| StartupReader.Context | internal/memory/reader.go:294-300 | what an agent loads and all it is told was left out |
| Startup.BalancedShape | internal/memory/reader.go:541-581 | the balanced order is a permutation: each group's share is its zigzag, handoffs last |
| Startup.ZigzagNewest | internal/memory/reader.go:562-579 | closed form of a share: newest end at even places, oldest end at odd places |
| Startup.StartupFits | internal/memory/reader.go:533-539 | nothing is lost, the clamped budget is kept, and nothing is omitted exactly when all chosen records fit |
| Startup.HandoffsCrowdNothing | internal/memory/reader.go:541-581 | adding or removing handoffs never changes which other records of a list load |
| StartupReader.HandoffsCrowdNoContext | internal/memory/reader.go:294-300 | two stores that differ in handoffs only load the same other memories for an agent |
| Startup.NewestPairLoads | internal/memory/reader.go:541-581 | the newest global and newest project record of a list both load whenever the two fit together |
| StartupReader.NewestPairContext | internal/memory/reader.go:294-300 | an agent loads the newest eligible global and project memory of the store whenever the two fit together |
| Startup.PartitionIsQuery | internal/memory/reader.go:648-657 | partitioning the full list equals narrowing the query, order included |
| Lists.ListOrder | internal/memory/reader.go:728-732 | every list runs through preferences, decisions, lessons and handoffs to the rest, each from the newest to the oldest, with the later id first where two are as new |
| Startup.PackTakes | internal/memory/reader.go:747-775 | a record is taken exactly when its size and all taken before it are within the budget and the limit is not reached |
| Startup.LeftDoesNotFit | internal/memory/reader.go:763-770 | no record is left out that would still fit beside what is loaded, unless the limit is reached |
| Startup.AlternateTurns | internal/memory/reader.go:562-579 | in the balanced order the two shares take turns, the global one first, and the longer one goes on alone |
| StartupReader.ContextTells | internal/memory/reader.go:294-300 | an agent's eligible memories are each loaded or counted as omitted, and the first hundred omitted are named once each, none of them loaded |
| StartupReader.WholeContext | internal/memory/reader.go:533-539 | when all chosen memories fit an agent loads them all, by purpose and then newest first |
| StartupReader.StartupPreview | internal/memory/reader.go:637-688 | the preview's records, first hundred exclusions and exact count |
| StartupReader.PreviewAgrees | internal/memory/reader.go:637-688 | the preview loads what Context loads in the same order and lists every other active row in scope exactly once |
| StartupReader.ReasonsHold | internal/memory/reader.go:676-686 | each exclusion's reason is true: not confirmed; a handoff no older, or a project's over a global one, was loaded in its place; or it does not fit beside what is loaded |
| Ranking.StandoutInPlace | internal/memory/search.go:165-181 | compaction in place keeps exactly what the pure filter keeps |
| Ranking.StandoutsStandOut | internal/memory/search.go:15-28 | with five or more scanned: a prefix of the sorted hits, at most half of those scanned, non-empty exactly when the best hit clears the gap, and then exactly the hits at least two fifths of the way from the median to it |
| Ranking.HalfAboveMedian | internal/memory/search.go:166-171 | at most half of any scores lie above their median |
| Ranking.Scores | internal/memory/search.go:83-94 | the two accumulating loops give each memory the score of its two places |
| Ranking.Fuse | internal/memory/search.go:197-206 | the ranked list holds every memory of either list once, by score and then id |
| Ranking.Dominance | internal/memory/search.go:201-206 | a memory no worse in both lists and better in one comes earlier |
| Ranking.MeaningWeighsMore | internal/memory/search.go:83-94 | at the same place in one list only, a memory found by meaning comes before one found by words |
| Ranking.AgreementWins | internal/memory/search.go:83-94 | a memory among the first 41 of both lists comes before any that is in one list only |
| Ranking.CandidatesOrdered | internal/memory/search.go:148-165 | the candidates are exactly the hits similar enough, best first and by id where equal; with fewer than five scanned they all count |
| OwnerPages.OwnerListMembers | internal/memory/owner_browse.go:39-69 | the list is exactly the rows in scope and view, each once, in order |
| OwnerPages.ListedReads | internal/memory/owner_browse.go:42-69 | every listed revision reads as it did when listed, after any further calls |
| OwnerPages.ViewsDivide | internal/memory/owner_browse.go:26-37 | active and archived divide the memories of a purpose, and those to review are the active ones no agent would load |
| OwnerPages.OwnerSeesAgents | internal/memory/owner_browse.go:39-48 | the owner sees every place an agent there loads from, and none that a chosen dimension excludes |
| PagerSpec.CursorsGiveTheList | internal/service/owner_pages.go:71-146 | in any run of the pager, with any other calls and writes in between, presenting each cursor in turn gives every listed memory once, in order, at its listed revision and with the list's total, in at most one page a memory, while the snapshot lasts and the lists taken since fit beside it; it is refused only at a memory whose preview exceeds a page, having all before it |
| PagerSpec.CallAnswers | internal/service/owner_pages.go:41-146 | the error or page of each call: a first page reads the list as it stands, a cursor the list as it was taken, exactly while its time lasts and filter, limit and place agree |
| PagerSpec.CallKeeps | internal/service/owner_pages.go:65-113 | a call drops no live snapshot except to make room for a list it takes, and one taken lasts ten minutes |
| PagerSpec.PageFull | internal/service/owner_pages.go:114-142 | a page stops before the end of the list only at its limit or where the next preview would pass the budget |
| PagerSpec.FreshListReads | internal/service/owner_pages.go:65-113 | from the start of the pager: a newly taken list can be read to its end for ten minutes while at most 63 others are taken and their references fit |
| PagerSpec.Outlives | internal/service/owner_pages.go:93-109 | no call evicts a snapshot unless those expiring no sooner leave no room for the list it takes |
| PagerSpec.PagedKeeps | internal/service/owner_pages.go:65-113 | every call keeps at most 64 snapshots and 100000 references and never evicts the snapshot it issued a cursor for |
| PagerSpec.RunsKeep | internal/service/owner_pages.go:65-113 | the bounds hold at every point of every run |
| OwnerPager.OwnerPager.Page | internal/service/owner_pages.go:41-146 | each call in place is one step of the pager: which error or page it answers, and exactly what it prunes, evicts and caches |
| OwnerPager.OwnerPager.MakeRoom | internal/service/owner_pages.go:92-109 | eviction ends with room, never reaches its emergency break, takes the soonest to expire first and no more than is needed |
| OwnerPager.OwnerPager.ReadPage | internal/service/owner_pages.go:114-142 | the reading loop's page, cursor and errors |
| PairingSpec.Capacity | internal/service/pairing.go:61-72 | in every run at most 16 requests are pending and right after an expire pass at most 32 undecided remain |
| PairingSpec.NeverCrowded | internal/service/pairing.go:106-123 | in every run no lifetime-long window ever holds more than 16 undecided admissions |
| PairingSpec.DecidedOnce | internal/service/pairing.go:199-225 | a decision is taken only on a pending request before expiry, and no later decision on it succeeds |
| PairingSpec.FinalForever | internal/service/pairing.go:63-72 | a finished request keeps its status until it is forgotten, for good |
| PairingSpec.ReadyHasToken | internal/service/pairing.go:144-168 | a poll answers approved only when exactly one token row carries the request's hash |
| PairingSpec.RevokedForever | internal/memory/client_tokens.go:127-139 | a hash once revoked is never valid again |
| PairingSpec.DecideTokens | internal/service/pairing.go:211-224 | an approval adds one valid row with a new hash; a denial or failure adds none |
| PairingAnswers.StartAnswers | internal/service/pairing.go:87-125 | a request is taken up exactly for a usable device name while fewer than 16 are undecided and unexpired, and what becomes of every other request |
| PairingAnswers.PollAnswers | internal/service/pairing.go:144-168 | which of the five answers a poll gives, by the request's status and age |
| PairingAnswers.DecideAnswers | internal/service/pairing.go:199-226 | the answer and the change of a decision in every case |
| PairingAnswers.RevokeAnswers | internal/memory/client_tokens.go:127-139 | a token is revoked exactly when there is one with that id in use, and no other is touched |
| PairingAnswers.StartedThenPolled | internal/service/pairing.go:61-72 | whatever else happens, a started request nobody decides is answered with waiting for one lifetime, gone for another, and then not found |
| PairingAnswers.DecidedThenPolled | internal/service/pairing.go:144-168 | whatever else happens, an approved one is answered with ready and a denied one with refused until two lifetimes after it started |
| Pairing.PairingManager.ExpirePass | internal/service/pairing.go:63-72 | the loop forgets and expires exactly the overdue requests |
| Pairing.PairingManager.StartRequest | internal/service/pairing.go:106-125 | admission in place, after the expire pass and the count |
| Pairing.PairingManager.PollRequest | internal/service/pairing.go:144-168 | a poll's pass and answer |
| Pairing.PairingManager.DecideRequest | internal/service/pairing.go:199-226 | the token is stored before the status changes, and a failed insert leaves the request pending |
| Pairing.TokenTable.AddClientToken | internal/memory/client_tokens.go:63-74 | an insert under the unique hash |
| Pairing.TokenTable.ClientTokenValid | internal/memory/client_tokens.go:78-83 | true exactly for an unrevoked row with the hash |
| Pairing.TokenTable.RevokeClientToken | internal/memory/client_tokens.go:129-139 | revokes an active row once |
| AuditThrottle.Bounded | internal/service/audit.go:82-113 | for any failures at most 1025 lines are written in any minute and at most 1025 windows are held |
| AuditThrottle.LinesByKey | internal/service/audit.go:86-92 | lines of one minute have different keys |
| AuditThrottle.Throttle.Event | internal/service/audit.go:82-116 | one failure in place: suppressed, logged with the carried count, or sent to the overflow bucket |
| AuditCounts.FailureAnswers | internal/service/audit.go:82-113 | which failures are held back, which are logged and which share the overflow bucket, and what the table holds then |
| AuditCounts.LineCarries | internal/service/audit.go:86-92 | after any failures a line carries exactly the number held back under its key since that key's last line, if its window is still held |
| InferenceGate.OneCall | internal/service/handler.go:168-202 | in every interleaving at most one call runs, a nonzero held-since is the start time of the gate's holder, and the process exits at most once |
| InferenceGate.ExitOnlyWhenStuck | internal/service/handler.go:171-188 | a step exits the process exactly when a request times out while one call has held the gate more than six timeouts and no exit was under way |
| InferenceGate.KeptUntilReleased | internal/service/handler.go:168-200 | in any run, from entering the gate until its own call gives it back, a request is the only one in it, whatever times out |
| InferenceGate.GateFreed | internal/service/handler.go:192-209 | from any state with the gate taken, at most five steps of the holder alone free it |
| Versions.Parse | cmd/grasshopper-server/upgrade.go:868-882 | the parsing loop |
| Versions.ParsesRendering | cmd/grasshopper-server/upgrade.go:868-882 | a version parses exactly when it is the dotted rendering of three 64-bit numbers, to those numbers |
| Versions.OlderByFirstDifference | cmd/grasshopper-server/upgrade.go:326 | of two differing versions exactly one is older, by the first number that differs |
| Decimal.AtoiItoa | cmd/grasshopper-server/upgrade.go:875-876 | rendering then parsing a number gives it back |
| Cutover.CutoverCrashSafe | cmd/grasshopper-server/upgrade.go:476-510 | the last healthy archive is reachable at every crash point if and only if the cutover starts from it |
| Cutover.CutoverEnds | cmd/grasshopper-server/upgrade.go:495-508 | from any start a failed cutover leaves both links as they were; a healthy one moves current and aims previous at the old archive |
| Cutover.RollbackCrashSafe | cmd/grasshopper-server/upgrade.go:361-386 | from any recoverable state, safe at every crash point if and only if it does nothing or starts from the last healthy archive; from a settled service it ends settled |
| Cutover.RollbackTwice | cmd/grasshopper-server/upgrade.go:361-362 | two healthy rollbacks return both links |
| Cutover.RollbackAfterCrash | cmd/grasshopper-server/upgrade.go:478-480 | a rollback from a crashed cutover passes a state naming the last healthy archive nowhere |
| Cutover.UpgradeCrashSafe | cmd/grasshopper-server/upgrade.go:299-359 | from any recoverable state, left by a crash or not, every crash point of an upgrade is safe if and only if the download does not replace the last healthy archive and, when it comes to the cutover, the service runs that archive or previous names it beside a plist folder |
| Cutover.SettledUpgradeSafe | cmd/grasshopper-server/upgrade.go:299-359 | from a settled service: if and only if it does not download over the folder the service runs from |
| Cutover.UpgradeAfterCrash | cmd/grasshopper-server/upgrade.go:491-495 | a settled 1.0.0 whose upgrade to 1.1.0 crashes with current moved, and whose upgrade to 1.2.0 then passes a state naming 1.0.0 nowhere |
| Cutover.RunCrashSafe | cmd/grasshopper-server/upgrade.go:299-386 | over any run of upgrades and rollbacks, each possibly crashing, every state passed is recoverable if and only if each operation finds what it needs |
| Cutover.CrashlessSafe | cmd/grasshopper-server/upgrade.go:299-386 | after any operations that ran to their ends the next one is safe at every crash point, unless it replaces the running folder |
| Cutover.ReplacesItsOwnFolder | cmd/grasshopper-server/upgrade.go:641-681 | a settled service for which a named upgrade does, with an unsafe crash point |
| Cutover.OwnFolderApart | cmd/grasshopper-server/upgrade.go:641-646 | it does not when a release folder reports the release it is named for |
| Cutover.UpgradeEnds | cmd/grasshopper-server/upgrade.go:346-358 | every upgrade of a settled service ends settled: on the target when it worked or replaced the running folder, and otherwise on the version it started from, a failed cutover recorded as skipped |
| Cutover.LeavesRunning | cmd/grasshopper-server/upgrade.go:299-359 | at its end or at any crash point an upgrade leaves the old version or the target running, except while it replaces the running folder |
| Cutover.NightlyRaises | cmd/grasshopper-server/upgrade.go:323-334 | an unnamed upgrade of a release, crashed or not, only raises the version and never installs the recorded skip |
| Cutover.NightsRaise | cmd/grasshopper-server/upgrade.go:323-334 | over any run of nights, each possibly crashing part-way, the running release never goes down |
| Cutover.PartlyPrunedSafe | cmd/grasshopper-server/upgrade.go:847-866 | every state part-way through pruning keeps the last healthy archive, named by either link |
| UpgradeAnswers.UpgradesWhenWanted | cmd/grasshopper-server/upgrade.go:299-359 | when every step succeeds, the release is installed if and only if it is one, is not what runs and, if unnamed, is newer than a running release and not the recorded skip; otherwise nothing changes |
| UpgradeAnswers.UpgradeReports | cmd/grasshopper-server/upgrade.go:299-359 | for every start and every luck, the report: the first thing that keeps the upgrade from going on |
| UpgradeAnswers.UpgradeClears | cmd/grasshopper-server/upgrade.go:353-356 | after an installed release the skip is gone exactly when it is a release no newer, both links name the right folders, and of the release folders just those two are left |
| UpgradeAnswers.UpgradeFails | cmd/grasshopper-server/upgrade.go:337-352 | what every upgrade that does not get through leaves, down to the skip file |
| UpgradeAnswers.RollbackAnswers | cmd/grasshopper-server/upgrade.go:363-386 | a rollback goes ahead exactly when both links name archives; a healthy one swaps them and backs out what ran, a failed one leaves links and skip file alone |
| UpgradeAnswers.RolledBackSkipped | cmd/grasshopper-server/upgrade.go:323-334 | a release that was rolled back is not installed again unnamed |
| Upgrader.Upgrader.Cutover | cmd/grasshopper-server/upgrade.go:481-510 | the link changes in place, and exactly the recorded crash points |
| Upgrader.Upgrader.Rollback | cmd/grasshopper-server/upgrade.go:363-386 | the same for rollback |
| Upgrader.Upgrader.Upgrade | cmd/grasshopper-server/upgrade.go:299-359 | the whole command in place; from a settled service it ends settled, and from any recoverable state every state it records is recoverable under the exact condition of `Cutover.UpgradeCrashSafe` |
| Upgrader.Upgrader.PruneArchives | cmd/grasshopper-server/upgrade.go:850-866 | the loop removes exactly the release folders no link names |
| HookCommand.ScanQuoted | cmd/grasshopper/cursor.go:157-181 | the index-skipping scan finds the closing quote and decodes the program |
| HookCommand.RoundTrip | cmd/grasshopper/cursor.go:136-184 | a generated command reads back as its binary if and only if it is not a Windows form ending in a backslash |
| HookCommand.RecognisedForm | cmd/grasshopper/cursor.go:142-184 | a command taken for one of ours has a quoted program that passes the name test, then the fixed middle, and the fixed ending |
| HookCommand.RecognisesForm | cmd/grasshopper/cursor.go:136-184 | and every command of that form is, for the program it quotes |
| HookCommand.SessionStart.Wire | cmd/grasshopper/cursor.go:381-401 | the in-place install or removal, refused unchanged when a differing hook of ours stands |
| HookCommand.RemoveUndoesInstall | cmd/grasshopper/cursor.go:379-401 | install then remove leaves exactly the unrelated hooks in their order |
| HookCommand.InstallTwice | cmd/grasshopper/cursor.go:381-395 | repeating an install changes nothing |
| HookCommand.WiringAnswers | cmd/grasshopper/cursor.go:379-401 | an install without update stops exactly at an edited hook of ours; otherwise every hook of ours goes, the others stay, and an install adds the wanted one |

## Left out

- Cutover.UpgradeCrashSafe: link swaps are atomic and return no error, and a service whose own readings of plist or version fail stops before changing anything.
- PagerSpec.CursorsGiveTheList: within one call the tables are read at one moment, which `StoreRuns.ReadForever` shows makes no difference.
- HookCommand.RemoveUndoesInstall: the test of the program's file name is a parameter, so path rules of each system are not modelled, and the MCP server entry and CLI permissions are not part of this model.
- InferenceGate.ExitOnlyWhenStuck: the load of held-since and the age check are one step, and a panic inside an embedding call is not modelled.
- AuditCounts.LineCarries: a count whose window is pruned before another line is written is lost, as in the code, so counts over all lines need not sum to the failures.
- SQLite itself, full-text matching and its ranking, embeddings and their arithmetic: the lexical list is any list of distinct ids, a vector is a value.
- Sixty-four-bit overflow of ids, revisions and times; invalid UTF-8.
- The `agent_id` column and the truncation flag of previews, which no modelled operation reads.
- Legacy rows from before scopes, migration and re-embedding: runs start from the empty database.
- HTTP, JSON, cookies, headers, the browser code, downloads, launchd calls and plist rewriting, beyond their outcomes.
- Owner sessions, login throttle, device labels and token activity, which would add only easy members.
- The owner's export and search scopes, which repeat the list's filters.
