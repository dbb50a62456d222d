# HarmonyHub: a verified model of its state machines

HarmonyHub manages a performing-arts community: a directory of members and repertoire filled by CSV imports, a concession
desk with time slots, pickup codes and deliveries, recommendations, and an offline-capable web client. This project models
the parts of it that change shared state in several steps and proves what they keep, in Dafny 4.11.

`dafny verify dfyconfig.toml` checks everything.

## How it is organised

Each part has the operations on plain values, where the theorems live, and where the original updates things in place a class
whose methods are proved to do exactly that, loop by loop.

| area | files | main results |
|---|---|---|
| imports | `ImportText`, `ImportTables`, `ImportInvariants`, `ImportRuns`, `ImportApply`, `ImportOverlay`, `ImportRoster`, `ImportColumns`, `ImportFates`, `ImportDesk` | every column of an entry and of a merge traced back to its CSV cell; an entry is its original columns overridden by its live merges; undo in any order restores it; one entry per CSV row; re-applying a roster adds nothing; counts add up |
| rate limiter | `RateLimit`, `RateLimitRace`, `RateLimitQuota`, `RateLimitExcess`, `RateLimitAnswers` | the answer read off the counts; pruning is unobservable; any minute admits at most twice the limit; no lost update under any statement-level interleaving, and from every reachable state exactly when the limit can be exceeded |
| orders | `OrderModel`, `OrderLifecycle`, `OrderCapacity`, `OrderDesk`, `OrderEta`, `OrderEtaCounts`, `OrderCounter`, `OrderOutcomes` | exactly when each handler goes through and what it leaves; money, stamps and codes in every reachable state; capacity over whole runs and under races, with a sharp bound; the ETA pass settles after two rounds, and exactly when after one; the handlers with the pass in the same commit |
| offline queue | `WriteQueue`, `WriteQueueOutcomes` | nothing is lost at any crash point; what a completed run leaves; other scopes untouched |
| login and replay | `Lockout`, `NonceTable` | wrong passwords per quarter of an hour; the pruned nonce table answers like a full history |
| backups | `BackupCodec` | a row round-trips exactly when its JSON holds no moment and no bytes marker |
| recommendations | `Ranking` | results are the first of all that may appear; pins first, newest first |
| shared | `Common`, `Sorting` | options and outcomes, first-match search, the stable sort |

## Modelling assumptions

- The clock is an input and does not go back; one handler reads it once. Times are microseconds.
- A handler is one atomic step, and an error before its commit leaves the tables as they were. `OrderCapacity` splits
  confirmations and `RateLimitRace` splits every statement where interleaving is the point.
- `lower()` is one case-fold function, given as a parameter. A query without an order returns the first match in insertion order.
- A keyed hash is injective. Encryption is an identity; base64 and ISO text are inverse pairs given as parameters.
- ETA arithmetic is exact (hundredths of a minute, rounded up); scores are reals, rounded by a function given as a parameter.
- `FOR UPDATE` is a real row lock, and an insert of a key that another transaction has inserted but not committed waits for it.
- Everything takes place inside one organisation, programme, event and store.
- A batch is of kind member or roster; the upload route accepts no other.
- Texts that the offline queue sorts by creation are fixed-width UTC, so they compare like the instants they name.

## Where the code differs from what one might expect

- Ignoring a duplicate candidate has no status guard: a merged candidate can be ignored while its merge stays live and can
  still be undone (`ImportOverlay.IgnoringAMergedCandidateKeepsTheMerge`). Only a merged one is left so
  (`ImportOverlay.IgnoredKeepsLiveMergeIff`).
- A rate-limited request that stalls until its bucket has been pruned inserts the row anew and is admitted, whatever the
  bucket had admitted (`RateLimitQuota.StalledRequestIsAdmittedAnyway`, `RateLimitQuota.OverAdmissionHappens`). Rows count
  all admissions exactly as long as that does not happen (`RateLimitExcess.CountsAreAdmissionsIff`). A window can still
  exceed its limit exactly when it is not over, or its admissions and the unfinished requests that can still reach it are
  more than the limit (`RateLimitExcess.ExceedsIff`).
- After committing an increment the limiter reads the row again to report what is left, so it shows other requests'
  increments too, and it fails when the row has been pruned in between (`RateLimit.RacedAdmission`).
- Confirming an order does not look at its quote's expiry (`OrderLifecycle.ConfirmIgnoresQuoteExpiry`).
- A fulfillment transition to `cancelled` leaves a stored pickup code, and nothing else does so
  (`OrderLifecycle.CancelledWithCodeIff`); the code is useless (`OrderLifecycle.CancelledIsNeverHandedOver`).
- One ETA pass need not settle, because each visit stamps an update time that later visits count
  (`OrderEta.OnePassSettlesIff`, `OrderEta.OnePassCanBeStale`).
- A queued mutation removed while a run is under way is still submitted: the run works through its snapshot
  (`WriteQueue.Queue.ProcessScope`).
- A request whose timestamp is ahead of the server's clock can be accepted once more after the nonce has been forgotten; one
  whose timestamp is not ahead cannot (`NonceTable.AcceptedOnceUnlessAhead`).

## Model

| member | source | states |
|---|---|---|
| `ImportText.StripIdempotent` | repo/apps/api/app/imports/pipeline.py:81-88 | stripping text that is already stripped changes nothing, so cells may be stripped once |
| `ImportText.IncomingIsVisible` | repo/apps/api/app/imports/pipeline.py:91-106 | a normalized member value is null or visible text, never blank, so whatever a merge writes is not blank |
| `ImportText.PipelineRulesSound` | repo/apps/api/app/imports/pipeline.py:81-125 | the pipeline's own row normalizers meet the conditions the import theorems ask of normalizers |
| `ImportColumns.SpacesByCodePoint` | repo/apps/api/app/imports/pipeline.py:76-76 | which characters count as white space, code point by code point |
| `ImportColumns.CellIsTheMiddle` | repo/apps/api/app/imports/pipeline.py:76-76 | a cell is what stands between the white space at its ends, and empty if the file lacks the column |
| `ImportColumns.MemberRowReadsItsCells` | repo/apps/api/app/imports/pipeline.py:81-106 | a member row is normalized exactly if display name, name, or first and last name give it one, in this order; each of its six columns is the cell of the same name, the region defaulting to Imported Region |
| `ImportColumns.RosterRowReadsItsCells` | repo/apps/api/app/imports/pipeline.py:109-125 | a roster row needs a performer and a title, each with a second header to be read from; composer and region come from theirs; each one missing is an issue |
| `ImportRuns.NormalizeKeeps` | repo/apps/api/app/imports/pipeline.py:162-247 | re-normalizing keeps the invariant of rows, candidates, actions and origins, old candidates deleted and new ones made |
| `ImportRuns.NormalizeConserves` | repo/apps/api/app/imports/pipeline.py:172-242 | total rows = valid + duplicates + rows with issues; entries and merge actions untouched |
| `ImportFates.NormalizeDecides` | repo/apps/api/app/imports/pipeline.py:172-242 | each row of the file is kept as read and is invalid, flagged as the duplicate of an entry by an open candidate, or valid |
| `ImportFates.FlaggedIff` | repo/apps/api/app/imports/pipeline.py:128-159 | the duplicate is the first entry with the same non-empty e-mail in lower case; only if there is none, the first with the same name; none of either otherwise |
| `ImportFates.NormalizeCounts` | repo/apps/api/app/imports/pipeline.py:172-242 | all five counts of a normalized batch: rows, valid rows, issues over all rows, flagged rows, none processed |
| `ImportInvariants.IgnoreKeeps` | repo/apps/api/app/imports/pipeline.py:454-462 | ignoring keeps the invariant, also for a candidate that was merged |
| `ImportInvariants.MergeKeeps` | repo/apps/api/app/imports/pipeline.py:465-530 | merging keeps the invariant: the candidate gets its one live action, the row follows |
| `ImportInvariants.UndoKeeps` | repo/apps/api/app/imports/pipeline.py:548-588 | undoing keeps the invariant: the action is retired, candidate and row are back in review |
| `ImportRuns.NormalizeOnce` | repo/apps/api/app/imports/pipeline.py:162-247 | normalizing keeps every row at one entry at most, under the row's name, and a member row that has created one is not valid again: the look-ups find that entry and flag the row |
| `ImportApply.ApplyKeeps` | repo/apps/api/app/imports/pipeline.py:328-412 | applying keeps the invariant |
| `ImportApply.ApplyConserves` | repo/apps/api/app/imports/pipeline.py:341-409 | total = processed + unresolved duplicates + invalid; `processed` exactly when nothing is unresolved, `needs_review` otherwise; what becomes of each row |
| `ImportFates.AppliesIff` | repo/apps/api/app/imports/pipeline.py:328-331 | an apply goes through exactly for a batch that has been normalized, a normalization for one with a readable table |
| `ImportFates.ApplyCreatesFromTheFile` | repo/apps/api/app/imports/pipeline.py:363-401 | every valid member row of an applied batch has created an entry with the name and the columns of its own cells, recorded as its effect |
| `ImportFates.ApplyCountsCandidates` | repo/apps/api/app/imports/pipeline.py:402-409 | the batch's duplicate count is its number of candidates; no other batch and no candidate is touched |
| `ImportApply.ApplyIdempotent` | repo/apps/api/app/imports/pipeline.py:328-412 | applying again right away changes no table |
| `ImportApply.EachRowCreatesAtMostOneEntry` | repo/apps/api/app/imports/pipeline.py:162-412 | over any run of uploads, normalizations, applies, merges, ignores, undos and outside edits, a CSV row creates at most one directory entry |
| `ImportApply.CandidatesStayCoherent` | repo/apps/api/app/imports/pipeline.py:454-588 | in every reachable state a candidate and its row show one of four status pairs, and no candidate has two live merges |
| `ImportOverlay.EntryIsOriginalPlusLiveMerges` | repo/apps/api/app/imports/pipeline.py:488-501 | without outside edits, live merges of an entry wrote disjoint columns, written columns show what was written, the rest is original, and every live merge can be undone |
| `ImportOverlay.LiveUndoSucceeds` | repo/apps/api/app/imports/pipeline.py:556-565 | the guard of undo never refuses a live action while nobody else writes the columns |
| `ImportOverlay.UndoEachSucceeds` | repo/apps/api/app/imports/pipeline.py:548-588 | any distinct live actions can be undone in any order, leaving exactly the others live |
| `ImportOverlay.UndoingAllRestoresTheOriginal` | repo/apps/api/app/imports/pipeline.py:548-570 | undoing all live merges of an entry, in any order and after any run, restores the columns it was created with |
| `ImportOverlay.UndosCommute` | repo/apps/api/app/imports/pipeline.py:548-588 | two undos give the same tables in either order |
| `ImportOverlay.MergeUndoRoundTrip` | repo/apps/api/app/imports/pipeline.py:465-588 | undoing a merge at once restores the directory from any state, and merging again writes the same again |
| `ImportOverlay.UndoRestoresItsColumnsOrNothing` | repo/apps/api/app/imports/pipeline.py:548-570 | with outside edits, undo goes through exactly when every written column still shows what was written, and then restores those columns and nothing else; otherwise nothing changes |
| `ImportFates.MergesIff` | repo/apps/api/app/imports/pipeline.py:465-487 | in a coherent state a merge goes through exactly for a candidate open or reopened by an undo |
| `ImportColumns.MergeFillsColumnByColumn` | repo/apps/api/app/imports/pipeline.py:488-513 | a merge of a member row sets each of the six columns, named one by one, to its own value if the column was blank and the value is not empty, leaves it alone otherwise, and records value and snapshot under that same column |
| `ImportFates.MergeReadsTheFile` | repo/apps/api/app/imports/pipeline.py:465-530 | after any run, what a merge puts into a column is the stripped cell of that name in the CSV row; candidate, row and action are set accordingly |
| `ImportFates.DecisionsLeave` | repo/apps/api/app/imports/pipeline.py:454-588 | the statuses ignoring and undoing leave on candidate, row and action |
| `ImportOverlay.IgnoringAMergedCandidateKeepsTheMerge` | repo/apps/api/app/imports/pipeline.py:454-462 | ignoring a merged candidate leaves its merge live and still undoable |
| `ImportOverlay.IgnoredKeepsLiveMergeIff` | repo/apps/api/app/imports/pipeline.py:454-462 | in every reachable state, ignoring a candidate not yet ignored leaves it with a live merge exactly when it was merged |
| `ImportRoster.EnteringSettles` | repo/apps/api/app/imports/pipeline.py:250-325 | after a roster row is entered, the look-ups find its performer, title and link |
| `ImportFates.RosterEntryIs` | repo/apps/api/app/imports/pipeline.py:250-278 | the entry of a roster row is the first of that name in lower case, else a new one with name and region and no other column |
| `ImportFates.RosterItemIs` | repo/apps/api/app/imports/pipeline.py:281-313 | the item is the first of that title in lower case, its composer filled in only if it had none, else a new one |
| `ImportFates.RosterRowEnters` | repo/apps/api/app/imports/pipeline.py:383-397 | a roster row links exactly these two, once, and records the link as its effect |
| `ImportRoster.ApplySettlesTheFile` | repo/apps/api/app/imports/pipeline.py:341-400 | after a roster batch is applied, everything its file asks for is in the directory |
| `ImportRoster.RosterReapplyAddsNothing` | repo/apps/api/app/imports/pipeline.py:250-400 | applying an applied roster batch again, whatever happened in between, adds no entry, item, link or composer |
| `ImportDesk.Desk.FindMemberDuplicate` | repo/apps/api/app/imports/pipeline.py:128-159 | the scan finds the first entry with that e-mail, else the first with that name |
| `ImportDesk.Desk.NormalizeBatch` | repo/apps/api/app/imports/pipeline.py:162-247 | the loop commits, and counts, what normalization is defined to |
| `ImportDesk.Desk.FindOrCreateDirectoryEntry` | repo/apps/api/app/imports/pipeline.py:250-278 | finds the first entry of that name or appends one, and nothing else |
| `ImportDesk.Desk.FindOrCreateRepertoireItem` | repo/apps/api/app/imports/pipeline.py:281-313 | finds the first item of that title, filling in a missing composer, or appends one |
| `ImportDesk.Desk.EnsurePerformerLink` | repo/apps/api/app/imports/pipeline.py:316-325 | the link is there afterwards, once |
| `ImportDesk.Desk.ApplyOneRow` | repo/apps/api/app/imports/pipeline.py:345-400 | one row of the apply loop does what the row step is defined to |
| `ImportDesk.Desk.ApplyBatch` | repo/apps/api/app/imports/pipeline.py:328-412 | the loop commits what applying is defined to, or nothing |
| `ImportDesk.Desk.MergeCandidate` | repo/apps/api/app/imports/pipeline.py:465-530 | the column loop fills exactly the columns, and records what was there, as `MergeFillsColumnByColumn` has it |
| `ImportDesk.Desk.IgnoreCandidate` | repo/apps/api/app/imports/pipeline.py:454-462 | candidate and row become ignored |
| `ImportDesk.Desk.UndoMerge` | repo/apps/api/app/imports/pipeline.py:548-588 | the two loops check all written columns first and then restore the snapshot, or nothing |
| `RateLimit.RetryAfterIsTight` | repo/apps/api/app/core/rate_limit.py:119-120 | a rejection asks for 1 to 60 seconds, less than one second short of the reset and, a second or more before it, not beyond |
| `RateLimit.PruningIsUnobservable` | repo/apps/api/app/core/rate_limit.py:93-108 | for a nondecreasing clock the limiter decides, request by request, as one that never deletes a bucket |
| `RateLimit.AtMostThreeBuckets` | repo/apps/api/app/core/rate_limit.py:121-179 | a key never has more than three buckets |
| `RateLimit.RemainingBucketsAccount` | repo/apps/api/app/core/rate_limit.py:134-179 | every bucket still in the pruned table counts exactly the requests its window admitted, within the limit |
| `RateLimit.AnySixtySecondsAdmitAtMostTwice` | repo/apps/api/app/core/rate_limit.py:111-179 | a window admits at most the limit, any half-open minute at most twice the limit |
| `RateLimit.TwiceTheLimitHappens` | repo/apps/api/app/core/rate_limit.py:89-90 | that bound is reached across a window boundary |
| `RateLimit.BlockedSpending` | repo/apps/api/app/core/rate_limit.py:200-222 | an IP-blocked request spends nothing, a user-blocked one one IP unit and no user quota |
| `RateLimit.RacedAdmission` | repo/apps/api/app/core/rate_limit.py:123-188 | however the insert races go, an admission adds exactly one to what was committed for the bucket, within the limit; an inserted row reports the limit less one, an incremented one what reading it again after the commit shows, or an error if it has been pruned by then |
| `RateLimit.Limiter.PruneOldWindows` | repo/apps/api/app/core/rate_limit.py:93-108 | a bucket stays exactly when it is of another key or not before the given window, with its count |
| `RateLimit.Limiter.ConsumeScope` | repo/apps/api/app/core/rate_limit.py:111-188 | the two-attempt loop: lock, increment and read again after the commit, or insert, retry once after a lost race, then fail closed |
| `RateLimit.Limiter.EnforceRateLimits` | repo/apps/api/app/core/rate_limit.py:191-222 | IP scope first, then the user's, answered and counted as `CountsDecideTheAnswer` has it |
| `RateLimitAnswers.CountsDecideTheAnswer` | repo/apps/api/app/core/rate_limit.py:191-222 | blocked for the IP exactly if its count of this minute is at the limit; else blocked for a signed-in user exactly if theirs is; else passed; who passes a scope raises its count by one |
| `RateLimitAnswers.SpentAsAnswered` | repo/apps/api/app/core/rate_limit.py:191-222 | the units recorded as spent are exactly those taken, per answer |
| `RateLimitAnswers.OtherBuckets` | repo/apps/api/app/core/rate_limit.py:93-179 | every other bucket keeps its count, except those of a charged key more than two minutes old, which go |
| `RateLimitAnswers.CheckReports` | repo/apps/api/app/core/rate_limit.py:111-188 | a check reports whether the limit is reached, how many units are left after it, and the end of the minute |
| `RateLimitAnswers.UserBurstIsCutOff` | repo/apps/api/app/core/rate_limit.py:191-222 | of a burst of one signed-in user on an empty table, exactly the requests up to the user's limit pass, later ones are blocked for the user, and for the IP once its limit is reached |
| `RateLimitAnswers.UninterruptedIsInOneGo` | repo/apps/api/app/core/rate_limit.py:111-222 | the statements of a request nobody interferes with leave the table and the answer of the two checks in one go |
| `RateLimitAnswers.LosingOnceStartsOver` | repo/apps/api/app/core/rate_limit.py:123-148 | a request that loses its first insert race is checked against the row it lost to, as if it came now |
| `RateLimitAnswers.LosingTwiceFailsClosed` | repo/apps/api/app/core/rate_limit.py:123-188 | one that loses again is blocked in that scope and changes no row |
| `RateLimitAnswers.OutOfTries` | repo/apps/api/app/core/rate_limit.py:181-188 | the loop, after two lost races, reports no quota left until the end of the minute and writes nothing |
| `RateLimitRace.StepKeeps` | repo/apps/api/app/core/rate_limit.py:123-188 | every statement of every request keeps the locking, pending-insert and counting invariant |
| `RateLimitRace.RunKeeps` | repo/apps/api/app/core/rate_limit.py:123-222 | so does every interleaving of any number of requests, dying ones included |
| `RateLimitQuota.RowsCountTheirAdmissions` | repo/apps/api/app/core/rate_limit.py:134-171 | under any interleaving a row's count is the number of requests it has admitted, never above the limit |
| `RateLimitQuota.EndingsDecideSpending` | repo/apps/api/app/core/rate_limit.py:200-222 | under any interleaving, how a request ends says exactly which quotas it spent |
| `RateLimitQuota.TimelyRunsStayWithinTheLimit` | repo/apps/api/app/core/rate_limit.py:143-171 | a sufficient condition on timing: while no unfinished request may still use what is pruned, no window ever admits more than its limit |
| `RateLimitExcess.StepCountsAllIff` | repo/apps/api/app/core/rate_limit.py:134-171 | from any invariant state in which every row counts all its window admitted, a step keeps this exactly when it is not the commit of an inserted row whose bucket has admitted someone |
| `RateLimitExcess.CountsAreAdmissionsIff` | repo/apps/api/app/core/rate_limit.py:121-188 | over a run of any interleaving, every row counts all its window admitted at every moment exactly when no commit inserts a row for a bucket that has admitted someone; then no window exceeds its limit |
| `RateLimitExcess.RunKeepsReach` | repo/apps/api/app/core/rate_limit.py:111-222 | once a window is over, nobody joins those it has admitted or may still admit, whatever happens |
| `RateLimitExcess.MostAPastWindowAdmits` | repo/apps/api/app/core/rate_limit.py:121-188 | a window that is over can come to admit exactly those it has admitted and the unfinished requests with its bucket before them that do not hold a full row: never others, and all of them in some continuation |
| `RateLimitExcess.ExceedsIff` | repo/apps/api/app/core/rate_limit.py:121-188 | in every reachable state, a window can come to admit more than its limit in some continuation exactly when it is not over yet, or it has admitted, together with those it may still admit, more than the limit |
| `RateLimitQuota.StalledRequestIsAdmittedAnyway` | repo/apps/api/app/core/rate_limit.py:121-145 | a request that finds its bucket pruned is admitted whatever the bucket had admitted |
| `RateLimitQuota.OverAdmissionHappens` | repo/apps/api/app/core/rate_limit.py:121-171 | there is such a run: a window with limit one admits two |
| `OrderLifecycle.HandleKeeps` | repo/apps/api/app/api/routes/ordering.py:583-914 | every handler keeps money, stamps and codes of every order consistent |
| `OrderLifecycle.MoneyAlwaysAddsUp` | repo/apps/api/app/api/routes/ordering.py:166-187 | in every reachable state total = subtotal + fee, subtotal = sum of the stored lines, line = price * quantity, no menu item twice, no fee on pickup |
| `OrderLifecycle.StampsAlwaysFit` | repo/apps/api/app/orders/engine.py:409-426 | in every reachable state status and type say exactly which stages are stamped, in nondecreasing order; pickup orders never reach dispatch states nor the reverse |
| `OrderLifecycle.HandoffUsesTheLatestReadyCode` | repo/apps/api/app/orders/engine.py:464-486 | a handoff used the latest issued code, issued while the order was ready, no longer ago than its time to live of at least a minute |
| `OrderLifecycle.AfterConfirmation` | repo/apps/api/app/orders/engine.py:48-59 | one handler on a confirmed order freezes type, slot and money, lowers a rank on every status change, and hands over only by a verified code |
| `OrderLifecycle.FrozenAfterConfirmation` | repo/apps/api/app/orders/engine.py:274-276 | over any run from confirmation on, type, slot, lines and total stay, the status changes at most four times, final states are final |
| `OrderLifecycle.NoSecondHandoff` | repo/apps/api/app/orders/engine.py:479-486 | after a handoff every verification, whatever happens in between, is refused |
| `OrderLifecycle.ReadyVoidsEarlierCodes` | repo/apps/api/app/api/routes/fulfillment.py:225-233 | after the ready transition and any events that issue the order no new code, every verification is refused and changes nothing |
| `OrderLifecycle.CancelledWithCodeIff` | repo/apps/api/app/api/routes/fulfillment.py:225-233 | a handler leaves an order cancelled with a stored code exactly when it was so before, or is a fulfillment transition to cancelled of an order holding a code |
| `OrderLifecycle.CancelledIsNeverHandedOver` | repo/apps/api/app/orders/engine.py:464-486 | once an order is cancelled, every verification after any events is refused and changes nothing |
| `OrderLifecycle.ConfirmIgnoresQuoteExpiry` | repo/apps/api/app/api/routes/ordering.py:839-885 | confirming answers and commits the same whatever the quote's expiry; a refusal leaves the expiry as the only difference |
| `OrderLifecycle.OthersLeaveAlone` | repo/apps/api/app/api/routes/ordering.py:652-914 | a handler for one order leaves every other order and its lines alone |
| `OrderLifecycle.FeeIsResolvedAfresh` | repo/apps/api/app/orders/engine.py:147-184 | quoting and confirming succeed exactly when the address can be delivered to, and leave the fee of the active zone of its first five ZIP characters, none for pickup, whatever fee the draft had; otherwise nothing is committed |
| `OrderOutcomes.TransitionsGoThroughIff` | repo/apps/api/app/orders/engine.py:48-59 | a transition goes through exactly if type, status and target are one of the pairs listed for that type; else nothing is committed |
| `OrderOutcomes.TransitionLeaves` | repo/apps/api/app/orders/engine.py:409-426 | the stage entered is stamped and no other, conflict cleared, the code voided on ready for pickup |
| `OrderOutcomes.CancelsIff` | repo/apps/api/app/orders/engine.py:376-382 | cancelled exactly if not handed over, out or delivered, and confirmed less than six hours ago if at all; what that leaves |
| `OrderOutcomes.QuotesAndConfirmsIff` | repo/apps/api/app/api/routes/ordering.py:787-885 | quoting and confirming go through exactly for an unconfirmed order with a seat left, four by default, that can be delivered; they leave current fee, sums, status, and a quote of a quarter of an hour or the confirmation stamp |
| `OrderOutcomes.WhyNotQuoted` | repo/apps/api/app/api/routes/ordering.py:215-235 | which error otherwise; only a full slot commits anything, the conflict |
| `OrderOutcomes.DraftsIff` | repo/apps/api/app/api/routes/ordering.py:652-736 | a draft is created or replaced exactly if it has lines, no item twice, an aligned slot, items of the menu and a deliverable address, and the order is unconfirmed |
| `OrderOutcomes.DraftsLeave` | repo/apps/api/app/api/routes/ordering.py:652-736 | the draft as requested with its lines at menu prices and their sum, nothing else changed |
| `OrderOutcomes.IssuesIff` | repo/apps/api/app/orders/engine.py:448-461 | a code is issued exactly for a pickup order confirmed, in preparation or ready, for the set seconds, sixty at least |
| `OrderOutcomes.VerifiesIff` | repo/apps/api/app/orders/engine.py:464-486 | a handoff goes through exactly for a ready pickup order by its stored code up to its expiry; what that leaves |
| `OrderOutcomes.DeliveryRun` | repo/apps/api/app/api/routes/fulfillment.py:217-256 | any order for delivery that can be confirmed is confirmed, prepared, made ready, sent out and delivered without an error, every stage stamped |
| `OrderOutcomes.PickupRun` | repo/apps/api/app/api/routes/fulfillment.py:264-303 | any pickup order that can be confirmed is confirmed, prepared, made ready and handed over by the code issued then, without an error |
| `OrderCapacity.NewlySeated` | repo/apps/api/app/orders/engine.py:95-124 | an order newly counted at a slot was just confirmed, with room for it |
| `OrderCapacity.NeverOverbooked` | repo/apps/api/app/api/routes/ordering.py:846-885 | over any run a slot is never booked beyond the largest capacity it has had |
| `OrderCapacity.ConstantCapacityIsKept` | repo/apps/api/app/api/routes/ordering.py:846-885 | with capacities unchanged no slot ever exceeds its own |
| `OrderCapacity.ConfirmNeedsRoom` | repo/apps/api/app/api/routes/ordering.py:215-235 | a mutable order is refused for lack of room exactly when its slot is at or over capacity, also after capacity was lowered; the refusal seats nobody |
| `OrderCapacity.CapacityRoundTrip` | repo/apps/api/app/api/routes/ordering.py:583-648 | a capacity set for an aligned slot is the one in force there and nowhere else; clearing it restores the default and, if the slot had none, the tables; clearing again finds nothing; no seat moves |
| `OrderCapacity.CheckAndCommitIsConfirm` | repo/apps/api/app/api/routes/ordering.py:846-880 | the split confirmation, uninterrupted, is the handler's success path |
| `OrderCapacity.OverbookingIsBounded` | repo/apps/api/app/api/routes/ordering.py:846-880 | with at most k confirmations between check and commit, a slot never exceeds its capacity by more than k - 1 |
| `OrderCapacity.OverbookingHappens` | repo/apps/api/app/api/routes/ordering.py:846-880 | that bound is reached |
| `OrderDesk.SuggestionsAreDetermined` | repo/apps/api/app/orders/engine.py:127-144 | the description of suggestions admits only one list |
| `OrderDesk.SuggestionsAreAligned` | repo/apps/api/app/orders/engine.py:127-144 | suggestions for an aligned slot are aligned and within six hours after it |
| `OrderDesk.SuggestNextAvailableSlots` | repo/apps/api/app/orders/engine.py:127-144 | the scan returns the earliest free slots of the next twenty-four, in order, three if there are three, skipping none |
| `OrderOutcomes.ThreeEarliestSlots` | repo/apps/api/app/orders/engine.py:127-144 | at most three free slots among the next twenty-four quarter-hours, in order; a free one is missing only behind three earlier ones |
| `OrderDesk.Desk.IsSlotCapacityConflict` | repo/apps/api/app/orders/engine.py:364-373 | a conflict exactly when the finalized orders at the slot, the excluded one aside, fill its capacity or the default; then with suggestions |
| `OrderDesk.Desk.ValidateLineItems` | repo/apps/api/app/orders/engine.py:285-292 | rejects exactly an empty list or one naming a menu item twice |
| `OrderDesk.Desk.MenuItemsAreValid` | repo/apps/api/app/api/routes/ordering.py:149-163 | counting the rows found decides whether all requested items exist |
| `OrderDesk.Desk.PopulateLineItems` | repo/apps/api/app/api/routes/ordering.py:166-187 | the order's rows are replaced by one priced row per requested line, in order |
| `OrderCounter.Counter.CreateOrderDraft` | repo/apps/api/app/api/routes/ordering.py:652-695 | commits the requested draft with its money and stamps it, or nothing and which error |
| `OrderCounter.Counter.UpdateOrderDraft` | repo/apps/api/app/api/routes/ordering.py:699-736 | replaces and stamps a mutable order's draft, or nothing and which error |
| `OrderDesk.Desk.QuoteOrRaiseConflict` | repo/apps/api/app/api/routes/ordering.py:215-235 | a full slot commits the conflict and proposes the next free slots |
| `OrderCounter.Counter.QuoteOrder` | repo/apps/api/app/api/routes/ordering.py:787-835 | what a quote commits and answers: its estimate with the order itself not counted, its stamp, no other estimate; with suggestions when the slot is full |
| `OrderCounter.Counter.ConfirmOrder` | repo/apps/api/app/api/routes/ordering.py:839-885 | what a confirmation commits and answers, with one recalculation pass over the queue the order has joined; with suggestions when the slot is full |
| `OrderCounter.Counter.CancelOrder` | repo/apps/api/app/api/routes/ordering.py:889-914 | cancels unless handed over, out, delivered or confirmed six hours ago, with one recalculation pass; a repeated cancel changes nothing, no estimate either |
| `OrderCounter.Counter.TransitionOrderStatus` | repo/apps/api/app/api/routes/fulfillment.py:217-256 | commits and answers what `TransitionsGoThroughIff` and `TransitionLeaves` say, with one recalculation pass, or which error and no change |
| `OrderCounter.Counter.IssuePickupCode` | repo/apps/api/app/orders/engine.py:448-461 | stores the new code's hash and expiry for an eligible pickup order and stamps it; no estimate changes |
| `OrderCounter.Counter.VerifyPickupCodeAndHandoff` | repo/apps/api/app/api/routes/fulfillment.py:264-303 | hands over, clears the code and recalculates the queue when the check passes; otherwise which error, order, stamps and estimates unchanged |
| `OrderDesk.Desk.UpsertSlotCapacity` | repo/apps/api/app/api/routes/ordering.py:583-622 | succeeds exactly for an aligned slot; then that slot has the given capacity in force and every other slot the one it had |
| `OrderDesk.Desk.DeleteSlotCapacity` | repo/apps/api/app/api/routes/ordering.py:626-648 | succeeds exactly for an aligned slot with a capacity of its own; then that slot falls back to the default and every other keeps its own |
| `OrderEta.EtaBounds` | repo/apps/api/app/orders/engine.py:217-241 | backlog <= queue <= whole workload W, and 8 <= ETA <= 46 + ceil(2.7W) + ceil(2.2W) |
| `OrderEtaCounts.EtaFromCounts` | repo/apps/api/app/orders/engine.py:191-241 | the estimate from the numbers of orders per status, with the weights 1.0, 1.6, 0.4, 0.6 and 0.8, those updated in 72 hours, and the time to the slot |
| `OrderEtaCounts.VisitBySlotThenAge` | repo/apps/api/app/orders/engine.py:245-255 | the recalculation visits the orders by slot, those of one slot in order of creation |
| `OrderEta.ActivationNeverLowersOthers` | repo/apps/api/app/orders/engine.py:205-241 | an order becoming active never lowers another order's ETA |
| `OrderEta.PassStampsAll` | repo/apps/api/app/orders/engine.py:257-261 | a pass stamps every active order and changes no slot, status or inactive order |
| `OrderEta.SecondPassNeverLowers` | repo/apps/api/app/orders/engine.py:244-261 | first-pass ETAs are at most second-pass ETAs |
| `OrderEta.TwoPassesSettle` | repo/apps/api/app/orders/engine.py:244-261 | a third pass changes nothing |
| `OrderEta.OnePassSettlesIff` | repo/apps/api/app/orders/engine.py:227-261 | one pass settles exactly when the recently updated active orders besides the first already made the same volume, capped at 18, as all active orders but one |
| `OrderEta.NothingActive` | repo/apps/api/app/orders/engine.py:244-261 | with no active order a pass changes nothing |
| `OrderEta.OnePassCanBeStale` | repo/apps/api/app/orders/engine.py:227-261 | two orders for which one pass does not settle |
| `OrderEta.CalculateEtaMinutes` | repo/apps/api/app/orders/engine.py:191-241 | the accumulating loop computes the ETA as defined on the table |
| `OrderCounter.Counter.RecalculateQueueEtas` | repo/apps/api/app/orders/engine.py:244-261 | the loop over the stored orders by slot and age, whose writes feed its later reads, performs one pass |
| `OrderCounter.ConfirmingNeverLowersOthers` | repo/apps/api/app/api/routes/ordering.py:839-885 | confirming an order keeps every other in its place in the queue and never lowers what it would be estimated at that moment |
| `Sorting.SortIsStable` | repo/apps/web/src/offline/writeQueue.ts:60-67 | the sort both the queue and the ranking use keeps elements that compare equal in their order |
| `WriteQueue.SortSorts` | repo/apps/web/src/offline/writeQueue.ts:60-67 | the list read back holds the stored mutations in order of creation, ties in stored order |
| `WriteQueue.StepIsPointwise` | repo/apps/web/src/offline/writeQueue.ts:101-163 | every operation on the stored list does to each mutation exactly what it says of that one, and to no other |
| `WriteQueue.OnlyCommittedOrRemovedLeave` | repo/apps/web/src/offline/writeQueue.ts:165-220 | over any steps, cut short anywhere, a mutation leaves storage only by a committed reply or an explicit removal |
| `WriteQueue.StaysEligible` | repo/apps/web/src/offline/writeQueue.ts:165-220 | over any steps, cut short anywhere, a mutation still stored is due again unless the server refused it |
| `WriteQueue.CutShortIsRetried` | repo/apps/web/src/offline/writeQueue.ts:166-171 | wherever a run stops, a candidate not committed, refused or removed by then is a candidate of the next run |
| `WriteQueue.CandidatesAreDueInOrder` | repo/apps/web/src/offline/writeQueue.ts:165-168 | the snapshot is exactly what is due in the scope, in order of creation, each once |
| `WriteQueueOutcomes.SnapshotIsDue` | repo/apps/web/src/offline/writeQueue.ts:97-168 | the snapshot is what is stored for that scope and user as queued, waiting for a retry or submitting |
| `WriteQueueOutcomes.MarksInPlace` | repo/apps/web/src/offline/writeQueue.ts:141-171 | marking and requeueing write status, error and conflict of that mutation, and leave the others alone |
| `WriteQueueOutcomes.AnswerDecides` | repo/apps/web/src/offline/writeQueue.ts:69-215 | what a completed run leaves in storage of a candidate: nothing if committed; waiting for a retry after an error without status, of 500 or more, or 429, and after a retry answer; in conflict with the given conflict otherwise; one more attempt, its text; and it is in the next snapshot exactly if waiting |
| `WriteQueue.NonCandidatesUnchanged` | repo/apps/web/src/offline/writeQueue.ts:165-216 | a stored mutation of another scope or user, or not due, that nobody else removes or requeues is in storage exactly as before when the run is over |
| `WriteQueue.QueuedStays` | repo/apps/web/src/offline/writeQueue.ts:165-216 | a mutation queued while the run awaits the server, and not removed or requeued since, is in storage exactly as queued when the run is over |
| `WriteQueue.UnaddressedStays` | repo/apps/web/src/offline/writeQueue.ts:101-163 | over any steps on the stored list, a mutation no step addresses and no removal matches is in it exactly as it was |
| `WriteQueue.TurnsAreSteps` | repo/apps/web/src/offline/writeQueue.ts:170-215 | the run, turn by turn, is the sequence of steps the theorems are about |
| `WriteQueue.Queue.Enqueue` | repo/apps/web/src/offline/writeQueue.ts:101-121 | the item is added in its place |
| `WriteQueue.Queue.RemoveWhere` | repo/apps/web/src/offline/writeQueue.ts:128-131 | exactly the matching mutations go |
| `WriteQueue.Queue.RemoveById` | repo/apps/web/src/offline/writeQueue.ts:123-126 | exactly the mutations of that id go |
| `WriteQueue.Queue.RemoveForUser` | repo/apps/web/src/offline/writeQueue.ts:133-135 | exactly the user's mutations go |
| `WriteQueue.Queue.RemoveForScope` | repo/apps/web/src/offline/writeQueue.ts:137-139 | exactly the user's mutations of that scope go |
| `WriteQueue.Queue.Update` | repo/apps/web/src/offline/writeQueue.ts:141-154 | changes the first mutation of that id, or writes nothing |
| `WriteQueue.Queue.MarkLocalQueued` | repo/apps/web/src/offline/writeQueue.ts:156-163 | the mutation is due again, its conflict and error cleared, its attempts kept |
| `WriteQueue.Queue.Settle` | repo/apps/web/src/offline/writeQueue.ts:174-214 | the stored list takes the step of the answer, or thrown error, whose outcome `AnswerDecides` gives |
| `WriteQueue.Queue.ProcessItem` | repo/apps/web/src/offline/writeQueue.ts:171-214 | one turn: mark, await while others act, settle by the answer or the thrown error |
| `WriteQueue.Queue.ProcessAll` | repo/apps/web/src/offline/writeQueue.ts:170-215 | the loop submits the given items in order and leaves what their turns leave, one after the other |
| `WriteQueue.Queue.ProcessScope` | repo/apps/web/src/offline/writeQueue.ts:165-216 | submits exactly the snapshot, in order, whatever happens to the queue meanwhile, and leaves what the turns leave |
| `Lockout.CountStaysBelowFive` | repo/apps/api/app/api/routes/auth.py:164-168 | in every committed state the failure count is at most four |
| `Lockout.LockedOut` | repo/apps/api/app/api/routes/auth.py:147-162 | while locked no password is looked at and nothing extends or lifts the lock |
| `Lockout.WrongPasswordsAreBounded` | repo/apps/api/app/api/routes/auth.py:147-190 | in any quarter of an hour, from any state, wrong-password evaluations are at most five less those counted, plus four per successful login |
| `Lockout.AtMostFiveWrongPasswords` | repo/apps/api/app/api/routes/auth.py:147-190 | after any history, a quarter of an hour without a successful login holds at most five wrong-password evaluations |
| `Lockout.LockComesWithTheFifth` | repo/apps/api/app/api/routes/auth.py:164-168 | without a login in between, an account gets locked exactly when the wrong passwords reach five |
| `Lockout.LogsInIff` | repo/apps/api/app/api/routes/auth.py:147-190 | when a request is answered how; a login takes an active, unlocked account, the right password and, if enabled, the right code |
| `Lockout.LockLasts` | repo/apps/api/app/api/routes/auth.py:164-168 | the fifth wrong password locks for exactly a quarter of an hour and starts the count over |
| `Lockout.LoginStartsOver` | repo/apps/api/app/api/routes/auth.py:186-190 | after a login, whatever came before, the account gets locked exactly when five wrong passwords have come since |
| `Lockout.Account.Login` | repo/apps/api/app/api/routes/auth.py:147-190 | the answer and the stored counter and lock after each login request |
| `NonceTable.PruningIsUnobservable` | repo/apps/api/app/api/deps.py:74-99 | over any run the pruned table, rollbacks included, answers as a history that forgets nothing, asked about the last five minutes |
| `NonceTable.RefusedInOrder` | repo/apps/api/app/api/deps.py:63-70 | which answer for which defect of a request; the clock may be five minutes on either side of the timestamp |
| `NonceTable.AcceptedIffNew` | repo/apps/api/app/api/deps.py:57-99 | over any run, a request is accepted exactly if well-formed and its nonce has not been accepted in the last five minutes |
| `NonceTable.AcceptancesAreSpacedOut` | repo/apps/api/app/api/deps.py:69-99 | two acceptances of one nonce by the pruned table, over any run from any table, are more than five minutes apart |
| `NonceTable.AcceptedTwiceWasAhead` | repo/apps/api/app/api/deps.py:57-99 | if the pruned table accepts an identical request twice in a run, its timestamp was ahead of the clock at the first |
| `NonceTable.AcceptedOnceUnlessAhead` | repo/apps/api/app/api/deps.py:68-75 | after the table has accepted a request, it accepts the identical one at no later time exactly when the timestamp was not ahead of the clock |
| `NonceTable.Guard.VerifyReplayHeaders` | repo/apps/api/app/api/deps.py:57-99 | which answer a request gets and what the table holds afterwards, pruning undone on rejection |
| `BackupCodec.ValueRoundTripIff` | repo/apps/api/app/operations/backups.py:178-214 | an arbitrarily nested value decodes to itself exactly when it holds no moment and no object carrying the bytes marker |
| `BackupCodec.RowRoundTripIff` | repo/apps/api/app/operations/backups.py:217-243 | a row decodes to itself, moments in UTC, exactly when its other columns are such values |
| `BackupCodec.NormalizedRowAt` | repo/apps/api/app/operations/backups.py:181-183 | every column holds what it held before, a moment w at offset o as the UTC time u with u + o = w |
| `BackupCodec.EncodingWrites` | repo/apps/api/app/operations/backups.py:178-194 | what is written for a value at any depth: a moment as the text of the UTC time that its offset leads to, bytes as a marked object, anything else as it is |
| `BackupCodec.SameInstantSameText` | repo/apps/api/app/operations/backups.py:181-183 | two moments are written alike exactly if they are the same instant; no offset counts as UTC |
| `BackupCodec.MomentsComeBack` | repo/apps/api/app/operations/backups.py:197-243 | a column of moments reads back the same instant at offset zero; null stays; anything else but a readable text is an error |
| `BackupCodec.DamagedBytesAreRefused` | repo/apps/api/app/operations/backups.py:204-211 | an object with the marker is its bytes, or refused without base64 text as its value |
| `BackupCodec.DecodedRowAt` | repo/apps/api/app/operations/backups.py:231-243 | a decoded row has exactly the columns the payload has, each decoded; it is refused only for a bad one of them |
| `BackupCodec.MarkedObjectIsLost` | repo/apps/api/app/operations/backups.py:204-211 | an object that carries the marker, whatever else it holds, does not come back, nor does an object or list that holds it |
| `BackupCodec.SerializeModelRows` | repo/apps/api/app/operations/backups.py:217-228 | one payload per row, in order, each column as it is to be written |
| `BackupCodec.DecodeRowForInsert` | repo/apps/api/app/operations/backups.py:231-243 | decodes the columns present, ignores other keys, stops at the first bad value |
| `Ranking.ResultsAreTheFirst` | repo/apps/api/app/api/routes/recommendations.py:397-445 | results are the first `limit` of all that policy and pairing allow, in rank order; one left out ranks after all of them and only when the limit is reached |
| `Ranking.PinnedComeFirst` | repo/apps/api/app/api/routes/recommendations.py:393-445 | pinned results form a prefix of at most `max_pins`, newest pin first; the rest fall in score, ties by name |
| `Ranking.UsedPinsNewestFirst` | repo/apps/api/app/recommendations/engine.py:315-328 | the pins that count are stored, unexpired ones, newest first |
| `Ranking.NoNewerPinPassedOver` | repo/apps/api/app/recommendations/engine.py:315-328 | a usable pin that does not count is no newer than any that does, and then as many count as allowed |
| `Ranking.PinIndexPoints` | repo/apps/api/app/api/routes/recommendations.py:393-395 | a target is indexed exactly when some pin names it, at the position of its last pin |
| `Ranking.PinnedIffNamed` | repo/apps/api/app/api/routes/recommendations.py:393-441 | a result is pinned exactly if a pin that counts names it, at its last pin's position, with its own score |
| `Ranking.BlockedNeverAppears` | repo/apps/api/app/recommendations/engine.py:349-351 | a blocked pair never appears, even when also allowlisted, if rules are enforced and a partner is given |
| `Ranking.EachSignalByItsOwnWeight` | repo/apps/api/app/api/routes/recommendations.py:114-130 | the score is the rounded blend by normalized weights: one changed signal moves it before rounding by its own normalized weight if its mode is enabled, not at all otherwise; no signals, no score |
| `Ranking.WeightsAreShares` | repo/apps/api/app/recommendations/engine.py:40-48 | each weight's own share of their sum, 0.5, 0.3 and 0.2 if that is not positive; the shares add up to one |
| `Ranking.ScalingWeightsChangesNothing` | repo/apps/api/app/recommendations/engine.py:40-48 | scaling all weights alike changes no recommendation |
| `Ranking.PairingAllowsDirectoryEntry` | repo/apps/api/app/recommendations/engine.py:331-356 | a block wins; an item with an allowlist takes nobody else |
| `Ranking.MayAppearIff` | repo/apps/api/app/recommendations/engine.py:331-356 | who may appear: shown by policy and, with rules enforced and a partner given, not blocked, and on the allowlist if the item has one |
| `Ranking.AlphabetByFirstDifference` | repo/apps/api/app/api/routes/recommendations.py:444-444 | names compare by their first differing character, a prefix coming first |
| `Ranking.IndexPins` | repo/apps/api/app/api/routes/recommendations.py:393-395 | the loop over the pins builds the index `PinIndexPoints` describes |
| `Ranking.Recommend` | repo/apps/api/app/api/routes/recommendations.py:397-445 | the filtering and scoring loop, the sort and the cut give the results the theorems are about |

## Left out

- Authorization, sessions, CSRF, password and code verification, encryption, hashing: library calls or short look-ups.
- CSV parsing: a file is not CSV, has no usable header, or is a table of stripped cells by column.
- Tenancy scopes, user ownership of orders, delivery-zone ids and the nulling of deleted addresses: look-ups outside the state machines.
- Deletion of directory entries and candidates whose row or target is gone: the pipeline itself deletes neither.
- A lasting "processed means nothing unresolved": undo does not touch the batch, so it is stated of apply's return only.
- Audit events and rotation stamps; `updated_at` is kept where ETA recalculation reads it, in `OrderCounter`.
- The read after a committed increment in `RateLimitRace`: it changes no table, so only `RateLimit` has it.
- Two handlers racing on the same order, and two runs over one queue storage at once: the code takes no lock there.
- How a new mutation is filled in before it is stored (id, times, status queued, no attempts): `Enqueue` takes it ready-made.
- Stored queue entries that are not mutations, which are dropped when the list is read.
- JSON text, compression and files of a backup, and its foreign-key closure.
- Tags, titles and contact masking of recommendation results: their number of matching tags and signal sums are inputs.
- Config inheritance and the cap on creating pins.
