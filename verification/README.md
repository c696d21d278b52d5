# tx_sender_module, modelled and proved in Dafny

`tx_sender_module` is the one sender of EVM transactions on a device. This project models the parts of it that decide
whether money is safe, in the form the Rust code has, and proves what they promise:

- **The send ledger** (`Reserver`, `Ledger`, `LedgerInvariant`, `LedgerRuns`, `DoorMeanings`, `SendLedger`). A nonce allocator and a state
  machine for bundles, behind one lock. `Ledgers` gives every door as a function or relation on values; the class
  `SendLedgers.SendLedger` updates its maps, sets and counters in place, method by method, loop by loop, and each method is
  proved to do exactly what its door says and to keep the invariant. The invariant is strictly stronger than what the
  running audit checks: the audit stays silent on a ledger that is about to sign twice at one number. `DoorMeanings` says of
  each door when it takes and what it changes, in terms of who holds which number.
- **Dispatches that interleave** (`Dispatch`, `DispatchProofs`, `Money`, `Hashes`, `Roots`). Any number of sends, polls and cancels,
  each critical section one event, with a ghost log of what may have left. Two sends leave at one number only when the later
  was pinned and names one that had left there before its claim opened. `Hashes` traces every hash to the one answer the node
  gave for that leg.
- **Rows on disk** (`Rows`, `RowRuns`, `Listing`, `Disk`, `Store`, `Migration`, `History`). The history of an account as files under key
  generations. The class `Histories.History` works on a `Disk` that may refuse any write and fail any read and that remembers every
  state it passed through, so every contract also speaks about a crash between any two steps. `RowRuns` follows rows over
  the whole life of an account.
- **Processes that die** (`Recovery`, `Availability`). Rows, ledger and dispatches together, over any number of processes and crashes.
- **`advance_send`** (`Advance`). The loop as it is written, over the ledger class and the history class, proved to be a path
  of the interleaved system that leaves nothing unrecorded, and to end as the node's replies say: which calls left, which legs
  and rows carry which hash, which row stays open and why, and the status of the send.
- **The gate cache** (`Gate`), **decimal amounts** (`Digits`, `Units`), **replacement fees** (`Replace`) and **time budgets**
  (`Budget`).

Four properties hold less widely than one might read them. Each has its exact condition here:

- The ledger's doors do not keep two sends off one number by themselves: nine doors without the order `advance_send` keeps end
  in a collision (`Money.TheDoorsAloneAllowACollision`). Call a holder a root when it names no send of the ledger: it replaces
  nothing, or a departed stranger. A door leaves every number one root if and only if it revives no root's leg, after its send
  gave the number back, at a number another root has by then (`Roots.ADoorIsSafeIffGuarded`). In a run of such doors, of two
  sends that left at one number, one took it over by name from a send that had left there (`Money.GuardedDoorsNeverCollide`).
- `adopt_orphans` takes a sidecar it cannot read for an empty one and then deletes it. A row only that sidecar holds survives
  what `Edit` and `Add` land, when the sidecar is removed, if and only if its read did not fail
  (`Store.ASidecarSurvivesAnEditIffItWasRead`, `Store.ASidecarSurvivesAnAddIffItWasRead`); `Store.AnUnreadSidecarIsLost` loses
  one. Elsewhere sidecars are assumed readable (`Store.SidecarsRead`).
- A mode subscription that is lost and armed again may still hold an `off` event from before, which then opens the gate wrongly
  (`Gates.AStaleEventOpensTheGate`). Arming is safe if and only if no undelivered event is a stale `off`
  (`Gates.AnArmIsSafeIffTheQueueIsCurrent`), and safe whatever the remote's modes are if and only if no chain's last
  undelivered event says `off` (`Gates.AnArmIsSafeWhateverTheTruthIffNoOffIsQueued`); an empty queue will do.
- The grants of a budget may sum to more than its total, because what a call leaves unspent is granted again
  (`Budget.EarlyReturnsAreGrantedAgain`). For given caps they never do if and only if the calls' grants, were each call the
  first, sum to at most the total (`Budget.GrantsFitIffTheyFitAtOnce`). What always fits is the time spent
  (`Budget.CallsFitTheTotal`).

Names follow the source. `Slot` is a (chain, account, nonce) triple, a number is a nonce, `Replacing` is the source's
`replaces`. A read that fails is an input (`refused`, the files whose reads fail during one call), and so is whether the disk
takes every write of a call (`accepts`); where it need not, any of them may be refused. What the node replies is an input too.

## Model

| member | source | states |
|---|---|---|
| Reserver.FreeRunIsTheLeastFree | rust-lib/src/send.rs:270-278 | a run increases, holds free numbers only, none below the reading, and leaves out no free number it could have taken |
| Reserver.LeastFreeIsUnique | rust-lib/src/send.rs:270-278 | only one number is free at or above a reading with nothing free between |
| Reserver.NonceReserver.Reserve | rust-lib/src/send.rs:270-278 | the scan ends, and returns and reserves the least number at or above the reading that is neither reserved nor spent |
| Reserver.NonceReserver.Hold | rust-lib/src/send.rs:283-287 | an exact number is taken if and only if it is neither reserved nor spent, and nothing else changes |
| Reserver.NonceReserver.MarkSpent | rust-lib/src/send.rs:290-295 | the number is burnt and reserved, and the answer says whether it was new |
| Reserver.NonceReserver.Outstanding | rust-lib/src/send.rs:330-332 | zero exactly when the account has no number out |
| Reserver.NonceReserver.Release | rust-lib/src/send.rs:299-312 | gives a number back unless it was ever spent; burnt numbers are untouched |
| LedgerInvariant.EveryDoorKeeps | rust-lib/src/send.rs:558-917 | every door with any arguments keeps the whole invariant: containment, spent within reserved, departed legs burnt, one unleft holder per number, every reservation accounted for |
| LedgerRuns.EveryRunKeeps | rust-lib/src/send.rs:408-495 | the invariant over all runs of any length, repeated ids and wild tickets included |
| LedgerRuns.TheAuditAloneMissesACollision | rust-lib/src/send.rs:418-463 | the audited condition is strictly weaker than one unleft holder per number |
| LedgerRuns.SpentGrowsAlong | rust-lib/src/send.rs:290-309 | what is burnt stays burnt along every run |
| LedgerRuns.ADepartedNumberIsNeverReissued | rust-lib/src/send.rs:564-594 | a number that may have left is in no claim an unpinned open ever returns afterwards |
| LedgerRuns.AnUnpinnedBundleTakesTheLeastFree | rust-lib/src/send.rs:564-594 | an unpinned bundle of k calls gets exactly the k least free numbers at or above the reading, in order |
| LedgerRuns.OpenBundlesAreDisjoint | rust-lib/src/send.rs:564-594 | two open claims of one account never share a number, in any run |
| LedgerRuns.ReservedIsSpentOrHeld | rust-lib/src/send.rs:878-917 | the reserved set lies between spent and held and those plus the stranded; with fresh ids it is exactly spent and held |
| LedgerRuns.NothingLeftNothingReserved | rust-lib/src/send.rs:596-625 | a run in which nothing left, nothing was seeded, no claim is open and every send ended without a broadcast reserves nothing |
| LedgerRuns.OnlyTheOwnerMovesAClaimedSend | rust-lib/src/send.rs:648-655 | after a broadcast is claimed no door but the ticket holder's changes the send, and a foreign settle or cancel changes nothing at all |
| LedgerRuns.ATerminalStatusIsOnlyCorrected | rust-lib/src/send.rs:798-828 | a terminal status changes only by a ticketed correction to a broadcast hash |
| LedgerRuns.AFailedBundleGivesBackWhatNeverLeft | rust-lib/src/send.rs:878-903 | a send that ends without a broadcast gives back an unleft leg's number exactly when nobody holds it and it was never spent, and keeps burnt what left |
| LedgerRuns.FinalStaysFinal | rust-lib/src/send.rs:205-228 | with time that never runs backwards a send reported final is final in every later state |
| DoorMeanings.AClaimedSendIsStuckAfterThreeMinutes | rust-lib/src/send.rs:205-224 | whatever happens after a broadcast was claimed, until it settles the send is reported `broadcasting` for 180 seconds and `stuck` from then on, and keeps that one ticket |
| DoorMeanings.WhatIsReported | rust-lib/src/send.rs:205-228 | each word is reported exactly of the sends it is meant for, and all but two of the words are final |
| DoorMeanings.WhatOpeningDoes | rust-lib/src/send.rs:564-594 | a claim is opened exactly for one to eight calls, pinned exactly for one while nobody has yet to leave at the number; which refusal is given when; a new claim, its numbers reserved, nothing else changed |
| DoorMeanings.WhatACommitDoes | rust-lib/src/send.rs:596-617 | the claim's numbers, account and name pass to a send that waits, nothing is freed or burnt, and exactly what an overwritten send still held in part is recorded as stranded |
| DoorMeanings.WhatAbandoningDoes | rust-lib/src/send.rs:619-625 | a dropped claim's numbers are out afterwards exactly while burnt or held |
| DoorMeanings.WhatAClaimDoes | rust-lib/src/send.rs:661-673 | which of the four answers is given when; a ticket above every one given before, the claim time as reported, nothing else changed |
| DoorMeanings.WhatLeavingDoes | rust-lib/src/send.rs:679-688 | under its ticket and no other an existing leg leaves: it alone is marked and its number burnt |
| DoorMeanings.WhatASettleDoes | rust-lib/src/send.rs:798-828 | a settle is written exactly for the owner or where nobody owns, on an unsettled send or as the ticketed correction; then the send's numbers are out exactly while burnt or held, and nothing else changed |
| DoorMeanings.WhatACancelDoes | rust-lib/src/send.rs:710-730 | when a cancel is accepted and why it is refused; the number of each call that had not left is out afterwards exactly if burnt before or held by another |
| SendLedgers.SendLedger.Open | rust-lib/src/send.rs:564-594 | the claim, its numbers and every refusal are those of the door, and the invariant is kept |
| SendLedgers.SendLedger.Pin | rust-lib/src/send.rs:842-873 | a free number is taken unnamed; one with an unleft holder is refused; any other is named by a send that left there, or as departed when none did |
| SendLedgers.SendLedger.Commit | rust-lib/src/send.rs:596-617 | a job with the claim's identity takes its place; what an overwritten id held is recorded as stranded |
| SendLedgers.SendLedger.Abandon | rust-lib/src/send.rs:619-625 | the claim goes, and exactly its unheld, unspent numbers come back |
| SendLedgers.SendLedger.Live | rust-lib/src/send.rs:633-643 | lists exactly the sends that are not final |
| SendLedgers.SendLedger.ClaimBroadcast | rust-lib/src/send.rs:661-673 | a ticket only for an unsettled send nobody is broadcasting |
| SendLedgers.SendLedger.Leaving | rust-lib/src/send.rs:679-688 | under the ticket the leg is marked and its number burnt; otherwise nothing changes |
| SendLedgers.SendLedger.Landed | rust-lib/src/send.rs:692-705 | a hash is taken exactly under the ticket and by a leg already gone, which then carries it |
| SendLedgers.SendLedger.Settle | rust-lib/src/send.rs:798-828 | the new ledger and the outcome are those of the door, for owners and everybody else |
| SendLedgers.SendLedger.ClaimCancel | rust-lib/src/send.rs:710-730 | accepted exactly for an unsettled send no broadcast owns; it answers the stored, cancelled send, whose numbers come back unless burnt or held by another; refused, nothing changes |
| SendLedgers.SendLedger.SeedSpent | rust-lib/src/send.rs:737-744 | burns every number given and answers how many were new |
| SendLedgers.SendLedger.SyncNonce | rust-lib/src/send.rs:878-889 | the loop over a job's legs burns what may have left and lets go of what nobody else holds |
| SendLedgers.SendLedger.Held | rust-lib/src/send.rs:907-917 | exactly the numbers of one account that somebody holds |
| SendLedgers.SendLedger.Violations | rust-lib/src/send.rs:418-463 | on any ledger, reachable or not, lists exactly the held numbers that are not reserved and the rival holders; empty if and only if the audited condition holds |
| SendLedgers.SendLedger.Audit | rust-lib/src/send.rs:469-495 | the repair always establishes containment, never shrinks, and leaves an audited ledger as it is |
| DispatchProofs.EveryEventKeeps | rust-lib/src/glue.rs:1293-1463 | every event of every dispatch keeps the invariant of the interleaved system |
| Money.EveryHistoryKeeps | rust-lib/src/glue.rs:1293-1463 | so does every interleaving of any length |
| Money.ALaterLeaverReplacesAnEarlierOne | rust-lib/src/send.rs:842-873 | two transactions that left at one number belong to different sends, and the later names one that had left there before its claim opened |
| Money.OneRootPerNumber | rust-lib/src/send.rs:842-873 | the leavers of a number form a tree whose one root is the first, unnamed or taking over a seeded number |
| Money.EveryLegLeavesAtMostOnce | rust-lib/src/glue.rs:1397-1452 | a leg is handed to the broadcast at most once, at its own number, and is marked exactly when it was |
| Money.BundlesLeaveInOrder | rust-lib/src/glue.rs:1397-1463 | departed legs are a prefix, all but possibly the last carry a hash, and a send settled as broadcast has every leg departed with a hash |
| Money.TheOwnerIsNeverRefused | rust-lib/src/glue.rs:1412-1417 | a poll that recorded a leg is never refused its number, and its settle is always written |
| Money.AnEndedSendNeverLeaves | rust-lib/src/glue.rs:1293-1463 | in every interleaving, of a send that ended before its broadcast was claimed no call was or will ever be handed over, and its status stays |
| Money.NothingLeavesAfterACancel | rust-lib/src/send.rs:706-730 | so it is from an accepted cancel on |
| Hashes.AHashIsTheNodesAnswer | rust-lib/src/glue.rs:1419-1449 | in every interleaving the hash a leg carries is what the node answered for that leg of that send, and not empty |
| Hashes.OneAnswerPerLeg | rust-lib/src/glue.rs:1397-1452 | no leg is answered for twice |
| Hashes.TheAnswerIsKept | rust-lib/src/send.rs:692-705 | what landed is what the leg carries ever after |
| Hashes.ABroadcastNamesItsLastHash | rust-lib/src/glue.rs:1452-1463 | a send settled as broadcast names the hash the node answered for its last leg |
| Money.TheDoorsAloneAllowACollision | rust-lib/src/send.rs:679-688 | nine doors with fresh ids, without the dispatch order, reach two unnamed sends that both left at one number |
| Roots.ADoorIsSafeIffGuarded | rust-lib/src/send.rs:661-705 | with fresh ids, any door with any ticket leaves every number one root, a holder that replaces nothing or a departed stranger, if and only if it revives no root's leg at a number another root has |
| Roots.GuardedRunsHaveOneRoot | rust-lib/src/send.rs:798-828 | so a run whose every door is guarded, or keeps the order of a broadcast, never gives a number two roots |
| Roots.NamesHaveLeftAlong | rust-lib/src/send.rs:842-873 | in every run, a send that replaces another by name has only numbers the other may have left at |
| Money.GuardedDoorsNeverCollide | rust-lib/src/send.rs:679-688 | in a guarded run, of two sends that may have left at one number one names another send that had left there |
| Advance.Dispatcher.AdvanceSend | rust-lib/src/glue.rs:1380-1463 | uninterrupted, the broadcast is a path of the interleaved system; the calls left in order up to the first without a hash; each answered leg carries its reply, and on a disk that takes the writes so does its row; the failing call's row stays open with the reason; the stored status is the one answered, a broadcast under the last hash exactly when every call was answered |
| Advance.Dispatcher.SendLeg | rust-lib/src/glue.rs:1397-1452 | a call's row is on disk before its number is burnt and its number is burnt before its bytes go; with a hash the leg carries it and, on a disk that takes the writes, the row is pending under it; without one the row stays unknown with the reason and the send fails |
| Advance.Dispatcher.TakeAnswer | rust-lib/src/glue.rs:1419-1449 | a reply with a hash is in the leg and in a pending row of its own since now; one without leaves the row unknown, with the reason, and fails the send with it |
| Rows.EveryChangeIsLawful | rust-lib/src/history.rs:674-697 | every change made to a stored row keeps its identity, never unsettles it, never unmines it and never changes a hash once set |
| Rows.UnknownBecomesPendingOnlyThroughItsProof | rust-lib/src/history.rs:376-382 | one change makes an unknown row pending exactly under its own request id and leg, and no other change does |
| RowRuns.UnknownEndsOnlyThroughItsProof | rust-lib/src/history.rs:674-684 | in every life of an account's rows, one that was unknown and no longer is was resolved in between under its own request id and leg |
| RowRuns.EveryStatusWasGiven | rust-lib/src/history.rs:879-912 | over a life, a row that became confirmed or failed was given a receipt of its own hash that says so; one that became pending its own outcome; one that became replaced a chain read of its hash or a winner under another; no step gives any other status |
| RowRuns.EveryOutcomeWasGiven | rust-lib/src/history.rs:652-684 | so every status but unknown was given by such a step since the row was recorded |
| RowRuns.DescendantsAreCarried | rust-lib/src/history.rs:625-647 | over any number of steps, merges and crashes a row keeps its identity, its settlement and its hash |
| RowRuns.EveryRowWasAnIntent | rust-lib/src/history.rs:652-670 | every stored row descends from an intent that was recorded |
| RowRuns.EveryNameIsMined | rust-lib/src/history.rs:919-945 | in every life of an account's rows, every name on a replaced row is that of a mined row at its number, although winners are listed before they are applied |
| RowRuns.AnEditIsAMove | rust-lib/src/history.rs:625-647 | what an edit that landed leaves readable is one such step, whichever absorbed sidecars are still there |
| RowRuns.AnAddIsAMove | rust-lib/src/history.rs:592-607 | and so is what a row added to the account file leaves |
| RowRuns.AddingBesideIsAMove | rust-lib/src/history.rs:534-541 | and what a row added in a sidecar leaves |
| Rows.WinnersAreMined | rust-lib/src/history.rs:920-923 | the winners are, for exactly the numbers a mined row holds, the hash of a mined row there |
| Rows.TheLastListedWins | rust-lib/src/history.rs:920-923 | of several mined rows at one number the last in the list is the winner |
| Rows.NoPendingRowAtAMinedNumber | rust-lib/src/history.rs:919-945 | with distinct hashes no pending row shares its chain and nonce with a mined one after a pass |
| Rows.SupersededNamesAreMined | rust-lib/src/history.rs:919-945 | one pass writes no name but that of a mined row at the same number, where those already there were such names |
| Rows.ASecondPassMovesNothing | rust-lib/src/history.rs:919-945 | a second pass touches no row, whichever of several mined rows it takes for a winner |
| Rows.ReceiptsKeepNames | rust-lib/src/history.rs:879-912 | a receipt never makes the winner that a replaced row names anything but a mined row at that number |
| Rows.ChainReadsKeepNames | rust-lib/src/history.rs:949-964 | settling a row on a chain read keeps every recorded winner a mined row |
| Disks.Disk.WritePrivate | rust-lib/src/history.rs:978-985 | a write touches no other file in any state it passes through, and leaves the whole content when it succeeds |
| Histories.History.WriteThenRename | rust-lib/src/history.rs:970-976 | in every state on the way the target has its old content or all of the new, and at most a staged file beside it changes |
| Histories.History.AdoptSidecars | rust-lib/src/history.rs:546-552 | yields exactly the rows of the sidecars that could be read, and names every sidecar for removal |
| Histories.History.LandRows | rust-lib/src/history.rs:610-618 | sidecars go only once the merged list is there, and all of them when the disk takes it; a refused write changes no history |
| Histories.History.WriteSidecar | rust-lib/src/history.rs:534-541 | a row beside an unreadable account file is readable afterwards, no state on the way loses a row, and only a refused write fails |
| Histories.History.Add | rust-lib/src/history.rs:592-607 | true means the row is in front of all rows that could be read, or in a new sidecar when the account file could not be; bytes that were no history are kept aside; no state on the way loses another row; an open account on a disk that takes the writes answers true |
| Histories.History.Edit | rust-lib/src/history.rs:625-647 | it fails only when the account is closed, its file does not read or a write is refused; landed means every row that could be read is there, changed, and, when all writes were taken, no other; otherwise no history changed; no state on the way loses a row |
| Histories.History.RecordIntent | rust-lib/src/history.rs:652-670 | success means the intent row of the leg, unknown and without a hash, is readable on disk and holds its number; it fails only for a closed account or a refused write |
| Histories.History.ResolveBroadcast | rust-lib/src/history.rs:674-684 | landed means the leg's rows are pending under the hash as of now and the others as they were; a disk that takes the write lands it whenever a row still waits for the outcome |
| Histories.History.LeaveUnknown | rust-lib/src/history.rs:689-697 | landed means the leg's rows are still unknown on disk and carry the reason, and the others are as they were; a disk that takes the write lands it whenever such a row can be read |
| Histories.History.List | rust-lib/src/history.rs:575-585 | the records that can be read now, each as often as it is stored, by time and then leg, newest first |
| Listing.SortedIsTheListInOrder | rust-lib/src/history.rs:583-584 | sorting keeps every record as often as it was there and puts the newest first |
| Histories.History.UnsettledNonces | rust-lib/src/history.rs:721-738 | exactly the numbers of unsettled rows in every file, of any kind, that one of the keys names and opens |
| Histories.History.SettleSuperseded | rust-lib/src/history.rs:919-945 | winners are stored mined rows; the rows pending at their numbers under another hash are replaced on disk and name them, as do those replaced by nobody known; the answer lists exactly the hashes of those that moved |
| Histories.History.ApplyReceipt | rust-lib/src/history.rs:879-912 | every row of the hash is confirmed for `0x1`, failed for any other word and unmoved without one, polled now, and the others are as they were; true exactly when a stored status moved; an empty hash touches nothing |
| Histories.History.SettleReplaced | rust-lib/src/history.rs:949-964 | exactly the pending rows of the hash are replaced, polled now; true exactly when there was one |
| Histories.History.Migrate | rust-lib/src/history.rs:809-829 | every state on the way keeps a copy of everything that opens and no two copies that disagree; success means the source is gone, and bytes its key does not open are set aside; only a refused read or write fails |
| Histories.History.Open | rust-lib/src/history.rs:770-795 | the same over all older keys and the one that was open; success leaves everything under the current key, failure leaves the account closed; only a refused read or write fails |
| Histories.History.Close | rust-lib/src/history.rs:832-834 | the account is closed |
| Store.ASidecarSurvivesAnEditIffItWasRead | rust-lib/src/history.rs:625-647 | a row only a sidecar holds survives an edit after which the sidecar is gone if and only if the sidecar's read did not fail |
| Store.ASidecarSurvivesAnAddIffItWasRead | rust-lib/src/history.rs:592-607 | and likewise an added row |
| Store.AnUnreadSidecarIsLost | rust-lib/src/history.rs:546-552 | a directory from which adding a row loses another |
| Store.MergePreserves | rust-lib/src/history.rs:592-618 | a merged account file that carries every row loses none of them |
| Store.NoRowIsEverLost | rust-lib/src/history.rs:592-644 | over any sequence of states each of which preserves the last, a stored row stays stored, further along its life at most |
| Migration.AnyNumberOfPartialMoves | rust-lib/src/history.rs:770-829 | any number of opens that finished, failed or crashed, under any keys, keep copies and agreement from first to last |
| Migration.ACompletedMoveIsWhole | rust-lib/src/history.rs:770-795 | one that completes leaves exactly one copy of every suffix that ever opened, under the current name, rows unchanged |
| Migration.TheNextMoveIsReady | rust-lib/src/history.rs:770-795 | however work, moves and crashes follow one another, the next open finds no two copies that disagree |
| Migration.MovingPreserves | rust-lib/src/history.rs:809-829 | a move loses no row and invents none |
| Recovery.EveryLifeKeeps | rust-lib/src/glue.rs:354-393 | the invariant that ties disk, ledger and log over any number of processes and crashes |
| Recovery.NothingLeavesUnrecorded | rust-lib/src/history.rs:652-670 | whatever may have left, under any process, has its row on disk |
| Recovery.ACrashNeverFreesANumber | rust-lib/src/glue.rs:382-386 | two transactions at one number under different processes: the later was pinned, or the earlier's row had settled in every copy when the later's process unlocked |
| Recovery.ACrashNeverFreedANumber | rust-lib/src/glue.rs:382-386 | the same between any two processes that ended |
| Recovery.AnOpenRowBlocksTheNumber | rust-lib/src/send.rs:737-744 | a number whose row was still open at the unlock is in no claim an unpinned open returns in that process |
| Availability.ANumberIsOutIffSomethingHoldsIt | rust-lib/src/send.rs:737-744 | in every state of every process a number is out if and only if an unlock of that process found it open on disk, its bytes may have left under the process, or a send of the process holds it |
| Availability.ANumberWithoutARowIsFreeAgain | rust-lib/src/history.rs:721-738 | and a number of which none is true is what the next open at it takes |
| Gates.ModeCache.FeedLive | rust-lib/src/gate.rs:99-105 | every gate asks and every ticket out is stale; live unless latched cold |
| Gates.ModeCache.NoStatusChannel | rust-lib/src/gate.rs:110-117 | every gate asks, and the cache is cold |
| Gates.ModeCache.FeedDead | rust-lib/src/gate.rs:125-131 | every gate asks and the cache is dark |
| Gates.ModeCache.Invalidate | rust-lib/src/gate.rs:164-169 | the chain asks, the others are as they were, every ticket out is stale |
| Gates.ModeCache.Learned | rust-lib/src/gate.rs:144-151 | a read whose ticket is not current, or that lands in the dark, changes nothing; else its chain is open exactly when the mode is off |
| Gates.ModeCache.Told | rust-lib/src/gate.rs:154-159 | the chain is open exactly when the cache is live and the mode is off, the others are as they were, every ticket out is stale |
| Gates.AnOpenGateIsRightOrAboutToClose | rust-lib/src/gate.rs:133-177 | if the gate is open and the remote mode is not off, the event that says so is still undelivered, in every run whose arms find no `off` queued |
| Gates.DrainedArmsAreClean | rust-lib/src/glue.rs:236-257 | an arm at an empty queue, as after a new subscription, is one of those |
| Gates.AStaleEventOpensTheGate | rust-lib/src/glue.rs:203-226 | a run from the start that ends with an open gate, a mode that is not off and nothing undelivered |
| Gates.AnArmIsSafeWhateverTheTruthIffNoOffIsQueued | rust-lib/src/glue.rs:203-226 | whatever the remote's modes are, what follows an arm is safe if and only if no chain's last undelivered event says `off` |
| Gates.ColdIsForGood | rust-lib/src/gate.rs:110-118 | after the latch no run ever opens a gate again |
| Gates.AnOvertakenReadIsDropped | rust-lib/src/gate.rs:138-151 | in every run, an answer changes nothing in the cache when the feed armed, died or was renewed, a mode was announced or a configuration changed after its read was sent |
| Gates.AnArmIsSafeIffTheQueueIsCurrent | rust-lib/src/glue.rs:203-226 | whatever follows an arm is safe if and only if no undelivered event is a stale `off` |
| Units.ParseUnits | rust-lib/src/units.rs:28-62 | the loop-built digit buffer reads as what the input means |
| Units.WhatIsRead | rust-lib/src/units.rs:28-62 | on the characters as typed: an amount v is read exactly when spaces, digits, at most one point, digits and spaces were typed, with a digit, no more fraction digits than allowed, and all digits shifted are v, below 2 to the 256th |
| Units.WhatIsRefused | rust-lib/src/units.rs:28-62 | and each of the five refusals has its own condition on those characters, the last being none of the others |
| Units.FormatExact | rust-lib/src/units.rs:76-91 | the padded and trimmed buffer is the canonical numeral of the value |
| Units.WhatIsWritten | rust-lib/src/units.rs:64-105 | both renderings refuse exactly what is not digits between spaces, the bounded one also what does not fit 256 bits |
| Units.ReadingUndoesWriting | rust-lib/src/units.rs:28-91 | writing base units in full and reading them back gives them back, for every value below 2^256 and any number of decimals |
| Units.WritingNormalises | rust-lib/src/units.rs:28-91 | writing what was read gives the typed digits back without needless zeros |
| Units.TheDisplayIsFaithful | rust-lib/src/units.rs:97-116 | `0` for zero only, the dust marker exactly for what is below the resolution, and otherwise a numeral at most the amount and less than one last place below it |
| Replace.TheFloorIsTheMaximum | rust-lib/src/replace.rs:24-34 | the floor is the attained pointwise maximum over the rows still open at the number, and absent exactly when there is none |
| Replace.ABumpIsTheLeastTenthMore | rust-lib/src/replace.rs:42-44 | a bump is exactly the least fee more than a tenth above; only saturation lets the largest fee pass without being so |
| Replace.RaiseIsOptimal | rust-lib/src/replace.rs:48-75 | raising fails exactly when no admissible pair exists, over a field that was set below its bump or a tip above the set fee, and otherwise gives the least admissible pair at or above the suggestion in both fields |
| Replace.ARaisedSendOutbidsThemAll | rust-lib/src/replace.rs:24-75 | the fees of a raised send exceed every open attempt's by more than a tenth, in both fields |
| Budget.CallsFitTheTotal | rust-lib/src/budget.rs:183-186 | the time spent in any sequence of calls that keep to their grants is at most what was left at the first |
| Budget.GrantsSpentInFullFit | rust-lib/src/budget.rs:181-186 | grants that are spent in full sum to at most the total |
| Budget.GrantsFitIffTheyFitAtOnce | rust-lib/src/budget.rs:181-186 | for given caps, the grants of all calls sum to at most the total, however long each takes, if and only if they do when every call comes back at once |
| Budget.EarlyReturnsAreGrantedAgain | rust-lib/src/budget.rs:181-186 | two calls that come back at once are granted twice the total, for every total large enough to be granted |
| Budget.LaterStepsAreWholeIffTheFloorFits | rust-lib/src/budget.rs:107-110 | with no reprice, balance, nonce and approval get their whole allowances if and only if the fee pass started with its floor and all of theirs left, for every round trip and leg count |
| Budget.TheFeeGrantIsTheGreatest | rust-lib/src/budget.rs:107-110 | where the floor fits beside the later steps, the fee pass is granted the greatest amount it can use that leaves them whole; where it does not, the floor or all that is left, and nothing when one read does not fit |
| Budget.ASliceIsTheMostThereIs | rust-lib/src/budget.rs:183-186 | a grant is the most that is left and allowed, and refused exactly below 50 ms |
| Budget.AWholeGrantIsTheMostThereIs | rust-lib/src/budget.rs:173-179 | and the grant that must be whole is refused, with what was left, exactly when less than it needs was left |

## Left out

- Calls to other modules, their JSON and their error sentences: a reply is an input or a nondeterministic result; the route of a broadcast is an input, and a failure carries a short reason.
- Sealing, HMAC names and key material: a box opens exactly under the generation and landing name it was sealed for, and holds rows when it opens.
- The bytes of a row and of an opaque entry: an opaque entry is carried along as it is, and a file that opens is taken to hold well-formed rows.
- Real clocks, threads, mutexes and poisoning: each ledger or history door is one critical section, and time is a number that never decreases.
- Job payload (recipients, data, gas limits, labels, receipts, origin) and send events: they take no part in who holds a number.
- Overflow of a 64-bit nonce, leg, claim, ticket or generation counter, and of a 32-bit leg count: they are naturals.
- Address normalisation: an account is a chain and an address already in one spelling; a row's address is the one its files are kept under.
- Which of several departed sends a pin names: the map's own order, so `Ledgers.Opens` leaves it open.
- Request ids are fresh within a process, drafts are those a send request builds (nothing left, nothing decided, one leg per number), and sidecar and staged file numbers are never used twice.
- Advance.Dispatcher.AdvanceSend: follows one poll that nobody interrupts, from its claim on; interleaving is in `Dispatch`, whose events are its critical sections, because a method cannot be interrupted.
- Histories.History.Add: bytes set aside as unreadable are kept by that call, but may overwrite older ones set aside in the same second.
- Histories.History.Open: older keys are taken one after the other, newest first, but the files of one key in any order; creating the directory and its permissions are not modelled.
- `wanted` and the asking for keys: every older generation whose files exist is taken to be among the keys given (`Recovery.AllHeld`, and the last clause of `Open`).
- `find` and `pending_due`: filters over the listed rows.
- The poll schedule (`poll_interval_secs`, `is_due`, `is_live`), `status_channel` and `round_trip`: lookups that would only add easy members.
- Receipts, sweep reports, details, failures, verdicts, chains and transaction building: decoding and rendering.
- The order of subscriptions in `arm_gate` beyond what the cache sees: while the feed is live every mode change is announced, in order, and in the dark it may or may not be.
- Budget.LaterStepsAreWholeIffTheFloorFits: a reprice in between is not counted, and the gate and configuration reads before the fee pass are the time already elapsed.
