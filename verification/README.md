# A model of the multi-version B+tree

The repository is an in-memory B+tree that keeps every version of every record. Writers descend with
optimistic latches and split full pages on the way; each key has a chain of versions; versions are drawn
from one counter, and readers ask a sharded commit clock for a version at which to read. The modules here
model these parts and prove what they promise.

| module | part of the system |
|---|---|
| `History` | the operations on one key and what replaying them up to a version shows: the reference for all chains |
| `Frugal` | the frugal skip list, an arena of nodes with random tower levels and wrapping level arithmetic |
| `Vanilla`, `VanillaReader` | the list of insert/delete intervals, and a reader that walks it while writers change it |
| `SkipIndex` | the skip-map variant, with delete versions packed under a marker bit |
| `Agreement` | the common interface of the three |
| `Latch`, `LatchBits`, `LatchRuns` | the latch word, its masks, its guards, and any number of clients sharing one |
| `Tree`, `InOrder` | pages, the invariants of the tree, searches and splits; the in-order sequence of records |
| `PageArrays` | pages as arrays shifted and cut in place |
| `MvIndex` | the index run by one thread: descents, inserts, updates, deletes and point reads |
| `TimeTravel` | chains and scans of the whole index at a version, against the replayed history |
| `Scans` | the lazy scan with its stack of fences, and the breadth-first scan |
| `LeafUnderflow` | merging and sharing the records of an underfull leaf |
| `Olc`, `OlcInv`, `OlcOthers`, `OlcSteps`, `OlcSplits`, `OlcMoves`, `OlcRuns` | any number of threads that insert, update and delete with optimistic latches; the machine, its invariant, the proof, and what holds in every run |
| `OlcOwned` | no latch is left behind; with that, the whole invariant |
| `OlcOnce`, `OlcEffects`, `OlcMissed` | which operations take effect and what readers see of them, and a run in which one does not |
| `OlcAlone` | an operation that is left alone is done, whatever has to be split on its way |
| `OlcLeafRoot`, `OlcBorrowed` | when the split of a leaf root is safe among several threads, and a run in which it is not |
| `Clock`, `ClockNeeds` | the commit clock, and the condition it needs |
| `Snapshots` | the threads of `Olc` and the clock together |

## How to read the main results

* `OlcRuns` is about every interleaving. One load, compare-and-swap or store of a latch word is one step. A
  page read returns the page if the guard is still valid at the end of the read, and anything at all if not.
  Guards carry the counter of the latch word; `Latch.WordOperations` ties that to the flags and the counter,
  and `LatchBits` packs those into 64 bits, without loss. Each block also carries its key range and height,
  which no operation reads.
* A run starts from any tree, a single leaf included, with all threads at rest. One step in the life of a tree
  is safe only under a condition: the split that turns a leaf root into an index root (`Olc.Clean`). Runs make it
  cleanly. Once the root is an index page the condition holds by itself.
* The threads rely on each other in one subtle point. A descent that has split a child may leave its parent
  full, and the next step must not split again. `OlcInv.KeepsAway` says why it need not: no other thread can
  have a good guard on the child that the descent is about to enter.
* A version returned by the clock is *settled*: no version up to it is being worked on, and none can be drawn
  any more. `Snapshots.SnapshotsStandStill` combines this with the runs of `Olc`.
* A record stands for its chain by the log of operations that built it. Point reads and scans build the chain of
  each record they meet from that log, operation by operation, and ask it (`Agreement.Look`). For the frugal list
  the answer is that of the replayed history; for the interval list below the largest version; for the skip map
  if it keeps up with the operations on the key.

## Where the code does not keep its promise

* `retrieve_root_internal` returns the old page after it has split a full leaf root, although the key may
  belong to the new right half. `MvIndex.MVBPlusTree.Insert` states exactly when an insert is good, and
  `MvIndex.AscendingInsertsGetLost` gives the smallest failing case. Among several threads,
  `OlcLeafRoot.LeafRootSplitIsSafeExactly` gives the same condition, for all continuations, provided that nobody
  else stands between loading the address of the root and latching the page; `OlcBorrowed` shows why not.
* An update or delete pins its leaf without comparing the word with the one it had latched. If the leaf was
  split meanwhile, the operation may miss a record that has been there all along (`OlcMissed`), and is lost.
  `OlcOnce.TakesEffectExactly` says exactly when: it suffices that the word is unchanged, and it is necessary
  and sufficient that the leaf still covers the key. Inserts are never lost: none comes to rest
  unapplied (`OlcOnce.AppliesBeforeRest`), and each counts once (`OlcOnce.EveryInsertCountsOnce`).
* The clock overlooks a thread that draws a version while its slot is not published, be it new or withdrawn
  after many reads in a row. `ClockNeeds.DrawIsSafeExactly` shows the condition to be necessary and sufficient.
* The skip map drops an append to a deleted record, which the other chains take as a new version; and it loses
  the top bit of large versions. `SkipIndex.AgreesExactlyWhenFits` is exact.
* The interval list marks a live entry with the largest version, so nothing is found at that version
  (`Vanilla.LargestVersionSeesNothing`), and a delete takes effect exactly below it (`Vanilla.DeleteTakesExactly`).
* Small pages split badly; `Tree.SplitsWellExactly` says which. The tree results are about the others.
* A delete of a key that was never inserted is reported as already deleted, and a delete of a deleted key as
  done, because `delete_key` maps the failed search to an error (node.rs:205-221). See
  `MvIndex.MVBPlusTree.Delete`.

## Model

| member | source | states |
|---|---|---|
| OlcRuns.InsertHoldsTheRightLeaf | src/mvb_crud_model/olc_query.rs:386-525 | from any tree, one leaf included, and in every interleaving of inserts, updates, deletes and splits in which a leaf root splits cleanly, the leaf an insert ends up with is write-latched by that thread alone, is the one leaf that covers the key, and holds fewer than NUM_RECORDS records |
| OlcRuns.EveryInterleavingKeepsTheTree | src/mvb_crud_model/olc_query.rs:466-510 | in every such interleaving the pages form a tree (order, fences, equal depth, sizes, no page but the root nearly empty), no thread comes to the underflow correction or reads past the arrays of a page, and no child is split into a parent that is full: a split step is never repeated |
| OlcLeafRoot.LeafRootSplitIsSafeExactly | src/mvb_crud_model/query.rs:300-369 | when an insert splits a leaf root and nobody else is about to latch it, then whatever any thread does next the tree stays a tree if and only if the key belongs to the left half |
| OlcBorrowed.BorrowedRootBreaksTree | src/mvb_crud_model/query.rs:188-197 | a run from one full leaf in which the splitting key does belong left, but another thread has loaded the address of the old root, latches it as the left leaf, and inserts a key that belongs right: the tree is lost |
| OlcRuns.TreeIsItsHistory | src/mvb_crud_model/dispatch.rs:60-157 | in every run the in-order records of the tree are what the operations that took effect so far, one after the other, make of the records at the start, whichever pages split |
| OlcOnce.EveryInsertCountsOnce | src/mvb_crud_model/dispatch.rs:60-104 | once an insert has been applied, it is in the history exactly once, then and in every later state of the run |
| OlcOnce.EventsComeFromThreads | src/mvb_crud_model/dispatch.rs:60-157 | nothing else is in the history: every event was applied by a thread that had drawn its version |
| OlcOnce.TakesEffectExactly | src/mvb_utils/smart_cell.rs:541-568 | in every run an update or delete affects a record if and only if the key has one and the pinned leaf still covers the key; if the word that was pinned is the word that was latched, the leaf does cover it |
| OlcOnce.FindsExactly | src/mvb_page_model/node.rs:205-240 | in the leaf in hand an update or delete finds a record if and only if the key has one anywhere and the leaf covers the key |
| OlcMissed.UpdateMissesMovedRecord | src/mvb_utils/smart_cell.rs:201-223 | a run in which an update of a key that has a record from beginning to end draws a version, pins the leaf after a split has moved the record away, and changes nothing |
| OlcRuns.StepIsAtomic | src/mvb_crud_model/query.rs:725-848 | of all steps of all threads, only the one that applies an operation changes the sequence of records, and it changes it as a write to a sorted list does; splits leave it alone |
| OlcRuns.ChainsAscend | src/mvb_crud_model/dispatch.rs:60-157 | in every interleaving the chain of a key holds exactly the operations applied to it, in order, with strictly increasing versions below the clock, even when splits have moved the chain to another leaf |
| OlcOwned.ActKeepsInv | src/mvb_crud_model/olc_query.rs:386-525 | every load, compare-and-swap and store of every thread, the split of a leaf root only if it is clean, keeps the invariant over pages, latches, guards and what the threads rely on; every latch that is not free is held, under its counter, by the thread it names |
| OlcOwned.ReachableInv | src/mvb_crud_model/olc_query.rs:366-383 | the invariant holds in every state of every run, retries included |
| OlcOwned.QuietIsUnlatched | src/mvb_utils/smart_cell.rs:946-987 | no latch is left behind: whenever all threads are at rest in a run, all latches are free |
| OlcEffects.AppliedIsVisible | src/mvb_crud_model/dispatch.rs:31-157 | in every run, after the step that applies a job: if it takes effect, every version from its own on shows an insert or update with its payload under its version, and shows nothing after a delete; every earlier version and every other key show what they showed before; if it does not, nothing changes; a key gains a record exactly by an insert |
| OlcOnce.AppliesBeforeRest | src/mvb_crud_model/olc_query.rs:366-383 | in every run, whatever is aborted and tried again, a thread that comes to rest has applied the job it took up, in one step; before it the job is pending, after it the thread only ends the commit and unlatches |
| OlcAlone.AloneFinishes | src/mvb_crud_model/olc_query.rs:386-525 | with all threads at rest, and unless the root is a full leaf with the key at or above that of its middle record, a thread that takes up a job and is left alone comes to rest again, through every split that is due; the job is applied under the version the clock showed exactly if it is an insert or the key has a record, and all latches are free |
| OlcOthers.OtherKeeps | src/mvb_utils/smart_cell.rs:233-239 | whatever a thread may rely on while its latch is valid, a step of another thread leaves it alone |
| OlcOthers.StepFits | src/mvb_crud_model/olc_query.rs:450-464 | a step that does its own part keeps the whole invariant: nobody gains a good guard on the child that the holder of a just filled page is about to enter |
| OlcSteps.SearchFinds | src/mvb_crud_model/olc_query.rs:417-436 | while the guard is good, the search finds a child that exists, is not the root, and covers the key |
| OlcSteps.LockChild | src/mvb_crud_model/olc_query.rs:471-478 | upgrading the child keeps the invariant: if the compare-and-swap succeeds the child is full and its parent is not, so the correction is a split |
| Tree.SplitLands | src/mvb_crud_model/query.rs:785-846 | after a split the key belongs to one of the two halves, and both have room |
| OlcSplits.SplitTheChild | src/mvb_crud_model/query.rs:725-848 | the split of a latched child keeps the invariant for all threads |
| OlcSplits.SplitTheRoot | src/mvb_crud_model/query.rs:241-299 | the split of a latched index root keeps the invariant for all threads |
| OlcSplits.SplitTheLeafRoot | src/mvb_crud_model/query.rs:300-369 | the clean split of a latched leaf root, which puts a new root above it, keeps the invariant for all threads |
| OlcSplits.WrittenLogs | src/mvb_crud_model/dispatch.rs:67-91 | applying an operation whose version was drawn under the latch keeps every chain of the leaf strictly increasing |
| Snapshots.SnapshotsStandStill | src/mvb_tree/clock.rs:222-234 | a version that a reader has obtained shows for every key, then and ever after, what had been applied to the key by then on top of what the tree held at first, wherever splits move the chains; and every insert that ever draws a version up to it had been applied by then |
| Snapshots.StepRespectsSettled | src/mvb_crud_model/dispatch.rs:60-104 | an operation that reaches its chain has a version beyond every settled one, so the answers at a settled version stay |
| Clock.ReadsAreSettled | src/mvb_tree/clock.rs:153-179 | although slots are read one at a time while others commit, no version up to a returned one is still being worked on, and none will ever be drawn |
| Clock.ReadsRise | src/mvb_tree/clock.rs:163-178 | a read that begins after another one returned does not return less, on the fast path or the slow one |
| Clock.MinimumRises | src/mvb_tree/clock.rs:173-174 | the global minimum never goes back |
| Clock.StepKeepsInv | src/mvb_tree/clock.rs:153-213 | every step of every reader and writer keeps the invariant of the clock |
| ClockNeeds.ReadAlone | src/mvb_tree/clock.rs:153-179 | a read that nobody interrupts returns the least of the time and all slots if slots have changed, or the minimum so far if that is more, and leaves it as the minimum with no change pending; else it returns the minimum so far |
| Snapshots.TreeStepsHere | src/mvb_tree/clock.rs:209-213 | the two state machines do not hold each other back: every step of a writer is a step of both, provided its slot is published when it draws |
| Clock.FreshThreadIsOverlooked | src/mvb_tree/clock.rs:116-118 | a run in which a thread with no published slot draws version 7 and a reader returns 8 while 7 is still being worked on |
| ClockNeeds.DrawIsSafeExactly | src/mvb_tree/clock.rs:209-213 | from a system at rest, some steady continuation returns a version past the one just drawn if and only if the thread that drew it had no published slot |
| Latch.WordOperations | src/mvb_utils/smart_cell.rs:169-305 | validation, borrowing, upgrade, pin and drop on the latch word do what the abstract latch (free, pinned, locked, obsolete, with its counter) says |
| LatchBits.PackInjective | src/mvb_utils/smart_cell.rs:253-263 | packing flags and counter into 64 bits loses nothing: a compare-and-swap of packed words compares every field |
| LatchBits.PackedOperations | src/mvb_utils/smart_cell.rs:169-239 | the flag tests, the clearing, setting and flipping of the pin, and the write flag act on the packed word as the operations on the fields do; the word of a marked cell is the obsolete flag alone |
| LatchBits.PackedWriteDone | src/mvb_utils/smart_cell.rs:291-295 | the store that ends a write section counts up by one and clears the write flag, as long as the counter has room below the flags |
| LatchBits.LastCounterPins | src/mvb_utils/smart_cell.rs:291-295 | at the last counter below the flags that same store leaves a cell that reads as pinned: the room is needed |
| Latch.WordReleases | src/mvb_utils/smart_cell.rs:946-987 | dropping or downgrading a writer frees the word under the next counter, a pin under the same counter; a downgraded guard is good on the free word; whoever holds nothing changes nothing |
| Latch.SmartGuard.UpgradeWriteLock | src/mvb_utils/smart_cell.rs:571-676 | a reader gets the lock exactly if no write section has begun since its guard was taken, nobody pins, and the weak compare-and-swap does not fail for no reason; then it owns the latch, and otherwise nothing changes; a guard that is no reader is answered true exactly if it is a writer |
| Latch.SmartGuard.UpgradeAppendLock | src/mvb_utils/smart_cell.rs:541-568 | a reader gets a pin exactly if the cell is free, however many write sections have ended since its guard was taken; a guard that is no reader is answered true exactly if it is a writer, and nothing changes |
| Latch.SmartGuard.DowngradeGuard | src/mvb_utils/smart_cell.rs:503-538 | a writer or pin becomes a valid reader of the free cell it leaves; a write section leaves no older latch valid, a pin leaves all as they were |
| Latch.SmartGuard.DropGuard | src/mvb_utils/smart_cell.rs:946-987 | what was held is free again, a marked cell too; a write section leaves no older latch valid, a pin or reader leaves all as they were, and the counter does not go back |
| Latch.SmartGuard.MarkAsObsolete | src/mvb_utils/smart_cell.rs:483-500 | only a writer marks its cell, still owns it, and loses no count; no latch becomes valid or invalid |
| Latch.SmartGuard.IsValid | src/mvb_utils/smart_cell.rs:704-714 | a reader is valid exactly if no write section has begun since its guard was taken; a writer or pin always is |
| Latch.SmartGuard.BorrowRead | src/mvb_utils/smart_cell.rs:862-871 | borrowing gives a reader guard exactly if nobody holds the cell for writing, and the guard is valid then, pinned or not |
| LatchRuns.AtMostOneHolder | src/mvb_utils/smart_cell.rs:241-295 | in every run at most one client holds a write lock or a pin |
| LatchRuns.NothingStaysHeld | src/mvb_utils/smart_cell.rs:946-987 | in every run, when no client holds a write lock or a pin, the word is free of both |
| LatchRuns.ActGrants | src/mvb_utils/smart_cell.rs:541-676 | what a step of a client grants: a lock exactly on the word it latched, a pin exactly on the word it loaded, a reader guard exactly when nobody writes; release and downgrade give it back |
| LatchRuns.CounterNeverGoesBack | src/mvb_utils/smart_cell.rs:291-305 | in every run the counter never goes back, also across the obsolete mark |
| LatchRuns.ValidMeansUndisturbed | src/mvb_utils/smart_cell.rs:233-263 | a reader latch that validates means no write section is open and none began since it was taken; if it also survives the upgrade, nobody pins either |
| LatchRuns.PinsInvalidateNoReader | src/mvb_utils/smart_cell.rs:201-231 | taking or releasing a pin leaves every reader latch as valid as it was |
| LatchRuns.ActKeepsInv | src/mvb_utils/smart_cell.rs:153-340 | every step of every client keeps word, flags, counter and guards in agreement |
| Tree.ChildCovers | src/mvb_crud_model/olc_query.rs:401-422 | the search with the saturating increment picks the covering child for every key, the largest included |
| Tree.SaturationIsSafeExactly | src/n_test.rs:25-31 | for any ascending separators, the saturating search is right for every key if and only if the largest key is not a separator |
| Tree.HalvesOk | src/mvb_crud_model/query.rs:785-846 | both halves of a full page are well formed, neither full nor underfull, for all page sizes and parities; joined they are the page, a leaf promotes the first key of its right half and an index page the key between its halves, and that key is strictly inside the range and never the largest |
| Tree.SplitChildKeepsTree | src/mvb_crud_model/query.rs:725-848 | splitting a full child under a parent with room keeps every invariant of the tree |
| Tree.SplitIndexRootKeepsTree | src/mvb_crud_model/query.rs:241-299 | splitting a full index root in place keeps every invariant of the tree |
| Tree.SplitLeafRootKeepsTree | src/mvb_crud_model/query.rs:300-366 | splitting a full leaf root under a new root keeps every invariant of the tree |
| Tree.SplitsWellExactly | src/mvb_crud_model/query.rs:737-769 | every full well-formed page, whatever blocks hold its children, splits well, and a page with one separator is allowed, if and only if FAN_OUT >= 5 and NUM_RECORDS >= 3 |
| Tree.UniqueParent | src/mvb_crud_model/query.rs:778-783 | a page has one parent and one position in it |
| Tree.LeafWriteKeepsTree | src/mvb_page_model/node.rs:205-270 | writing to a leaf within its range and size keeps every invariant of the tree |
| InOrder.SplitChildKeepsContents | src/mvb_crud_model/query.rs:725-848 | the split of a child leaves the in-order sequence of records unchanged |
| InOrder.SplitIndexRootKeepsContents | src/mvb_crud_model/query.rs:241-299 | the split of an index root leaves the in-order sequence of records unchanged |
| InOrder.SplitLeafRootKeepsContents | src/mvb_crud_model/query.rs:300-366 | the split of a leaf root leaves the in-order sequence of records unchanged |
| InOrder.LeafWriteIsSequenceWrite | src/mvb_page_model/node.rs:243-270 | writing to the leaf that covers the key is writing to the sorted sequence of all records |
| InOrder.CoveringLeafIsUnique | src/mvb_crud_model/olc_query.rs:401-422 | exactly one leaf covers a key, and the descent ends there |
| InOrder.PageWithin | src/mvb_crud_model/query.rs:878-905 | the records below a page ascend and lie between its separators |
| PageArrays.ShadowVec.Insert | src/mvb_utils/shadow_vec.rs:86-100 | shifting the tail of the array and writing the gap is insertion |
| PageArrays.ShadowVec.Remove | src/mvb_utils/shadow_vec.rs:56-74 | shifting the tail down is removal, and gives the removed element |
| PageArrays.ShadowVec.Pop | src/mvb_utils/shadow_vec.rs:48-54 | pop gives the last element and shortens the view |
| PageArrays.ShadowVec.Push | src/mvb_utils/shadow_vec.rs:76-84 | push writes behind the last element |
| PageArrays.ShadowVec.ExtendFromSlice | src/mvb_utils/shadow_vec.rs:102-116 | extending writes the slice behind the last element |
| PageArrays.InternalPage.InsertChild | src/mvb_crud_model/query.rs:771-783 | the two in-place inserts into the parent, with the length in slot 0 of the key array, put the separator at the position and the new child behind it |
| PageArrays.InternalPage.SplitOff | src/mvb_crud_model/query.rs:737-769 | the copies and length writes of an index split leave two halves that joined with the promoted key between them are the page |
| PageArrays.LeafPage.SplitOff | src/mvb_crud_model/query.rs:811-831 | the copy and length writes of a leaf split leave two halves that joined are the records, and promote the key of the middle record, the first of the right half |
| PageArrays.DoOverflowCorrection | src/mvb_crud_model/query.rs:725-848 | on the arrays of a full child and of its parent, the copies, length writes and in-place inserts leave the three pages that the split of the tree has, and that is a tree |
| PageArrays.SplitRootInPlace | src/mvb_crud_model/query.rs:241-299 | on the arrays of a full index root, the copies to two new pages and the writes to the root leave the three pages that the split of the tree has, and that is a tree |
| PageArrays.LeafPage.Write | src/mvb_page_model/node.rs:205-270 | insert, update and delete in the record array do to it what a write does to the sorted sequence, and report whether the record was there |
| PageArrays.LeafPage.Search | src/mvb_page_model/node.rs:249-252 | the binary search ends at the position of the key or where it belongs |
| MvIndex.MVBPlusTree.RetrieveRoot | src/mvb_crud_model/query.rs:185-370 | a full root is split and the records stay; the guard returned is the old page; for a full leaf root it covers the key if and only if the key lies below that of the middle record |
| MvIndex.MVBPlusTree.DoOverflowCorrection | src/mvb_crud_model/query.rs:725-848 | the split of a full child keeps tree and records |
| MvIndex.MVBPlusTree.TraversalWrite | src/mvb_crud_model/query.rs:851-971 | the insert descent keeps tree and records and ends at a leaf with room; the leaf covers the key if and only if the root was not a full leaf with the key to the right of its middle |
| MvIndex.MVBPlusTree.TraversalRead | src/mvb_crud_model/query.rs:992-1033 | the read descent ends at the covering leaf and changes nothing |
| MvIndex.MVBPlusTree.StartCommit | src/mvb_tree/clock.rs:209-213 | a drawn version lies beyond every version in the index, and below every version drawn later; the index stays valid |
| MvIndex.MVBPlusTree.Insert | src/mvb_crud_model/dispatch.rs:60-104 | an insert leaves an index that holds exactly its history, if and only if the root was not a full leaf with the key at or above that of its middle record |
| MvIndex.MVBPlusTree.Update | src/mvb_crud_model/dispatch.rs:105-158 | an update extends the history, and reports Updated if and only if the key was ever inserted, KeyDoesNotExist otherwise; where the descent does not land it is lost; the tree stays intact |
| MvIndex.MVBPlusTree.Delete | src/mvb_crud_model/dispatch.rs:31-59 | a delete extends the history, and reports Deleted if and only if the key was ever inserted, deleted since or not, KeyAlreadyDeleted otherwise, and never KeyDoesNotExist; where the descent does not land it is lost; the tree stays intact |
| MvIndex.MVBPlusTree.WriteExisting | src/mvb_page_model/node.rs:205-240 | in the covering leaf an update or delete is added to the history and finds a record if and only if the key was ever inserted; in any other leaf it finds nothing |
| MvIndex.InsertedHasRecord | src/mvb_page_model/node.rs:205-270 | a key has a record if and only if it was ever inserted |
| MvIndex.MVBPlusTree.Point | src/mvb_crud_model/dispatch.rs:159-215 | a point read at a version, descent and lookup in a chain of any kind that is built from the operations on the key with any coin tosses, returns what replaying those operations up to the version gives; for the skip map if it keeps up with them, for the interval list below the largest version |
| TimeTravel.RangeOverChains | src/mvb_crud_model/dispatch.rs:217-273 | a scan at a version, lazy or breadth-first, over chains of any kind, returns in ascending order exactly the keys of the interval, each with its payload, that are live when the operations on them are replayed up to the version; for the skip map if it keeps up with them, for the interval list below the largest version |
| TimeTravel.FindInChain | src/mvb_version_index/version_index.rs:137-358 | for every history, kind and coin sequence, the chain of a key, built operation by operation, answers at every version as the replayed history; with the same two exceptions |
| TimeTravel.SkipMapTravelsExactly | src/mvb_version_index/version_index.rs:137-337 | with skip maps every point read of a key is the replayed answer if and only if no update hits a deleted record and no version that closes one reaches the marker bit |
| TimeTravel.PastStandsStill | src/mvb_crud_model/dispatch.rs:31-157 | operations under later versions never change an answer at an earlier one |
| MvIndex.RecordsReplay | src/mvb_crud_model/dispatch.rs:31-157 | after any history, replaying the chain of a key is replaying the history of the key |
| MvIndex.WrittenLog | src/mvb_page_model/node.rs:205-270 | a write extends the chain of its own key and of no other |
| MvIndex.MisplacedBreaksTree | src/mvb_crud_model/query.rs:300-369 | an insert into a leaf that does not cover the key always breaks the tree |
| MvIndex.ExistingWrite | src/mvb_page_model/node.rs:205-240 | an update or delete never breaks the tree; outside the range of the leaf it finds nothing |
| MvIndex.AscendingInsertsGetLost | src/mvb_crud_model/query.rs:300-369 | a full leaf root with keys 1, 2, 3 and an insert of 4: the descent does not land |
| LeafUnderflow.LeafParent.DoUnderflowCorrection | src/mvb_crud_model/query.rs:398-583 | an underfull leaf that is not the last child is merged with its right neighbour, or shares with it: the joined records stay, the separators still part the leaves, and a share leaves both leaves strictly between the bounds; a parent with one separator collapses into a leaf if it is the root, and the code panics if it is not |
| LeafUnderflow.MergeIndex | src/mvb_crud_model/query.rs:415-452 | the candidate search picks the right neighbour |
| LeafUnderflow.MergeBy | src/mvb_crud_model/query.rs:494-500 | the merge by key of two neighbours is their concatenation |
| LeafUnderflow.JoinedMerged | src/mvb_crud_model/query.rs:502-518 | merging two neighbours leaves the sequence of all records as it was |
| LeafUnderflow.MergedParted | src/mvb_crud_model/query.rs:508-518 | without the separator between them, the separators still part the leaves |
| LeafUnderflow.SharedParted | src/mvb_crud_model/query.rs:546-580 | the first key of the right half is a separator |
| Scans.RangeQuery | src/mvb_crud_model/olc_query.rs:47-89 | on a quiescent tree the lazy scan, with lookups in chains of any kind, returns exactly the visible records of the interval, in order, and visits side by side the leaves from the one covering the lower bound to the one covering the upper; the lower bound strictly rises |
| Scans.NextLeafPage | src/mvb_crud_model/olc_query.rs:92-206 | climbing the stack of fences and descending again ends at the leaf that covers the next key, with a path whose fences are right |
| Scans.LeafResults | src/mvb_crud_model/olc_query.rs:209-290 | the slice between the two partition points, each record looked up in its chain, is the scan of the leaf |
| Scans.PartitionPoint | src/mvb_crud_model/olc_query.rs:242-243 | the partition point parts the records at the bound |
| Scans.TilesAreTheOverlapping | src/mvb_crud_model/olc_query.rs:60-86 | the visited leaves are exactly the leaves whose range meets the interval, each once |
| Scans.TraversalReadRange | src/mvb_crud_model/query.rs:1036-1092 | the leaves the breadth-first descent keeps hold everything the scan must see |
| Scans.OverlappingSuffice | src/mvb_crud_model/query.rs:1071-1085 | the children left out on either side cannot hold a record of the interval |
| Scans.LeafMatches | src/mvb_crud_model/dispatch.rs:255-271 | skipping, looking each record up in its chain, and stopping in one leaf is the scan of the leaf |
| Scans.RangeBreadthFirst | src/mvb_crud_model/dispatch.rs:248-273 | the breadth-first scan, with lookups in chains of any kind, returns exactly the visible records of the interval, in order |
| Scans.ScansAgree | src/mvb_crud_model/dispatch.rs:238-273 | both scans return the same list, ascending without duplicates, holding a record if and only if it is in the interval and visible |
| Scans.ScanHolds | src/mvb_crud_model/dispatch.rs:255-271 | the reference scan holds exactly the visible records of the interval |
| Scans.ScanRises | src/mvb_crud_model/dispatch.rs:255-271 | the reference scan is ascending and without duplicates |
| History.ReplayIgnoresLater | src/mvb_crud_model/dispatch.rs:60-157 | operations above a version never change what is visible at it |
| History.ReplayIsNewest | src/mvb_version_index/version_index.rs:137-181 | the newest operation at or below the version decides |
| Frugal.FrugalList.AppendTower | src/mvb_version_index/frugal.rs:181-207 | for every coin sequence the skip pointer of a new tower is the nearest older node at least as high, the walk ends, and it never runs past the sentinel |
| Frugal.FrugalList.AppendNext | src/mvb_version_index/frugal.rs:165-178 | a flat node points to the old head twice |
| Frugal.FrugalList.FindFrom | src/mvb_version_index/frugal.rs:210-226 | the search over skip pointers stops where the linear walk stops, for every version, hopping to a strictly older node each time |
| Frugal.FrugalList.Find | src/mvb_version_index/frugal.rs:229-231 | a lookup answers as the replayed history does |
| Frugal.FrugalList.Append | src/mvb_version_index/frugal.rs:153-162 | an append extends the history |
| Frugal.FrugalList.Push | src/mvb_version_index/frugal.rs:148-150 | a push extends the history |
| Frugal.FrugalList.Delete | src/mvb_version_index/frugal.rs:141-145 | a delete extends the history; on a deleted key it adds no node |
| Frugal.FrugalList.IsLive | src/mvb_version_index/frugal.rs:108-110 | live if and only if the history does not end in a delete |
| Frugal.FrugalList.Clone | src/mvb_version_index/frugal.rs:46-74 | the deep clone answers every lookup, with and without tombstones, as the original does, for any new coin tosses |
| Frugal.OnlyTheSentinelHasItsLevel | src/mvb_version_index/frugal.rs:189-203 | although the level arithmetic wraps, no inner node ever has the level of the sentinel |
| Frugal.WalkSkips | src/mvb_version_index/frugal.rs:215-221 | a hop over nodes that are all too new does not change where the linear walk ends |
| Frugal.FindIsReplay | src/mvb_version_index/frugal.rs:210-231 | the node at which the linear walk ends is the replayed answer |
| Vanilla.VersionList.Append | src/mvb_version_index/vanilla.rs:127-143 | for every new version, the largest included, an append closes a live head and prepends the new entry: the list is that of the extended history |
| Vanilla.VersionList.Push | src/mvb_version_index/vanilla.rs:122-124 | a push does what an append does |
| Vanilla.VersionList.Delete | src/mvb_version_index/vanilla.rs:146-153 | a delete closes the head if it is live: the list is that of the extended history |
| Vanilla.VersionList.Find | src/mvb_version_index/vanilla.rs:103-119 | for every history, the first covering entry is the replayed answer below the largest version; at the largest version nothing is ever found |
| Vanilla.VersionList.IsLive | src/mvb_version_index/vanilla.rs:156-158 | live if and only if the history does not end in a delete, where a delete at the largest version is not seen |
| Vanilla.EntriesOk | src/mvb_version_index/vanilla.rs:127-153 | the intervals of a chain are disjoint and ascend, and the head shows how the history ends |
| Vanilla.CoveringIsReplay | src/mvb_version_index/vanilla.rs:107-110 | an entry that covers the version is the replayed answer |
| Vanilla.UncoveredIsReplay | src/mvb_version_index/vanilla.rs:112-118 | if no entry covers the version, the replayed answer is none |
| Vanilla.LargestVersionSeesNothing | src/mvb_version_index/vanilla.rs:103-119 | no entry covers the largest version, although a live key has an answer there |
| Vanilla.DeleteTakesExactly | src/mvb_version_index/vanilla.rs:146-153 | a delete of a live key closes its head if and only if its version is below the largest one |
| VanillaReader.ConcurrentReadIsReplay | src/mvb_version_index/vanilla.rs:103-153 | a reader that walks the chain step by step, from when k operations are finished and while writers work above its snapshot, answers as those k operations replayed up to the snapshot, also between closing the old head and publishing the new one |
| VanillaReader.StoresMakeOperations | src/mvb_version_index/vanilla.rs:127-153 | in every run, whenever the writer rests, the list is the one that its finished operations leave behind, its newest entry published; between closing and publishing it lacks exactly the new entry |
| VanillaReader.OperationAlone | src/mvb_version_index/vanilla.rs:122-153 | from rest, the three stores of an append or push, and the one of a delete, make the list that of the history extended by the operation |
| VanillaReader.StoreKeepsInv | src/mvb_version_index/vanilla.rs:127-153 | every single store of a writer above the snapshot keeps the pending answer of the reader |
| SkipIndex.DelRoundTrip | src/mvb_record_model/version_info.rs:31-44 | packing and unpacking a delete version gives it back if and only if it is below the marker bit |
| SkipIndex.AgreesExactlyWhenFits | src/mvb_version_index/version_index.rs:137-337 | the skip map answers as the replayed history at every version if and only if no append hits a deleted record and no version that closes a record reaches the marker bit |
| SkipIndex.FitFindIsReplay | src/mvb_version_index/version_index.rs:144-160 | on such a history every lookup is the replayed answer |
| SkipIndex.MisfitLoses | src/mvb_version_index/version_index.rs:244-254 | on any other history there is a version at which the answers differ |
| SkipIndex.SkipList.Push | src/mvb_version_index/version_index.rs:190-200 | a push closes the last item if it is live and adds one |
| SkipIndex.SkipList.Append | src/mvb_version_index/version_index.rs:244-254 | an append to a deleted record is dropped |
| SkipIndex.SkipList.Delete | src/mvb_version_index/version_index.rs:297-311 | a delete closes the last item if it is live |
| SkipIndex.SkipList.Lookup | src/mvb_version_index/version_index.rs:144-160 | the newest item at or below the version answers, unless it was deleted by then |
| SkipIndex.SkipList.IsLive | src/mvb_version_index/version_index.rs:344-345 | live if and only if the history does not end in a delete, on histories the map keeps up with |
| Agreement.Compare | src/mvb_version_index/version_index.rs:138-358 | two indexes of any kinds, built by the same history with any coin tosses, agree on what is visible at every version and on liveness; the skip map on the histories it keeps up with, and all below the largest version |
| Agreement.Find | src/mvb_version_index/version_index.rs:138-181 | a lookup through the common interface is the replayed answer: always in a frugal list, below the largest version in an interval list, on the histories it keeps up with in a skip map |
| Agreement.IsLive | src/mvb_version_index/version_index.rs:340-358 | liveness through the common interface is that of the history, with the same exceptions |
| Agreement.Dispatch | src/mvb_version_index/version_index.rs:184-337 | push, append and delete through the common interface, at any new version, extend the history |

## Left out

- The field `Root.height`: splits do not update it (query.rs:238-239, 369). The model uses the real depth.
- Underflow and merging of index pages (query.rs:145-166, 441-445, 584-719), and underflow of the last child (query.rs:415-416 reads past the keys): these branches do not keep separators and children in step.
- LeafUnderflow.LeafParent.DoUnderflowCorrection: models the pages as sequences of records under one parent, without latches and without the new page addresses.
- Garbage collection (the SplitAndFilter split), which drops history on purpose.
- The clone of the interval list (vanilla.rs:61-75), which replays entries without the delete versions of newer ones.
- Concurrent point reads and concurrent scans: reads do not check the parent again after latching a child, and a pin is taken without comparing the word. `MvIndex` and `Scans` are about a tree that nobody changes meanwhile.
- Scans.RangeQuery: takes `lower <= upper`; the code has no branch for an empty interval. The retries after an invalid guard, and the latch that `update_read_latch` stores on scan parents, are not modelled.
- OlcRuns.InsertHoldsTheRightLeaf: runs start with all latches free at any counters and all threads at rest, and a leaf root splits cleanly (see above). The same goes for the other results over runs of `Olc` and `Snapshots`.
- Olc.Clean: asks for a key that stays left also of updates and deletes, which would merely miss their record. `borrow_read` (smart_cell.rs:862-871) clones the cell after it has read the latch word; the model takes the clone to be of the page whose word was read, as it is unless the root is replaced in between.
- Olc.Act: assumes that neither the clock nor a latch counter runs over (the counter stays below 2^61), and that page addresses are never reused.
- Latch.SmartGuard: its methods are the quiescent forms of steps that `LatchRuns` and `Olc` interleave.
- Snapshots.SnapshotsStandStill: holds for runs in which whoever draws a version has a published slot (see above), and for one tree in the process: GLOBAL_MIN and the slots are shared by all trees (clock.rs:20-40), each of which has a clock of its own, so with a second tree a read may return a version beyond its clock.
- MvIndex.MVBPlusTree.Point: the chain it reads is built at the read; it returns the entry with its version, where the code drops the version, and the branch without optimistic latches returns a default record instead of none.
- Weak memory orderings: every atomic access is taken as sequentially consistent.
- The vWeaver chains with their scan, the DexaBTree chains, and the inside of the external skip map (taken as an ordered map).
- The other latch flavours (free, mutex, reader-writer, hybrid, light-weight hybrid, hardware elision) and `OLCReaderPin`.
- PeekMin, PeekMax, PopMin and PopMax.
- Raw pointers, reference counts, freeing and dropping of payloads; the foreign-function interface, the benchmarks, the rate limiter and the configuration.
- Visit counts, lock levels and back-off between retries.
