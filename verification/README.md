# Evering in Dafny

Evering is a crash-recoverable core for inter-process communication through shared memory: a lock-free ring queue, a
boundary-tag heap, a transactional directory of layouts, a pool of transferable blocks, channels with two roles, and
the reaping of dead participants. This project models those parts and proves what every interleaving, every run and
every crash followed by repair keeps. `dafny verify dfyconfig.toml` checks all of it.

## What is modelled

- **Queue** (`ControlWord`, `LapCursor`, `Ring*`). A step system with one step per atomic access, any number of
  threads and any capacity. Positions are natural numbers; `LapCursor` proves that the stored wrapping words compute
  the same things for every capacity while fewer than half the word range is in flight. `log`, `delivered`, `taken`
  and `holder` are history no step reads. `RingValues` follows a caller's value from staging to taking in every
  interleaving; `RingAlone` gives the sequential queue a thread meets on a ring at rest.
- **Repair** (`Repair`, `RepairPoints`, `RepairRuns`) of one slot by successive repairers, cut after any of its stores,
  and of what a thread leaves that dies between any two atomic accesses of a queue operation.
- **Transfer** (`Transfer*`). Queue and pool together at the level of guard operations: `reserve`, `claim` and
  recycling are single steps, the pool's exchanges are steps of their own, so deaths fall between detach and publish,
  between takeover and take, inside the draining of a queue that closes, and inside a repair. A slot number is given
  out again only when no shared word names it. `TransferAlone` gives what undisturbed operations come to.
- **Pool** (`PoolWord`, `PoolGeometry`, `PoolClaim`). Authority words, the layout with its binary search, and claiming
  against others who allocate and release between the accesses.
- **Heap** (`Talc*`). Memory is an array of words; the tiling by chunks and the lists are ghost state tied to it word
  by word. Addresses are in units of eight bytes. A link takes one modelled word holding eight times the address, zero
  for none, and the cell of a bin keeps two words. The availability words are a typed field instead of words of the
  arena. Stored numbers are not bounded. The branch of `claim` for an arena that is all metadata is dead under a
  validated geometry (`TalcAlloc.ClaimRoom`).
- **Directory** (`Directory`, `DirectoryRuns`). A class whose methods make the source's durable stores in order; a call
  begins with its claim of the transaction. Every method takes a `World`: when the caller may die, `case w.mayDie =>
  return Crashed` after each store is a death there, so every contract speaks about all of them; when it may not, the
  call comes to an answer. Unless the caller is alone, others take, free or poison the heap before every look at it by a
  caller who does not hold it, and join and leave layouts before a close (`Others`, `Meanwhile`); what is promised exactly is
  promised to a caller alone, the rest to everyone. `why` says what keeps each allocated block.
- **Roles and participants** (`Roles`, `Participants`). Adopters, removers, inviters, deaths and recoveries of a channel
  interleave step by step; joining runs against any exchanges of others.
- **Reaping** (`Reap`, `ReapSteps`). Between any two accesses of the reaper everyone else may change every word, create
  layouts and remove them, as long as no word comes to name the dead participant; `ReapSteps` proves that no step of
  the queue, of ownership transfer or of the roles writes another number than the actor's own or one already there.
  Under that alone the first scan already leaves nothing that names the dead participant and the second
  (src/session.rs:222) finds nothing to do; a scan's guarantee (`Reap.Session.Scan`) is the whole of it.
- **Waiting** (`Notify`) and the **allocation-trace simulator** (`TraceReplay`). `Common` holds what modules share.

What a heap answers to an allocation, whether a header is admitted, whether a record check passes, and what a queue
answers to a waiter are parameters or arbitrary choices. Memory is sequentially consistent.

## Where the code falls short of the property

Each is stated with its exact condition, read off the state or the inputs beforehand, and with runs that show it.

- `quarantine` ends its transaction inside `debug_assert!` (src/dir.rs:918). A settled recovery leaves the directory
  between transactions if and only if debug assertions are on or the state it finds is not one it quarantines
  (`Directory.Region.Quarantines`, used in `Directory.Region.Recover`). Otherwise the recovering participant keeps the
  transaction. For a creation its next `create_in` rolls it back (src/dir.rs:290-296): a layout that was already
  published is freed, its entry goes back one generation, and its identity is handed out again
  (`DirectoryRuns.SameIdentityTwice`). For a removal or a reservation every later operation is refused as busy.
- Recovery of a closed removal frees the block while the entry still says CLOSING (src/dir.rs:701-710). Everywhere
  else the recovering participant may itself die and the next recovery starts over; its death there is the answer
  `HaltedFreeing`, and the next recovery comes to the same free with the heap torn or the block gone
  (`Directory.Region.FreeTwice`, `DirectoryRuns.SameBlockTwice`).
- `clear_dead_owner` and the reading after it fails are two accesses (src/dir.rs:684-689, src/dir.rs:719-724): recovery of
  a removal found closing or released panics exactly when another participant had the heap at the first and nobody had
  it at the second (`Directory.Region.Recover`). Undisturbed it never does. It leaves everything for the next attempt.
  `DirectoryRuns.PanicAfterRelease` and `DirectoryRuns.PanicAfterClose` are such runs.
- A repair that dies between storing the turn and storing the control word (src/queue.rs:514-517) can make the claimed
  record reappear one lap later, exactly when the head has come round to it (`Repair.HalfRecycleReopens`), which it has
  in some run at every capacity (`RepairRuns.ClaimReopened`).
- A thread that dies inside `reserve` or `claim` with a slot whose turn is not the current cursor, or between the two
  stores of recycling once the head has come round, is not undone: the repair reports corruption, frees a record that
  was not claimed, or offers the slot again. At every other point it leaves exactly what undoing would
  (`RepairPoints.RepairUndoesExactly`). The first two happen in some run exactly when the ring has two slots or more
  (`RepairRuns.ReservationsUncleanIff`, `RepairRuns.ClaimsUncleanIff`), the third at every capacity
  (`RepairRuns.UncleanFree`).
- The trace simulator's bound is never stricter than the fixed classes at the first difference, as long as no
  reservation takes an id that is live (`TraceReplay.FirstDivergence`). The first that does can be continued to a
  reversed difference, and only such a one can (`TraceReplay.ReuseDecides`).
- Waiters sharing one readiness flag can lose a wakeup exactly when there are two or more (`Notify.LostIffShared`).

## Model

| member | source | states |
|---|---|---|
| ControlWord.DecodeEncode | src/queue.rs:53-77 | Every valid slot control encodes to a canonical 16-bit word and decodes back to itself |
| ControlWord.EncodeDecode | src/queue.rs:61-77 | Every canonical word is the encoding of exactly the valid control it decodes to |
| LapCursor.WordIndexIsIndex | src/queue.rs:240-243 | For every capacity, also non-powers of two, the masked index of a stored cursor is the position modulo the capacity |
| LapCursor.WordNextIsNext | src/queue.rs:244-248 | The successor computed on a stored cursor is the stored form of the next position, across lap ends and word wrap-around |
| LapCursor.WordNextLap | src/queue.rs:262 | Adding one lap to a stored cursor is the stored form of the position one capacity later |
| LapCursor.WordDistance | src/queue.rs:484-494 | The wrapping distance of stored cursors up to two capacities apart is the true distance |
| LapCursor.WordOrder | src/queue.rs:483-516 | Stored cursors are equal exactly for equal positions, and their wrapping distance is in the lower half exactly when the first is not behind |
| LapCursor.CursorClosedForm | src/channel.rs:288-308 | The unbounded cursor is laps times the lap width plus the index |
| LapCursor.IndexInjective | src/queue.rs:242 | Positions less than a capacity apart use different slots |
| RingSteps.StepInv | src/queue.rs:112-416 | Every atomic step of any thread in reserve, the guards, claim, recycle, close and terminal keeps the ring invariant |
| RingSteps.RunInv | src/queue.rs:232-352 | The invariant holds after every schedule of any number of threads from the empty ring of any capacity |
| RingTheorems.StepRefines | src/queue.rs:232-352 | Every step is a step of the abstract bounded queue (reserve, resolve, consume in order) or leaves it unchanged, and bytes change only under the slot's holder |
| RingTheorems.BoundedFifo | src/queue.rs:232-352 | In every interleaving head <= tail <= head + capacity and the claimed values are exactly the published ones of the claimed positions in tail order; that a published value is its caller's is `RingValues.PublishedArrives` |
| RingTheorems.ExclusiveSlots | src/queue.rs:249-271 | No two threads ever hold the same slot |
| RingTheorems.BytesNeedTheSlot | src/queue.rs:112-205 | A slot's bytes are written, moved out or dropped only by the thread holding it |
| RingTheorems.CommitNeverFails | src/queue.rs:276-283 | A cursor exchange whose recheck passed always succeeds, for both cursors |
| RingTheorems.TakeIsExactlyOnce | src/queue.rs:187-205 | A claimed record has not been taken before, and taking it yields the value published at that position |
| RingTheorems.HistoryIsStable | src/queue.rs:112-205 | Resolved positions keep their fate and taken records their bytes in every later state of every run |
| RingTheorems.FullIsExact | src/queue.rs:260-266 | Full is answered exactly when the ring is full at the second cursor load and the first load was current |
| RingTheorems.EmptyIsExact | src/queue.rs:294-314 | Empty is answered exactly when the ring is empty at the second cursor load and the first load was current |
| RingTheorems.FullBlocksAcquire | src/queue.rs:250-259 | In a full ring a reserver with a current tail is blocked at the slot |
| RingValues.PublishedArrives | src/queue.rs:113-149 | A caller that stages v and publishes: in every interleaving, before, between and ever after, the position holds v and whoever claims or takes it gets v |
| RingValues.AbandonedStaysEmpty | src/queue.rs:128-169 | A reservation dropped or cancelled is skipped for ever, whatever was staged in it |
| RingAlone.ReserveAlone | src/queue.rs:232-285 | On a ring at rest reserve is refused as closed exactly when a side closed, as full exactly when as many positions wait as there are slots, and otherwise grants the next position and changes nothing else |
| RingAlone.SendAlone | src/queue.rs:565-578 | Sending v on an open ring at rest with room puts v behind what waits and leaves the ring at rest |
| RingAlone.ClaimAlone | src/queue.rs:287-330 | On a ring at rest claim is refused as closed exactly when the receiving side closed, finds nothing exactly when nothing waits, and otherwise comes to commit the first position |
| RingAlone.ReceiveAlone | src/queue.rs:585-598 | Receiving takes the value of the first waiting record, once, and a skipped position is passed over with Busy; the ring is at rest again without that position |
| RingAlone.SendReceive | src/queue.rs:232-352 | What one thread sends into an empty queue at rest any thread receives |
| RingAlone.FinishAlone | src/queue.rs:383-412 | On a ring at rest a closed side is found finished and left at 3, an open one is found open |
| RingAlone.TerminalAlone | src/queue.rs:414-416 | On a ring at rest terminal is true exactly when the receiving side is closed, or the sending side is and nothing waits |
| RingClose.RunClosed | src/queue.rs:371-412 | The close invariant (no committed reservation survives a finished send field) holds after every schedule |
| RingClose.PendingHasGuard | src/queue.rs:112-169 | Every unresolved reserved position belongs to a live producer guard |
| RingClose.CloseIsABarrier | src/queue.rs:383-396 | Once a send field reads 3, every reservation ever granted is published or skipped and none is granted again in any continuation |
| RingClose.TerminalMeansDrained | src/queue.rs:406-416 | A terminal answer by the send side means every accepted record was claimed and none will be added |
| RingClose.TerminalAnswers | src/queue.rs:414-416 | In every state the terminal test answers for the receiving side exactly when that field is found finished, goes on exactly when it is found unfinished, and answers for the sending side exactly when the cursors agree |
| RingClose.FieldAnswers | src/queue.rs:383-412 | A field test says closed exactly when it finds the field finished and open exactly when it does not |
| RingClose.FinishedReads3 | src/queue.rs:383-396 | In every reachable state a field found finished reads 3 afterwards |
| RingClose.ClosedReserve | src/queue.rs:232-239 | With a side closed reserve answers Closed, whatever others do between its loads |
| RingClose.ClosedClaim | src/queue.rs:287-293 | With the receiving side closed so does claim |
| RingClose.CloseIsFinal | src/queue.rs:379-381 | Once a thread has closed a side, every reserve started later in any run is refused, and after the receiving side every claim |
| Repair.ChainTraced | src/queue.rs:431-523 | Any chain of repairs cut at any point by dying repairers keeps the word valid, never gains COMPLETE, releases only for the original source and moves the turn by at most one lap |
| Repair.ChainCanonical | src/queue.rs:61-77 | The stored word stays canonical through any such chain |
| Repair.ClaimedNeverReopens | src/queue.rs:500-518 | A position the head has passed is never offered again by repairs not cut between their two stores |
| Repair.HalfRecycleReopens | src/queue.rs:512-517 | Cut between the stores, the next completed repair offers the claim again exactly when the head has come round to that position |
| RepairPoints.UndoingStores | src/queue.rs:128-131 | The last store of each undoing (failed reservation, skip, failed claim, recycling) leaves the reference words |
| RepairPoints.RepairUndoesExactly | src/queue.rs:481-519 | In every reachable state and at every point of an operation that holds a slot, repair leaves the words undoing would if and only if the slot's turn is the cursor the operation was after and not yet the next lap's; what happens otherwise is stated too |
| RepairPoints.RechecksMakeClean | src/queue.rs:267-271 | Past the recheck of the turn every point of a reservation or claim is one repair handles |
| RepairRuns.UncleanReservation | src/queue.rs:249-271 | For every capacity from two on, a run from the empty ring ends with a reservation whose death repair reports as corruption |
| RepairRuns.UncleanClaim | src/queue.rs:294-330 | For every capacity from two on, a run ends with an uncommitted claim whose death makes repair free a record nobody claimed |
| RepairRuns.UncleanFree | src/queue.rs:181-185 | For every capacity a run ends between the two stores of recycling with the head come round, and repair offers the slot again |
| RepairRuns.ReservationsUncleanIff | src/queue.rs:249-271 | A reachable state with an unclean reservation exists exactly for capacities of two or more |
| RepairRuns.ClaimsUncleanIff | src/queue.rs:294-330 | A reachable state with an unclean claim exists exactly for capacities of two or more |
| RepairRuns.ClaimReopened | src/queue.rs:512-517 | At every capacity, after some run of the ring, a repair cut between its stores and a second one offer the claimed record again |
| PoolWord.DecodeEncode | src/pool.rs:29-71 | Every valid authority word encodes canonically and decodes back |
| PoolWord.EncodeDecode | src/pool.rs:66-71 | Every canonical 32-bit authority word is the encoding of the value it decodes to |
| PoolWord.ReapReleaseCommute | src/pool.rs:321-350 | Reaping and token release commute and are idempotent on every word |
| PoolWord.ReleaseAnswer | src/pool.rs:870-921 | The order changes the answer of a release exactly when it speaks for someone other than the word's dead owner |
| PoolWord.ScanOrderIrrelevant | src/pool.rs:870-921 | Any list of reaps and releases leaves the word its set of calls decides |
| PoolWord.SameCallsSameWord | src/pool.rs:321-350 | Scan order and repetition cannot change the result |
| PoolWord.RecoverStorage | src/pool.rs:321-350 | The sweep succeeds exactly when all words are canonical and then every word is reaped and none names the dead owner |
| TransferTheorems.StepInv | src/channel.rs:909-922 | Every queue guard operation, pool exchange, draining step of a closing queue, death, repair step, reap step and return keeps the ownership invariant |
| TransferTheorems.RunInv | src/queue.rs:431-523 | The ownership invariant holds in every run with deaths between guard operations and repairs interrupted by further deaths before their stores |
| TransferTheorems.OneAuthority | src/pool.rs:615-701 | In every reachable state a block is free, in the hand of exactly one handle (or of a dead participant), or named by exactly one queue slot |
| TransferTheorems.HandlesAreCurrent | src/pool.rs:656-701 | A handle's generation and owner are those of its block's word |
| TransferTheorems.LinearityNeverFails | src/channel.rs:909-922 | Detaching a staged transfer, publishing it, taking over a claimed one, taking it, and freeing and recycling it while draining always succeed |
| TransferTheorems.RepairGoesOn | src/queue.rs:481-519 | In every reachable state a repair finds no corruption: its plan exists, its token release succeeds and its slot becomes available or empty |
| TransferTheorems.NoPositionWedged | src/queue.rs:452-523 | Every reserved position, and the slot the tail waits for, is ready, attended by a live guard or repairer, or repairable by any idle thread |
| TransferTheorems.StepFaithful | src/channel.rs:1039-1059 | A step keeps every published record and moves its fate only onward: waiting, held, then delivered with its own token, drained by closing, or lost with a dead claimer |
| TransferTheorems.RecordsAreFinal | src/channel.rs:1039-1059 | Over any run a record stays what was published and is delivered at most once |
| TransferTheorems.PublishedAreAccounted | src/channel.rs:909-922 | Published records are counted exactly by the waiting, held, delivered, drained and lost ones |
| TransferTheorems.DrainedMeansDeliveredOrLost | src/channel.rs:752-788 | Once the queue is empty and nothing claimed, published = delivered + drained by closing + claimed by the dead |
| TransferTheorems.GenerationsGrow | src/pool.rs:502-560 | No step lowers a block's generation and an allocation raises it by one |
| TransferTheorems.NeverGrantedTwice | src/pool.rs:529-549 | No (block, generation) is granted twice in any run |
| TransferAlone.AllocateFree | src/pool.rs:502-560 | A free block is the allocator's at the next generation, and freeing it leaves it free there and all else as it was |
| TransferAlone.SendAlone | src/channel.rs:909-922 | A block in hand is sent: its record waits at the next position with its token, the block is detached and the sender has it no more |
| TransferAlone.ReceiveAlone | src/channel.rs:1039-1059 | The first record is received: its block is the taker's at the generation it was sent with, and the slot is open for the next lap |
| TransferAlone.HandOver | src/channel.rs:909-922 | Sending into an empty queue and receiving hands the very block over |
| TransferAlone.DrainAlone | src/channel.rs:752-788 | Draining frees the first record's block and opens its slot |
| TransferAlone.AbandonAlone | src/queue.rs:112-169 | An abandoned reservation leaves a position without a record that the next claim passes over |
| PoolGeometry.BuildClasses | src/pool.rs:207-243 | The loop builds a geometry exactly when no number overflows, and then class 0 has the base slots and the least block size, each next class twice the bytes, odd classes as many slots as the one before and even ones half of two before, each starting at the least multiple of its block size behind the words and blocks before it |
| PoolGeometry.Create | src/pool.rs:171-205 | The class count is the largest allowed whose minimum fits, the base slot count the largest that fits the bound, the last class has at least 64 slots, the classes are those of `BuildClasses`, and each error is returned exactly in its case |
| PoolGeometry.BuildExactly | src/pool.rs:207-243 | The layout function builds a geometry exactly when every number along the way fits a word, and then exactly the classes described by `Numbers` and `Places` |
| PoolGeometry.MinimumIsLeast | src/pool.rs:179-181 | The minimum of a class count is the least base slot count that leaves the last class 64 slots |
| PoolGeometry.NewRangeHolds | src/pool.rs:78-90 | A range is accepted with the least powers of two of at least 64 that hold its ends |
| PoolGeometry.NewRangeRefuses | src/pool.rs:78-90 | A range is refused exactly when an end is past the largest power of two or a power of two lies between them |
| PoolGeometry.FitsRounded | src/pool.rs:207-243 | A layout along the way is allowed exactly if its size rounded up to its alignment is at most the largest size |
| PoolGeometry.LastClass | src/pool.rs:177 | The class count makes the last class exactly the largest block size |
| PoolGeometry.CreateFor | src/pool.rs:171-205 | For the caller's range or the default one: the largest base slot count that fits, all classes when the range was named |
| PoolGeometry.LargestBase | src/pool.rs:184-196 | The binary search returns the largest base slot count that fits |
| PoolGeometry.FitsInMonotone | src/pool.rs:207-243 | Fitting the bound is monotone in the base slot count |
| PoolGeometry.UpperEnd | src/pool.rs:186 | Nothing at or past the search's upper end fits |
| PoolGeometry.BuildArranged | src/pool.rs:207-243 | The classes built follow one another after the header inside the extent |
| PoolGeometry.PartsDisjoint | src/pool.rs:153-163 | No two control words or blocks share a byte, none touches the header and all lie within the extent |
| PoolGeometry.BlocksAligned | src/pool.rs:160-162 | Every block starts at a multiple of its size |
| PoolGeometry.RecordedRebuilds | src/pool.rs:245-262 | The three recorded numbers rebuild the same geometry, and only for its own extent |
| PoolClaim.PreferredIsLeast | src/pool.rs:512-523 | The preferred class is the first whose blocks hold the request's size and alignment |
| PoolClaim.Pool.ProbeClass | src/pool.rs:531-548 | Probing from the class's start goes once round; an exchange that wins grants a generation the block never had, whatever others do between the accesses; undisturbed it finds an open block exactly if there is one |
| PoolClaim.Pool.Claim | src/pool.rs:502-562 | A grant is a block large enough under a generation it never had, also against others; undisturbed it is an open block of the first sufficient class that has one, at the next generation, and each refusal is returned exactly in its case |
| Roles.DecodeEncode | src/channel.rs:35-71 | A role value survives packing into a word |
| Roles.EncodeDecode | src/channel.rs:53-63 | Every 64-bit role word is the packing of the value it unpacks to |
| Roles.ChangesIncrease | src/channel.rs:64-94 | Every successful role-word exchange strictly increases (generation, phase) |
| Roles.HistoryIncreases | src/channel.rs:611-719 | Over any history of a role word, later is strictly higher |
| Roles.AdoptedOnce | src/channel.rs:628-650 | In any history of a role word each port generation is adopted at most once |
| Roles.StepInv | src/channel.rs:611-809 | Every step of adopters, removers, inviters, deaths, recoveries and returns keeps the role invariant |
| Roles.RemoverExcludesAdopters | src/session.rs:390-404 | Once a remover has seen its peer unowned, no channel on the other role is live then or later in any run |
| Roles.PortsAdmittedOnce | src/channel.rs:611-668 | A port that was admitted cannot be adopted again in any run |
| Roles.OneOwnerEach | src/channel.rs:636-650 | Two owners never share a role |
| Roles.FreedRole | src/channel.rs:64-94 | After a drop, a rollback, a recovery or an invitation exactly the port of the next generation can be adopted; after closing began or at the last generation, none |
| Roles.AdoptAlone | src/channel.rs:611-668 | A port of the current generation is adopted, and the channel is live exactly if its issuer has its role and has not begun to close |
| Roles.RemoveAlone | src/channel.rs:721-809 | Closing retires the role, and goes on to reclaim the layout exactly if nobody has the other one |
| Participants.EncodeInjective | src/header.rs:754-756 | Comparing stored participant words compares slot states |
| Participants.GrantedOnce | src/header.rs:713-810 | In any history of a slot no generation is granted twice |
| Participants.Root.Join | src/header.rs:714-752 | Joining grants a never granted (slot, generation), also when others' exchanges win between the accesses; undisturbed it is the first slot that is free and not exhausted, at its next generation, or a refusal exactly when there is none, the exhausted ones before it retired and no other slot touched |
| Participants.Root.Leave | src/header.rs:759-771 | Leaving frees exactly the live incarnation and is refused exactly for any other |
| Participants.Root.MarkDead | src/header.rs:773-785 | Only the very incarnation that is live can be marked dead |
| Participants.Root.ReleaseDead | src/header.rs:792-809 | Releasing frees exactly the marked incarnation, or retires the slot at the last generation, and touches no other slot |
| Reap.Session.ReleaseToken | src/pool.rs:870-921 | The answer is true exactly when the token's pool is there, no entry is in transition and the block's word is past the token's generation, free, detached or the source's own; then no block is allocated under the token; the only word it changes is that block's, from detached or the source's own at the token's generation to free |
| Reap.Session.RepairSlot | src/queue.rs:431-523 | Whatever others do between the accesses, a successful slot repair leaves a control word that does not name the dead slot, and a slot that never named it is left alone; undisturbed it succeeds whenever nobody else is at the slot, its plan is sound and its token, if the plan has one, can be released, and then it changed the slot to the words of its repair, resolved the token if the plan says so, and nothing else |
| Reap.Session.RepairQueue | src/channel.rs:381-403 | Repairing every slot clears the queue of the dead slot although others go on using it; undisturbed it succeeds when every slot can be repaired at the start, and changes only slots that named the dead and the words of their tokens |
| Reap.Session.RecoverRoles | src/channel.rs:404-406 | Afterwards neither role word names the dead slot although others go on changing them; undisturbed exactly the dead owner's roles are released |
| Reap.Session.RecoverChannel | src/channel.rs:367-408 | A successful channel recovery leaves no control or role word naming the dead slot, against any interference; undisturbed it succeeds when every slot of both queues can be repaired |
| Reap.Session.RecoverPool | src/pool.rs:321-350 | Afterwards no pool word names the dead slot although others allocate and release meanwhile; undisturbed every word that named it is free at its generation and every other word, and everything else, is as it was |
| Reap.Session.ReapWord | src/pool.rs:334-346 | Whatever others did before, the exchange itself frees the word at its generation exactly if it names the dead at that moment and changes nothing otherwise |
| Reap.Session.ReleaseRole | src/channel.rs:74-94 | The exchange itself releases the role exactly if the dead owns it at that moment |
| Reap.Session.RecoverLayout | src/dir.rs:149-185 | A successful layout recovery leaves nothing in the layout naming the dead slot, against any interference; undisturbed it succeeds for a sound layout whose slots can be repaired, and frees only words that name the dead or whose token a repaired slot had, changes only slots that named the dead, their tokens resolved, releases only the dead owner's roles and takes only the dead from the members |
| Reap.Session.Scan | src/session.rs:438-455 | A complete scan leaves no published layout, and none that appeared or came back meanwhile, naming the dead slot; an entry in transition or without exactly one handler ends it; undisturbed it completes when every layout can be recovered, recovering one spoils no other, and nothing changes but what `RecoverLayout` may |
| Reap.Session.FinishHeap | src/talc.rs:1760-1772 | The heap lock is poisoned if the dead held it, and the recovery is refused while another holds it; undisturbed, exactly then |
| Reap.Session.ReapWith | src/session.rs:204-232 | If reaping succeeds, no transaction, lock, membership bit, pool, control or role word names the slot, whatever everyone else did meanwhile, and the slot is free or retired; undisturbed it succeeds whenever every layout can be recovered, slots and tokens included, and nobody else has the heap or the directory; undisturbed and without a directory transaction to recover, nothing of anyone else's has changed: only words that named the dead or whose token a repaired slot had are freed, only slots that named the dead are repaired, and membership, lock and participant words change exactly for the dead |
| ReapSteps.RingNamesNoOne | src/queue.rs:112-416 | No atomic step of the ring by a thread of someone else makes a control word name a participant |
| ReapSteps.RingRunNamesNoOne | src/queue.rs:232-352 | Nor does any run in which the participant takes no step |
| ReapSteps.TransferNamesNoOne | src/channel.rs:909-922 | No step of ownership transfer, draining, repair or reaping makes a control or pool word name a dead participant |
| ReapSteps.TransferRunNamesNoOne | src/queue.rs:431-523 | Nor does any run until its number is given out again |
| ReapSteps.RolesNameNoOne | src/channel.rs:611-809 | No step on the role words makes one name a dead participant |
| TalcGeometry.Geometry.RawBinMonotone | src/talc.rs:743-757 | Bin numbers before clamping never decrease with size |
| TalcGeometry.Geometry.Unclamped | src/talc.rs:698-741 | In a validated geometry no size up to the extent is clamped |
| TalcGeometry.Geometry.BinMonotone | src/talc.rs:743-757 | Bins are monotone in size up to the validated extent |
| TalcTiles.JoinSplit | src/talc.rs:550-587 | Joining the two parts of a cut chunk gives the tiling back |
| TalcTiles.Covered | src/talc.rs:822-883 | Every word of the arena is in exactly one chunk of the tiling |
| TalcLists.InsertList | src/talc.rs:315-335 | Linking a node in front turns the list into the list with the node in front |
| TalcLists.RemoveList | src/talc.rs:337-359 | Unlinking any node turns the list into the list without it |
| TalcBits.ToggleAgrees | src/talc.rs:920-940 | Toggling one bin keeps words, summary and list emptiness in agreement |
| TalcBits.NextAvailIsScan | src/talc.rs:964-987 | The word-and-summary search equals looking at every bin in turn |
| TalcMoves.DetachInv | src/talc.rs:1041-1078 | Taking a free chunk out of its list keeps the whole heap invariant |
| TalcMoves.AttachInv | src/talc.rs:1027-1039 | Putting a chunk into its bin's list keeps the whole heap invariant |
| TalcMoves.SplitInv | src/talc.rs:550-587 | Cutting a chunk in hand keeps the heap invariant |
| TalcMoves.JoinInv | src/talc.rs:1167-1209 | Joining two chunks in hand keeps the heap invariant |
| TalcMoves.FlagInv | src/talc.rs:1121-1161 | Flipping the above-free flag of the chunk below keeps the heap invariant |
| TalcMoves.SealInv | src/talc.rs:204-232 | Writing tag and tag address of a chunk handed out keeps the heap invariant |
| TalcPlans.AllocShape | src/talc.rs:1121-1161 | An allocation turns a tiling into a tiling |
| TalcPlans.FitsMeans | src/talc.rs:1101-1113 | A chunk passes the fitting test exactly when some address in it is aligned and leaves room for the payload and its tag |
| TalcPlans.AlignedMeans | src/talc.rs:1108 | The aligned address is the least multiple of the alignment from the base on |
| TalcPlans.AllocSettled | src/talc.rs:1121-1161 | An allocation leaves no two free neighbours |
| TalcPlans.FreeSettled | src/talc.rs:1167-1209 | A release leaves no two free neighbours |
| TalcPlans.FreeUndoesAlloc | src/talc.rs:1167-1209 | Releasing right after allocating restores the tiling for every size, alignment and cut |
| TalcPlans.LivePayloads | src/talc.rs:1121-1161 | Live payloads are disjoint, aligned and in bounds |
| TalcPlans.PayloadWrite | src/talc.rs:1121-1161 | Writing any word of a live payload keeps the heap invariant |
| TalcPlans.TagFound | src/talc.rs:184-196 | The word after a payload tells a tag from a tag address in band and leads to the chunk's tag, whose base and flag are exact |
| TalcPlans.TilingDecides | src/talc.rs:204-232 | The tiling determines every tag, size word and bin occupancy |
| TalcPlans.BitmapDecided | src/talc.rs:920-940 | The bins that have chunks determine the bitmap |
| TalcAlloc.Heap.Claim | src/talc.rs:822-883 | Claiming an arena leaves one metadata chunk and one free chunk, all words in order |
| TalcAlloc.ClaimRoom | src/talc.rs:822-865 | In a validated geometry the metadata lie between their two tags, availability words for every bin first and then the bins, and leave a chunk free behind them |
| TalcAlloc.Heap.InsertFree | src/talc.rs:1027-1039 | The chunk is free and listed in its own bin, nothing handed out is touched |
| TalcAlloc.Heap.RemoveFree | src/talc.rs:1041-1078 | The chunk is out of its bin, nothing handed out is touched |
| TalcAlloc.Heap.SearchBin | src/talc.rs:1098-1116 | A chunk found holds the request; if none is found no chunk of the bin does |
| TalcAlloc.Heap.NextBin | src/talc.rs:964-987 | The next bin is the least one from i on that has a chunk |
| TalcAlloc.Heap.FindChunk | src/talc.rs:1085-1120 | Finding fails exactly when no free chunk has room, at any address, for the payload aligned as asked with its tag behind it |
| TalcAlloc.Heap.AcquireChunk | src/talc.rs:1085-1120 | The chunk taken holds the request; on failure nothing changed |
| TalcAlloc.Heap.CarvePrefix | src/talc.rs:550-563 | The words before an aligned payload are given back exactly when they make a chunk |
| TalcAlloc.Heap.CarveSuffix | src/talc.rs:566-587 | The words after the payload are given back as a free chunk |
| TalcAlloc.Heap.Allocate | src/talc.rs:1121-1161 | The result is the allocation plan on the tiling at the least address of a free chunk with room, or exhaustion exactly when no address of any free chunk has room for the aligned payload and its tag; other payloads are untouched |
| TalcAlloc.Heap.MergeDown | src/talc.rs:1190-1197 | A free chunk below is joined, or the tag below marked |
| TalcAlloc.Heap.MergeUp | src/talc.rs:1199-1205 | A free chunk above is joined |
| TalcAlloc.Heap.FromAllocBase | src/talc.rs:184-196 | The tag found is the tag of the chunk that was handed out |
| TalcAlloc.Heap.Deallocate | src/talc.rs:1167-1209 | The result is the release plan on the tiling; other payloads are untouched |
| TalcAlloc.Heap.Serve | src/talc.rs:1121-1209 | Every request of any sequence is answered; each answer explains the change of tiling and payloads (the plan's cut of a chunk that fits, exhaustion only when none does, the release of the handle's own chunk); the handles are those the answers gave, live, disjoint, aligned and in bounds |
| TalcAlloc.Heap.AllocateAndRelease | src/talc.rs:1121-1209 | The answer is a place in a chunk that fits, or exhaustion exactly when none does, and afterwards tiling, every tag and size word and the bitmap are as before |
| Directory.Region.constructor | src/dir.rs:1268-1281 | A new directory is between transactions with nothing allocated |
| Directory.Region.GrowChain | src/dir.rs:579-621 | Growth links one new slab or changes nothing; every death leaves a recoverable state |
| Directory.Region.Reserve | src/dir.rs:523-545 | The first vacant entry whose generation is not exhausted, or none exactly when there is none |
| Directory.Region.Transition | src/dir.rs:559-577 | The first entry in transition, or none exactly when there is none |
| Directory.Region.CreateIn | src/dir.rs:275-406 | A creation publishes the first open entry at its next generation, an identity never issued unless a published entry was rolled back before, on its own block, or restores what was there; a caller that lives does not keep the heap's lock; one that does not die and is alone succeeds whenever there is an entry or room to grow, a free heap, a block and admission; a rollback left due, also by a quarantine, is ended first or stays due; every death leaves a recoverable state, whatever others do to the heap |
| Directory.Region.UndoCreate | src/dir.rs:922-957 | With the heap free the rollback frees the block and takes the entry back one generation, a pending one and a quarantined one alike, and says when that goes behind a published generation; otherwise it stays due |
| Directory.Region.RemoveIn | src/dir.rs:408-498 | A removal by a member frees exactly the layout's block and keeps the generation, or is refused and restores everything; alone, it succeeds exactly for the only member with the heap free; a caller that lives does not keep the heap's lock, and alone leaves it as it was; every death, also right after the close, leaves a recoverable state, whatever others do to heap and memberships |
| Directory.Region.Quarantine | src/dir.rs:910-920 | The entry is out of use and its block given up; the transaction ends with debug assertions and otherwise stays with the recovering participant |
| Directory.Region.RecoverIdle | src/dir.rs:666-678 | Nothing in transition: the transaction ends, the heap poisoned if the dead was changing it |
| Directory.Region.RecoverReserved | src/dir.rs:759-770 | A reserved entry goes back one generation |
| Directory.Region.RecoverCreate | src/dir.rs:748-788 | A recorded creation is undone: block freed, entry back one generation; or refused, or set aside |
| Directory.Region.RecoverRemoving | src/dir.rs:748-806 | A recorded removal is finished: block freed, entry vacant at its generation; or refused, or set aside |
| Directory.Region.RecoverClosing | src/dir.rs:683-717 | A removal is undone exactly when the layout was not closed and finished exactly when it was; it panics exactly when another had the heap at the clear and nobody at the next reading |
| Directory.Region.FreeClosed | src/dir.rs:701-710 | The free runs while the entry still says CLOSING: from its beginning to the next store the state is one from which recovery frees again |
| Directory.Region.FreeTwice | src/dir.rs:683-703 | Recovery from such a state unlocks the heap, claims it and comes to the free with the heap torn or the block gone |
| Directory.Region.RecoverReleased | src/dir.rs:718-733 | The entry is vacated, nothing freed again; it panics exactly when another had the heap at the clear and nobody at the next reading |
| Directory.Region.GiveUp | src/dir.rs:684-689 | After a failed clear the next reading decides: refused while another has the heap, set aside when it is poisoned, a panic exactly when it is free |
| Directory.Region.RecoverVacated | src/dir.rs:734-744 | Only the transaction is ended |
| Directory.Region.RecoverGrowth | src/dir.rs:811-867 | A linked slab stays, an unlinked one is freed, or lost with a poisoned heap |
| Directory.Region.Recover | src/dir.rs:635-809 | After every single death a settled recovery gives the answer and the entry the found state decides (or the one a poisoned heap decides, if others poisoned it meanwhile), quarantines exactly in the states listed, leaves no entry in transition, touches only the operation's own entry and block, and loses a block only with a poisoned heap or a quarantine; it panics exactly in the one case above; a death of the recovering participant leaves a recoverable state except while freeing a closed layout; alone and not dying it settles unless another has the heap |
| DirectoryRuns.Act | src/dir.rs:275-867 | One operation of a run: the answer explains the change of state, it is left out exactly when nobody can run it, it writes no transaction owner but its actor or the one there, and afterwards the directory is quiet, recoverable, or kept by a live participant, unless a recovery died freeing a closed layout |
| DirectoryRuns.Drive | src/dir.rs:275-867 | In any run of creations, removals and recoveries with deaths anywhere every operation is answered and every answer explains the change of state; every published offset and linked slab stays an allocated block of its own, and with debug assertions no identity the answers grant is granted twice; the run is cut short only by a death that leaves a block to be freed again |
| DirectoryRuns.SameIdentityTwice | src/dir.rs:290-296 | Without debug assertions, from any quiet state with an open entry: a published creation whose owner dies is quarantined, rolled back and its identity handed out again for another block |
| DirectoryRuns.SameBlockTwice | src/dir.rs:683-710 | From any state with a layout of one member: after deaths right after the close and after its recovery's free, the next recovery comes to free a block that is gone |
| DirectoryRuns.PanicAfterRelease | src/dir.rs:718-724 | From any state with a layout of one member: after a death past the heap's commit, a recovery whose clear meets another's mutation and whose reading meets none panics, with everything still recoverable |
| DirectoryRuns.PanicAfterClose | src/dir.rs:683-689 | The same after a death right after the close, on the attempt after one refused as busy |
| TraceReplay.OnlyUnavailableDiffers | benches/ipc/geometry.rs:266-290 | While the models agree, they differ on a request only as static Unavailable against compact Reserved |
| TraceReplay.CompactUsesNoMore | benches/ipc/geometry.rs:266-290 | Compact usage never exceeds static usage while the live sets agree |
| TraceReplay.AgreeUntilDivergence | benches/ipc/geometry.rs:162-228 | Up to the first different answer, in a trace that takes no live id, the live sets agree |
| TraceReplay.FirstDivergence | benches/ipc/geometry.rs:230-249 | For every trace that takes no live id the first divergence is static Unavailable against compact Reserved |
| TraceReplay.DistinctIsEnough | benches/ipc/geometry.rs:162-228 | A trace that reserves each id once takes no live id |
| TraceReplay.ReuseDecides | benches/ipc/geometry.rs:162-228 | After any such trace answered alike, one more accepted reservation has a continuation whose first difference is reversed exactly when it takes a live id |
| TraceReplay.Replay | benches/ipc/geometry.rs:162-228 | The rejections are those of the step function |
| TraceReplay.CompactReplay | benches/ipc/geometry.rs:251-327 | The rejections are those of the step function |
| TraceReplay.Compare | benches/ipc/geometry.rs:230-249 | The first reservation answered differently, and for traces that take no live id what it is |
| Notify.Attempt | src/notify.rs:121-178 | The loop ends on the first deciding answer, on the first wait that fails, or with Busy exactly after 32 Busy answers in a row; it is still waiting only when the answers or the waits are used up |
| Notify.NoLostWakeup | src/notify.rs:145-148 | With one waiter per readiness flag no wakeup is lost however notifications merge |
| Notify.LostIffShared | src/notify.rs:145-148 | Whatever the room, some schedule of n waiters on one flag loses a wakeup exactly when n is two or more |

## Left out

- Weak memory orderings, cache padding, address provenance and layout details: sequential consistency and abstract addresses stand for them.
- Deaths inside `reserve`, `claim` and recycling in the transfer model, where these are single steps: `RepairPoints` says which of them repair undoes (src/queue.rs:181-185, src/queue.rs:267-271).
- Deaths of participants with several threads in the directory: one thread per participant is assumed.
- `open` racing a whole `remove` between its lookup and its admission (src/dir.rs:224-232).
- Zero-size transfers, whose token has generation 0 and no block: the transfer model has blocks only; `Reap.Session.ReleaseToken` covers their release.
- `recover_growth` called by a live owner (src/dir.rs:927-931): growth never rolls back in the create path.
- Layout record checks, schema hashing and type ids: comparisons of fields.
- `PBox`, `Block`, `Vacant` and typed metadata: thin wrappers.
- Operating-system mappings, events, sockets and processes: foreign calls.
- The simulator's statistics (peaks, spills, fragmentation) and `balanced`: sums beside the answers.
- Several queues and pools at once in the transfer model: it has one of each, and nothing in a step refers to a second.
- Reap.Session.ReapWith: the directory's own recovery appears by its contract, the layouts afterwards arbitrary; a layout does not disappear while it is being recovered, which membership of the dead participant prevents but nothing prevents for a layout it was no member of.
- TransferTheorems.RunInv: a repair's two stores (src/queue.rs:514-517) are one step, so a death between them is outside; what such a death does is `Repair.HalfRecycleReopens` and `RepairRuns.ClaimReopened`.
- ReapSteps.TransferNamesNoOne: covers control and pool words, `RolesNameNoOne` role words and `DirectoryRuns.Act` the transaction word; that the heap's lock and membership bits are only ever set to the writer's own number is read off src/talc.rs:1358-1360 and src/header.rs:343-366 and not proved.
- Notify.Attempt: the queue's answers and the waits are given as finite scripts, so endless waiting appears as `StillWaiting`.
- TraceReplay.Replay: the cells of all classes form one sequence in class order, so class and slot numbers are one index.
