# Quiescence accounting of snare, in Dafny

snare runs a program under virtual time, and its quiescence accounting decides whether that time may move: no
participant may be able to make progress first. This project models the Linux form of that accounting and
the protocols around it, and a Windows environment block, and proves what they keep over every run.
`dafny verify dfyconfig.toml` checks all of it.

**Futex wake attribution.** The kernel says how many waiters a wake reached, not which. The census keeps wake
records ("slots": a mask, a scope, the generation the wake was made at, credits left) and claims (waits already
credited), decides each return by bipartite matching with augmenting paths, and forgets what can no longer
matter. `FutexHistory` is the simple machine this stands for: it forgets nothing, and credits a return exactly
when every wait credited so far and this one can be matched at once into all the wakes ever made on the word.
`CensusRuns.Run` is the main result: whatever calls are made, in whatever order, every answer of the bounded
structure is the answer of the full history. It rests on `Bipartite` and `Matchings` (closed sets, Hall's
condition, tight sets), `AugmentingPath` (the search), `Credits` and `ReleaseMatcher` (matching and pruning one
word), `Attribution` (each event keeps receipts and history equivalent for the waits still parked),
`FutexCensus` (one word against the rows) and `Census` (the class `Core`).

**Parking.** `Parking` is the state machine of parks, unparks, the timestamp gate and the epoch in a free-running
domain. Each critical section of the census is one step; a thread back from a contended mutex takes three, and
its row is updated by whoever takes the census next.

**Protocols.** `EpochArm` (arming a callback against the epoch), `LeaseGate` (leases against time skips),
`PendingQueue` (the ring of changes left for the census's next holder) and `MutexWatch` (watching a mutex while
it is taken and freed) take every atomic access as a step of its own, for any number of threads. `HeldMutexes`
is the record each thread keeps of the mutexes it holds.

**Arithmetic.** `ClockSpin` (how a polling loop moves time) and `Lineage` (64-bit mixing of thread ids).

**Windows environment.** `EnvBlock` (a flat buffer edited by splicing, as an ordered case-insensitive map) and
`EnvTables` (the C runtime's two tables beside it). The ntdll comparison is lexicographic order on upcased
units, with the upcasing left as a parameter `up`; `EnvTables` asks of it only that on ASCII it tells apart what
ASCII case folding does.

Six things hold only under a condition, which is proved exact:

- From its publication on, a watch on a mutex misses no take or free exactly when the records queued and under way
  by then can be trusted (`MutexWatch.EveryWatch`; `MutexWatch.Trusted` spells the condition out). With no other
  watched mutex in its slot of the filter that is so unless a thread has let go of the mutex and not yet stored
  that in its own record when the next holder's take has gone unseen (`MutexWatch.AloneRight`,
  `MutexWatch.LateFree`): the unlock hook notes after the unlock. With a shared slot a take can also be queued for
  the other mutex's sake and its end skipped (`MutexWatch.StaleRecord`). The comment on `watch_mutex` promises it
  without the condition.
- A watch that misses nothing is right about who holds the mutex exactly while the holder's last note is not a
  free that left it holding, as an inner unlock of a recursive mutex is (`MutexWatch.RightUnlessNested`,
  `MutexWatch.NestedFree`).
- A thread that spins on the clock gets past its deadline by less than 1 us or a 64th of the way, in whatever
  pattern it reads and yields, exactly unless time skips alone stop before the deadline with a timer far past it
  next (`ClockSpin.NeverLateUnless`). Only a yield that follows a yield skips so.
- A step made under the census that leaves the epoch unmoved leaves it unchanged whether every participant is
  parked and none settling, except when the waiter that ended the settling meets a closed gate, or leaves
  after having met one (`Parking.StepSteady`). The comment on `try_leave_sim_wait_settled` does not mention the
  gate. The domain is not taken for quiescent meanwhile, as a thread held at the gate blocks that.
- A release is pending with no wait free to return exactly while some wait is flagged, all flagged ones have left
  their words for the gate, and no wake can explain another (`Census.PendingAtGate`, `CensusRuns.TakenAtGate`).
- Letting go of a mutex taken unseen keeps a thread's `Held` record right exactly when nothing is spilled
  (`HeldMutexes.Held.Free`, `HeldMutexes.UnseenFree`).

## Model

| member | source | states |
|---|---|---|
| `AugmentingPath.Augment` | crates/snare-interpose/src/accounting.rs:682-716 | the search terminates; on success the assignment is valid, keeps every matched candidate and adds the new one, and closed sets stay closed; on failure nothing changed and a closed set around the candidate shows no matching covers it with those matched |
| `Bipartite.ClosedBlocks` | crates/snare-interpose/src/accounting.rs:682-716 | a closed set around an unmatched candidate is a Hall violator: no matching at all covers the matched ones and it |
| `AugmentingPath.CanEscape` | crates/snare-interpose/src/accounting.rs:718-741 | true exactly when an alternating path leads from the candidate to a free slot or one given to a wait not required |
| `AugmentingPath.TrappedClosed` | crates/snare-interpose/src/accounting.rs:718-741 | the candidates that cannot escape form a closed set: every slot they can use is given to one of them |
| `Bipartite.TightSetOwnsItsSlots` | crates/snare-interpose/src/accounting.rs:718-741 | in any matching that covers a tight set, the slots it is given go to nobody else |
| `ReleaseMatcher.CanClaim` | crates/snare-interpose/src/accounting.rs:743-762 | true exactly when one matching covers all claims and the candidate, by the single-record shortcut and the general search alike |
| `ReleaseMatcher.MatchAll` | crates/snare-interpose/src/accounting.rs:764-787 | every claim is matched (the panic "native release attribution lost" is never reached), and the first live wait is credited exactly when it can be matched on top of them |
| `ReleaseMatcher.FindForced` | crates/snare-interpose/src/accounting.rs:788-800 | exactly the required candidates that cannot escape are marked |
| `Credits.Recount` | crates/snare-interpose/src/accounting.rs:801-814 | the records hold, as a multiset, just the slots given to a candidate not forced |
| `ReleaseMatcher.PrunedByKeeping` | crates/snare-interpose/src/accounting.rs:801-825 | dropping free slots and retiring forced claims with their slots changes no answer for any set of live waits |
| `ReleaseMatcher.PrunedByClearing` | crates/snare-interpose/src/accounting.rs:826-831 | with no live wait matched, clearing everything changes no answer |
| `ReleaseMatcher.MatchCandidates` | crates/snare-interpose/src/accounting.rs:764-833 | a wait is credited exactly when it can be matched on top of the claims, and for every set of live waits the kept claims with them are matchable in the kept slots just when all claims with them were in all slots |
| `Attribution.RetainSlots` | crates/snare-interpose/src/accounting.rs:667-676 | dropping empty records drops no slot, and nothing is left exactly when there was no slot |
| `Attribution.SoundCoalesced` | crates/snare-interpose/src/accounting.rs:1215-1234 | counting a wake with a lone record like it, moving that record's generation on, keeps receipts and history equivalent |
| `Attribution.SoundCredited` | crates/snare-interpose/src/accounting.rs:1391-1444 | crediting a wait on both sides keeps receipts and history equivalent for the waits left |
| `FutexCensus.RecordWake` | crates/snare-interpose/src/accounting.rs:1158-1246 | entering a wake, capped at the rows that hear it, by any of the three ways, keeps the receipts equivalent to a history with all its wakes |
| `FutexCensus.ClaimLone` | crates/snare-interpose/src/accounting.rs:1410-1420 | the single-record shortcut credits exactly when the whole history explains the return |
| `FutexCensus.ClaimWord` | crates/snare-interpose/src/accounting.rs:1391-1450 | a return is credited exactly when the whole history explains it with every wait credited before |
| `FutexCensus.PruneWord` | crates/snare-interpose/src/accounting.rs:1346-1388 | pruning keeps receipts and history equivalent, and keeps receipts only while a parked wait can take one |
| `Census.Core.constructor` | crates/snare-interpose/src/accounting.rs:1037-1075 | an empty census stands for an empty history |
| `Census.Core.PruneReleases` | crates/snare-interpose/src/accounting.rs:1346-1388 | pruning one word restores the invariant of all |
| `Census.Core.SetWaiting` | crates/snare-interpose/src/accounting.rs:1892-1945 | the history's step for a wait begun under a generation of its own, or ended; returns the wait replaced |
| `Census.Core.Signal` | crates/snare-interpose/src/accounting.rs:1158-1246 | the history's step for a wake that reached `n` waiters |
| `Census.Core.SignalFutex` | crates/snare-interpose/src/accounting.rs:1249-1288 | the history's step for a wake by its return count; one that reached nobody marks the waits its word has moved past |
| `Census.MarkRows` | crates/snare-interpose/src/accounting.rs:1272-1286 | exactly the overtaken rows are marked, and the count of released rows stays exact |
| `Census.Core.NotePreEnrollmentReturn` | crates/snare-interpose/src/accounting.rs:1291-1304 | the history's step for a wait that ended before it was enrolled |
| `Census.Core.ClaimRelease` | crates/snare-interpose/src/accounting.rs:1391-1450 | true exactly when the wait was released already or the full history explains its return, and the history's step for it |
| `Census.Core.TakeRelease` | crates/snare-interpose/src/accounting.rs:1831-1856 | the history's step for a thread leaving its word for the gate; true exactly if it had one |
| `Census.Core.ClearSignalled` | crates/snare-interpose/src/accounting.rs:1871-1889 | attribution starts afresh, in the history too |
| `Census.Core.AddRow` | crates/snare-interpose/src/accounting.rs:2334-2351 | the history's step, always; the invariant is kept by every new lineage, and by one that takes the place of a row exactly when that row was not flagged and its word's receipts can matter without it |
| `Census.Core.RemoveRow` | crates/snare-interpose/src/accounting.rs:2354-2374 | the history's step; the invariant and the count of released rows survive the removal |
| `Census.Core.SetRowClass` | crates/snare-interpose/src/accounting.rs:2377-2396 | the history's step; the wait goes with the class |
| `Census.Core.IsReleased` | crates/snare-interpose/src/accounting.rs:1629-1647 | true exactly when the participant waits on a word and is flagged or the full history can explain it; false once it has left its word for the gate |
| `Census.Core.HasPendingReleases` | crates/snare-interpose/src/accounting.rs:1499-1509 | a count and an emptiness test are true exactly when some participant's wait is flagged or may return |
| `Census.KeptPending` | crates/snare-interpose/src/accounting.rs:1499-1509 | with no row flagged, receipts are kept on some word exactly when some parked wait can take one: no leftover keeps a domain busy |
| `Census.PendingAtGate` | crates/snare-interpose/src/accounting.rs:1499-1509 | a release is pending with no wait released exactly when some wait is flagged, all flagged ones have left their words, and no wake can explain another |
| `CensusRuns.Run` | crates/snare-interpose/src/accounting.rs:1158-1946 | over every sequence of calls from an empty census, all answers are those of the machine that keeps the full history |
| `CensusRuns.TakenAtGate` | crates/snare-interpose/src/accounting.rs:1831-1856 | a run in which a wait released by a move of its word is taken at the gate: pending still, and no longer released |
| `CensusRuns.ExplainedAlone` | crates/snare-interpose/src/accounting.rs:639-680 | with nothing credited on the word yet, a return is explained if and only if some wake there meets the wait: made since it began, with a bit in common, and for any scope or its own |
| `CensusRuns.EnoughWakes` | crates/snare-interpose/src/accounting.rs:1391-1450 | a wake that meets every wait credited on the word and this one explains it once it was counted for that many |
| `CensusRuns.OneWake` | crates/snare-interpose/src/accounting.rs:1249-1288 | the answer of every run in which a thread parks on a word, one wake is made there and the thread returns: credited exactly if the wake addresses it and reached someone, or reached nobody and found the word moved on |
| `CensusRuns.WordMoved` | crates/snare-interpose/src/accounting.rs:1265-1286 | a wake that reached nobody makes just the waits it addresses whose expected value differs from the word free to return |
| `CensusRuns.BegunAfresh` | crates/snare-interpose/src/accounting.rs:1892-1945 | in every run a wait just begun is owed to no wake made before it |
| `CensusRuns.CreditStays` | crates/snare-interpose/src/accounting.rs:1391-1450 | a return once credited answers so again and keeps the domain busy |
| `CensusRuns.AttachForgets` | crates/snare-interpose/src/accounting.rs:1871-1889 | once attribution has started afresh no return is owed and none is pending |
| `CensusRuns.NeverOvercredited` | crates/snare-interpose/src/accounting.rs:1391-1450 | corollary for the history, and so for every answer: all credit given on a word can be explained at once by distinct wakes, so it never exceeds what the kernel counted |
| `CensusRuns.CreditedByItsWake` | crates/snare-interpose/src/accounting.rs:639-680 | corollary: a credited return is explained by a wake on its word made after it parked and before it returned, with an overlapping mask and compatible scope |
| `HeldMutexes.Held.Take` | crates/snare-interpose/src/accounting.rs:872-883 | eight slots and a spill count go on standing for the multiset of holds, with one more: in a slot if one is free, else spilled |
| `HeldMutexes.Held.Free` | crates/snare-interpose/src/accounting.rs:887-901 | with one fewer, exactly when the mutex was seen taken or nothing is spilled; its slot goes if it has one, else a spill |
| `HeldMutexes.UnseenFree` | crates/snare-interpose/src/accounting.rs:884-901 | nine holds and a free of a mutex taken unseen reach a record that is wrong |
| `HeldMutexes.Held.Holds` | crates/snare-interpose/src/accounting.rs:904-914 | a mutex shown is held, and one not shown with nothing spilled is not |
| `HeldMutexes.HolderOf` | crates/snare-interpose/src/accounting.rs:1695-1708 | names a thread only if it holds the mutex, and exactly when some record shows it; answers `Outside` only if no thread of the domain holds it, and `Unknown` only with a spilled record |
| `MutexWatch.Applied` | crates/snare-interpose/src/accounting.rs:1800-1826 | records in order decide the owner by the last take and whether its thread's free follows; with no take, a free makes the mutex free unless another thread is its owner |
| `MutexWatch.RunRight` | crates/snare-interpose/src/domain.rs:2516-2544 | whatever takes, frees and notes of any threads interleave with the reading, recursive ones too, what the watcher has found or may yet find comes right once the queue and the notes under way arrive |
| `MutexWatch.Settled` | crates/snare-interpose/src/domain.rs:2516-2544 | from every state of the watch the notes under way can arrive and leave the census right just when its owner was to come right |
| `MutexWatch.TrustedMeans` | crates/snare-interpose/src/domain.rs:2424-2459 | at the publication the spelt-out condition is the invariant: every record that still shows the mutex, and none, comes right |
| `MutexWatch.RightIfTrusted` | crates/snare-interpose/src/domain.rs:2424-2459 | once a watch is published, every way the threads, the reading and the drains go on ends, at rest, with the census naming each holder from its take to its next free and nobody else, if and only if what was queued and under way could be trusted |
| `MutexWatch.RightUnlessNested` | crates/snare-interpose/src/accounting.rs:1817-1826 | and then the thread it names is the holder if and only if the holder's last note is not a free that left it holding |
| `MutexWatch.EveryWatch` | crates/snare-interpose/src/domain.rs:2424-2459 | the if-and-only-if for the watch of every run, with the slot of the filter a counter that other mutexes' watches share |
| `MutexWatch.AloneRight` | crates/snare-interpose/src/domain.rs:2424-2459 | with no other watched mutex in the slot, nothing is missed if and only if no record still shows the mutex for a thread that has let go of it while the holder has made its note |
| `MutexWatch.PublishedAtOnce` | crates/snare-interpose/src/domain.rs:2424-2459 | the same condition is exact, with a shared slot too, for a watch published before any record is queued behind its drain |
| `MutexWatch.FreeAtRest` | crates/snare-interpose/src/accounting.rs:1800-1826 | once a take or a free has been noticed, in every run the owner at rest is the thread to be named or, with none, `Free`: no longer held outside |
| `MutexWatch.ShownWhenStored` | crates/snare-interpose/src/domain.rs:2516-2544 | a thread's own record shows a take from when it is stored until its free is stored |
| `MutexWatch.QueuedWhileTaken` | crates/snare-interpose/src/accounting.rs:2059-2071 | a record sent while somebody has the census leaves the owner alone and has its effect when the census is next taken |
| `MutexWatch.LateFree` | crates/snare-interpose/src/os/sync.rs:746-765 | for every two threads, a run with no other watch in which the first is slow to note its free and the watch goes wrong |
| `MutexWatch.StaleRecord` | crates/snare-interpose/src/accounting.rs:2062-2071 | for every thread, a run with a shared slot after which its take, queued and outlived, makes the watch go wrong |
| `MutexWatch.NestedFree` | crates/snare-interpose/src/accounting.rs:1817-1826 | a holder that takes the mutex again and lets go once still holds it, and the census comes to rest with it free |
| `EpochArm.NothingLost` | crates/snare-interpose/src/accounting.rs:2417-2456 | under every interleaving, with no call in progress the flag tells whether a callback is armed, and one still armed waits for the current epoch |
| `EpochArm.EachOnce` | crates/snare-interpose/src/accounting.rs:2417-2456 | every callback is released at most once, and with no call in progress is released, replaced or still armed, just one of the three |
| `EpochArm.StaysArmed` | crates/snare-interpose/src/accounting.rs:2417-2456 | with no bump under way and none to come, a callback armed for the current epoch is still armed, or replaced, after every interleaving of arms |
| `EpochArm.ArmAlone` | crates/snare-interpose/src/accounting.rs:2443-2456 | a callback armed with no other thread in the way stays armed if the epoch is the one it saw, and is otherwise released at once |
| `EpochArm.BumpAlone` | crates/snare-interpose/src/accounting.rs:2417-2426 | a bump with no other thread in the way moves the epoch and releases the callback armed |
| `LeaseGate.ClockHeld` | crates/snare-interpose/src/accounting.rs:2404-2492 | under every interleaving no time skip, foreign skip or spin step moves the clock while a lease is held whose take has returned and whose release has not begun; only the latency charged for a call does, by 1 us |
| `LeaseGate.QuietCount` | crates/snare-interpose/src/accounting.rs:2460-2492 | with no call in progress the counter is the number of leases held, so a skip is let through exactly when there are none |
| `LeaseGate.SkipAlone` | crates/snare-interpose/src/accounting.rs:2404-2407 | a skip with no other thread in the way moves the clock by its amount if no lease is counted, else not at all, and gives the gate back |
| `LeaseGate.TakeAlone` | crates/snare-interpose/src/accounting.rs:2460-2481 | a take with no other thread in the way hands out a new lease, in the table, counted and held |
| `LeaseGate.ReleaseAlone` | crates/snare-interpose/src/accounting.rs:2484-2492 | and a release takes it out again |
| `PendingQueue.ReachesSound` | crates/snare-interpose/src/pending.rs:64-118 | under every interleaving of pushes with each other and the drain, each slot of the current lap is free, being filled by the one push that holds its ticket, or filled with what that push was given |
| `PendingQueue.InOrder` | crates/snare-interpose/src/pending.rs:92-117 | changes are handed out in the order their tickets were claimed, a prefix of them at any time |
| `PendingQueue.RefusedOnlyFull` | crates/snare-interpose/src/pending.rs:65-89 | a push is refused only with the ring full of changes not yet handed out |
| `PendingQueue.DrainSeesAll` | crates/snare-interpose/src/pending.rs:92-117 | a drain hands out every change whose ticket was claimed before it began |
| `PendingQueue.EveryPush` | crates/snare-interpose/src/pending.rs:64-89 | in every run each push has returned or is its thread's last and under way; one that returned and was not refused has its value at a ticket no other push has, and every ticket is some push's |
| `PendingQueue.DrainsReturned` | crates/snare-interpose/src/pending.rs:92-117 | a drain hands out, at its ticket, the value of every push that had returned unrefused before it began |
| `PendingQueue.PushAlone` | crates/snare-interpose/src/pending.rs:64-89 | a push with no other thread in the way is queued, unless the ring is full, and then refused |
| `PendingQueue.DrainAlone` | crates/snare-interpose/src/pending.rs:92-117 | a drain with no slot being filled comes to an end with everything handed out |
| `Parking.RunSound` | crates/snare-interpose/src/domain.rs:1898-2063 | every run keeps the counters, the rows and the threads on their way out in agreement |
| `Parking.CountersAgree` | crates/snare-interpose/src/domain.rs:1898-2134 | in every reachable state the parked, sim-parked, keyed and gated counts count exactly their rows and threads, once queued records are applied, and sim-parked <= parked <= participants |
| `Parking.GateHolds` | crates/snare-interpose/src/domain.rs:1984-2063 | over every run with the gate closed no participant leaves a wait unless it is a contended mutex |
| `Parking.GateOpens` | crates/snare-interpose/src/domain.rs:1984-2063 | once the gate is open a thread held there leaves its wait, uncounted from the parked and from the gate |
| `Parking.HeldThere` | crates/snare-interpose/src/domain.rs:1984-2063 | with it closed, a thread that returns from a wait other than a contended mutex stays parked, off its word and counted at the gate once |
| `Parking.MarkTaken` | crates/snare-interpose/src/domain.rs:2072-2088 | the waiter that ends the settling takes one mark off as it is held, and none when it tries again |
| `Parking.BackFromMutex` | crates/snare-interpose/src/domain.rs:2046-2063 | the three steps of a return from a contended mutex leave the thread running, its row cleared, one fewer parked, and the epoch moved exactly if all were parked |
| `Parking.EnterAndGo` | crates/snare-interpose/src/domain.rs:1287-1333 | a thread that enters and goes leaves participants and rows as they were and the epoch moved |
| `Parking.BlockerMeans` | crates/snare-interpose/src/domain.rs:358-405 | which blocker is named, for every state and check: a running participant before one waking, a lease, one at the gate and a timer due; and none exactly when all participants are parked and there is nothing of these |
| `Parking.NoBlocker` | crates/snare-interpose/src/domain.rs:358-405 | a check that finds no blocker finds every participant parked and none at the gate |
| `Parking.TimestampHeld` | crates/snare-interpose/src/domain.rs:937-959 | a check that finds no blocker finds every participant parked and none at the gate, and once it has entered, every one not in a mutex stays parked until the gate opens |
| `Parking.EpochMoves` | crates/snare-interpose/src/domain.rs:426-432 | every step moves the epoch by one exactly if it is a park that leaves all parked and none settling, an unpark with all parked other than one that ends the settling, the end of a mutex return begun with all parked, or a participant that goes |
| `Parking.StepSteady` | crates/snare-interpose/src/domain.rs:426-432 | a park or unpark that leaves the epoch unmoved leaves it unchanged whether all are parked and none settling, exactly unless it disturbs |
| `Parking.UnmovedEpoch` | crates/snare-interpose/src/domain.rs:2000-2063 | over a whole stretch of parks and unparks that leaves the epoch unmoved, with no thread on its way out of a mutex wait at its end, it stays unchanged all along if and only if nothing in it disturbs |
| `Parking.StillHolding` | crates/snare-interpose/src/domain.rs:2000-2063 | with a thread on its way out it can change with the epoch yet to move |
| `Parking.HeldAtGateDisturbs` | crates/snare-interpose/src/domain.rs:2072-2088 | a reachable state in which a settled leave that meets a closed gate does change it |
| `ClockSpin.Moves` | crates/snare-interpose/src/domain.rs:3575-3597 | what each event moves, exactly: nothing before the 64th, nor a yield after a read; a read 1 us if the spin has not yielded and has made fewer than 65,600 reads, else a 64th of the time spun, between 1 us and 1 s, cut short 1 ns before a timer in its way and from there just past it; any other yield goes just past the next timer |
| `ClockSpin.EvenStretch` | crates/snare-interpose/src/domain.rs:3610-3620 | with reads alone and no timer in the way, each of the 65,536 from the 64th on moves just 1 us |
| `ClockSpin.Exactly` | crates/snare-interpose/src/domain.rs:4096-4111 | with no timer in the way, a spin that yields early on or never has spun exactly what its number of reads says |
| `ClockSpin.Ahead` | crates/snare-interpose/src/domain.rs:4096-4111 | over every pattern of reads and yields and all timers, a spin is never behind one that no timer cuts short, once two reads for each timer passed and those before it was caught are taken off |
| `ClockSpin.Reaches` | crates/snare-interpose/src/domain.rs:3608-3626 | any deadline is reached within 63 reads, the even stretch (none if the spin yields early on), 65 reads for each doubling up to 64 s, one for each second after, and two for each timer on the way, whatever yields come between |
| `ClockSpin.AnHour` | crates/snare-interpose/src/domain.rs:3610-3620 | the bound of `Reaches` at the one distance the comment names: with no timer in the way an hour takes 4,187 reads past the even stretch |
| `ClockSpin.Overshoot` | crates/snare-interpose/src/domain.rs:4096-4111 | a read passes a deadline by less than 1 us or a 64th of its distance, and a yield just passes the next timer |
| `ClockSpin.NeverLateUnless` | crates/snare-interpose/src/domain.rs:3569-3594 | no pattern of reads and yields passes a deadline by more than that, if and only if the timer next after where skips alone stop short of it is not so far past it |
| `ClockSpin.SpinTo` | crates/snare-interpose/src/domain.rs:4001-4137 | a thread that waits for a deadline in any pattern stops at the first event that gets there: within the bound on reads, and hardly late unless such a timer is pending |
| `Lineage.OrdersApart` | crates/snare-interpose/src/domain.rs:1631-1636 | for every parent the mixing is injective in the birth order |
| `Lineage.ParentsApart` | crates/snare-interpose/src/domain.rs:1631-1636 | for every birth order it is injective in the parent |
| `Lineage.FinaliseInjective` | crates/snare-interpose/src/domain.rs:1622-1636 | the three rounds of shifts and multiplications lose nothing |
| `Lineage.Births` | crates/snare-interpose/src/domain.rs:1611-1636 | however many children a thread has, up to 2^64 - 1, no two get the same lineage |
| `EnvBlock.NameRecovered` | crates/snare-interpose/src/env_windows.rs:325-331 | the name's length is recovered from an entry exactly when its name is one a block takes, those that begin with `=` among them |
| `EnvBlock.CompareMeans` | crates/snare-interpose/src/env_windows.rs:266-290 | one name comes before another if and only if, at the first place they differ, it has ended or has the lesser unit |
| `EnvBlock.EntryAt` | crates/snare-interpose/src/env_windows.rs:253-255 | scanning to the next NUL finds each entry where the ones before it end |
| `EnvBlock.Scan` | crates/snare-interpose/src/env_windows.rs:271-290 | the first entry not below the name, and whether it is the name's |
| `EnvBlock.Edit` | crates/snare-interpose/src/env_windows.rs:290-320 | splicing the buffer gives the flat form of the entries with the name set in its place |
| `EnvBlock.SortedMeans` | crates/snare-interpose/src/env_windows.rs:266-290 | entries in order are those of which every earlier name precedes every later one so |
| `EnvBlock.SetSorted` | crates/snare-interpose/src/env_windows.rs:266-320 | entries stay strictly in ascending order of their folded names |
| `EnvBlock.SetLookup` | crates/snare-interpose/src/env_windows.rs:266-320 | one name changes and no other, and a name already there keeps its spelling |
| `EnvBlock.State.Set` | crates/snare-interpose/src/env_windows.rs:271-320 | a bad name fails and changes nothing; any other becomes the map's update, on a buffer that stays well formed |
| `EnvBlock.Run` | crates/snare-interpose/src/env_windows.rs:251-331 | over every sequence of sets from an empty block, the buffer is the flat form of the entries so set |
| `EnvBlock.AfterMeans` | crates/snare-interpose/src/env_windows.rs:266-320 | after every sequence of sets the entries are in strict order of their folded names and stand for the map of those updates, each name in the spelling it was first set under |
| `EnvBlock.Canonical` | crates/snare-interpose/src/env_windows.rs:266-320 | two blocks in order that stand for one map are the same, whatever updates made them |
| `EnvTables.LowerMeans` | crates/snare-interpose/src/env_windows.rs:492-498 | just the two cases of an ASCII letter are alike |
| `EnvTables.MatchesName` | crates/snare-interpose/src/env_windows.rs:334-342 | for a name without `=` both tests on an entry accept exactly the name equal without regard to case, and the value read is the entry's |
| `EnvTables.ReadsPart` | crates/snare-interpose/src/env_windows.rs:334-342 | for any name `getenv` takes an entry just when the name up to its first `=` is the entry's and the rest of it begins the value, up to another `=`; what it reads is what follows |
| `EnvTables.PutTable` | crates/snare-interpose/src/env_windows.rs:428-446 | a table's map is updated; unchanged exactly when an absent name is removed |
| `EnvTables.ReadValue` | crates/snare-interpose/src/env_windows.rs:334-342 | the value the table's map has for the name, or, for a name with `=` in it, the part of a value it reaches |
| `EnvTables.CopyTable` | crates/snare-interpose/src/env_windows.rs:480-490 | the block's entries in order, those that begin with `=` left out |
| `EnvTables.SameLookup` | crates/snare-interpose/src/env_windows.rs:480-502 | the block and a table made of its entries look every ASCII name up alike |
| `EnvTables.SetMeans` | crates/snare-interpose/src/env_windows.rs:461-502 | setting an ASCII name in the block is the same update of the map as a put in a table |
| `EnvTables.WinEnv.constructor` | crates/snare-interpose/src/env_windows.rs:100-123 | block and narrow table start out standing for the map the variables leave |
| `EnvTables.InitialMeans` | crates/snare-interpose/src/env_windows.rs:93-123 | that map has the value last set for every ASCII name, whatever its case |
| `EnvTables.WinEnv.UseWide` | crates/snare-interpose/src/env_windows.rs:480-490 | the wide table, whenever it is made, stands for the same map |
| `EnvTables.WinEnv.CrtValue` | crates/snare-interpose/src/env_windows.rs:221-227 | reads the last value put under the name, through either table, and for a name with `=` in it part of the value put under its stem; nothing under the empty name |
| `EnvTables.WinEnv.CrtPut` | crates/snare-interpose/src/env_windows.rs:233-248 | an option without a name fails and changes nothing; any other updates block and tables to one new map, and removing an absent name leaves the block and the tables there are as they were |
| `EnvTables.Run` | crates/snare-interpose/src/env_windows.rs:221-248 | over every sequence of narrow and wide puts and reads from any starting variables, each read, of any name, finds what the one map holds |

## Left out

- CensusRuns.Run: the generation counter stays below its very last value, so the run has fewer than 2^64 - 2 calls; the program stops with a panic one generation later. At that last generation a wake's cutoff equals the `u64::MAX` a parked wait carries as its retirement, and the single-record shortcut and the general search differ.
- CensusRuns.Run: a lineage already in the census does not enter again; lineages do not repeat.
- Uncounted waits, outside wakes and the attribution of moved words (`uncounted`, `foreign`, `unexplained`).
- The mutex side of `released` and of `first_unheld_lock`, and condition variables' watches.
- Row labels, deadlines, timestamps and names; the order in which tables of rows and records are visited, so any order is allowed for.
- Futex masks are sets of bits rather than 32-bit words, and credit counts are unbounded where the program saturates.
- Parking: a deterministic schedule, joins, the audit's notes and the wait on the gate's condition variable; a thread that waits at the gate is held again or let through by a later step. The epoch is unbounded.
- MutexWatch: the first watch on one mutex, by a contended lock, and no spilled `Held` record. Its queue is the one `PendingQueue` proves: in order, drained by whoever takes the census, and full at times.
- PendingQueue: positions are unbounded where the program's wrap at 2^64, and the drain's wait for a slot being filled is a step that does nothing.
- EpochArm: a callback can be released before the epoch moves past what it was armed with, when a bump that has seen the flag waits for the lock while the callback is replaced; only that none is lost or run twice is stated.
- LeaseGate: the checks of quiescence a skip makes under the gate, so a skip may move the clock by any amount, or none; and a clock driven from outside, which a charge moves less.
- ClockSpin: other participants at work, timers set during the spin (those reached are taken at once), a limit set on skips, the end of the clock at 2^64 ns, and the coarser step past a timer on Windows.
- EnvBlock: `SetEnvironmentStringsW`, which keeps unsorted and repeated names, and the calls that expand and query through ntdll.
- EnvTables: code pages, so the strings put are ASCII.
- Windows timer releases, macOS native owners and the counters other systems use instead of wake records.
- The hooks, the layers, the scheduler, `Holders`, the census of OS threads and the command-line tools.
